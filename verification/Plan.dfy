/**
  The execution plan and its recovery from the ledger (reuleauxcoder/domain/plan.py).

  A fingerprint stands for the JSON text it is in the program: equal JSON texts come from
  equal data, and a plan's text is an object where a report's is a list. The position of a
  ledger entry stands for its event id. The ledger and the controller agree on the session
  generation, as reuleauxcoder/domain/agent/agent.py:2039 keeps them.
 */
module Plan {
  import opened Prelude

  datatype Result<T, E> = Ok(value: T) | Err(error: E)

  // ----- Stripping -----

  /** The characters Python's `str.strip` removes. */
  predicate IsSpace(c: char) {
    var n := c as int;
    9 <= n <= 13 || 28 <= n <= 32 || n == 0x85 || n == 0xA0 || n == 0x1680 || 0x2000 <= n <= 0x200A
    || n == 0x2028 || n == 0x2029 || n == 0x202F || n == 0x205F || n == 0x3000
  }

  function LeftEdge(s: string, i: nat): (r: nat)
    requires i <= |s|
    ensures i <= r <= |s| && (forall k :: i <= k < r ==> IsSpace(s[k])) && (r < |s| ==> !IsSpace(s[r]))
    decreases |s| - i
  {
    if i < |s| && IsSpace(s[i]) then LeftEdge(s, i + 1) else i
  }

  function RightEdge(s: string, low: nat, j: nat): (r: nat)
    requires low <= j <= |s|
    ensures low <= r <= j && (forall k :: r <= k < j ==> IsSpace(s[k])) && (r > low ==> !IsSpace(s[r - 1]))
  {
    if low < j && IsSpace(s[j - 1]) then RightEdge(s, low, j - 1) else j
  }

  predicate Trimmed(s: string) {
    s == "" || (!IsSpace(s[0]) && !IsSpace(s[|s| - 1]))
  }

  function Strip(s: string): (r: string)
    ensures Trimmed(r)
  {
    var low := LeftEdge(s, 0);
    s[low..RightEdge(s, low, |s|)]
  }

  /** Stripping changes nothing exactly where there is nothing to strip. */
  lemma StripTrimmed(s: string)
    ensures Strip(s) == s <==> Trimmed(s)
  {
    if Trimmed(s) && s != "" {
      assert LeftEdge(s, 0) == 0;
      assert RightEdge(s, 0, |s|) == |s|;
    }
  }

  /** `r` is the text without the white space at its ends. */
  ghost predicate TrimsTo(s: string, r: string) {
    Trimmed(r) && exists low: nat, high: nat :: Between(s, low, high) && r == s[low..high]
  }

  /** Outside `s[low..high]` there is only white space. */
  predicate Between(s: string, low: nat, high: nat) {
    && low <= high <= |s|
    && (forall k :: 0 <= k < low ==> IsSpace(s[k])) && (forall k :: high <= k < |s| ==> IsSpace(s[k]))
  }

  lemma StripTrims(s: string)
    ensures TrimsTo(s, Strip(s))
  {
    var low := LeftEdge(s, 0);
    var high := RightEdge(s, low, |s|);
    assert Between(s, low, high);
  }

  /** A text of white space only trims to nothing, any other to what lies between its outermost other characters. */
  lemma BetweenUnique(s: string, low: nat, high: nat, low': nat, high': nat)
    requires Between(s, low, high) && Between(s, low', high') && Trimmed(s[low..high]) && Trimmed(s[low'..high'])
    ensures s[low..high] == s[low'..high']
  {
    if low < high {
      assert !IsSpace(s[low..high][0]) && !IsSpace(s[low..high][high - low - 1]);
    }
    if low' < high' {
      assert !IsSpace(s[low'..high'][0]) && !IsSpace(s[low'..high'][high' - low' - 1]);
    }
  }

  /** Stripping keeps all but the white space at the ends, and is the only text that does. */
  lemma StripIff(s: string, r: string)
    ensures TrimsTo(s, r) <==> r == Strip(s)
  {
    StripTrims(s);
    if TrimsTo(s, r) {
      var low: nat, high: nat :| Between(s, low, high) && r == s[low..high];
      var l := LeftEdge(s, 0);
      BetweenUnique(s, low, high, l, RightEdge(s, l, |s|));
    }
  }

  // ----- Items -----

  datatype PlanItem = PlanItem(step: string, activeForm: string, status: string)

  /** A raw item as a mapping; a missing or null field reads as the empty string. */
  datatype RawItem = NotAnObject | Raw(step: string, activeForm: string, status: string)

  datatype Fault = NotObject | BadStep | BadActiveForm | BadStatus

  datatype Error = TooMany | BadItem(index: nat, fault: Fault) | SeveralActive | TooLong
                 | DifferentData | GenerationChanged | BadPhase | BadSummary

  const MAX_ITEMS := 20
  const MAX_ITEM_CHARS := 240
  const MAX_SERIALIZED_CHARS := 5000
  const MAX_TEXT_CHARS := 500

  predicate IsStatus(status: string) {
    status == "pending" || status == "in_progress" || status == "completed"
  }

  function Clean(raw: RawItem): Result<PlanItem, Fault> {
    if raw.NotAnObject? then Err(NotObject)
    else
      var step := Strip(raw.step);
      var active := Strip(if raw.activeForm == "" then step else raw.activeForm);
      if step == "" || |step| > MAX_ITEM_CHARS then Err(BadStep)
      else if active == "" || |active| > MAX_ITEM_CHARS then Err(BadActiveForm)
      else if !IsStatus(raw.status) then Err(BadStatus)
      else Ok(PlanItem(step, active, raw.status))
  }

  /** The length of a JSON string body with ASCII escapes only where JSON needs them. */
  function EscapedLength(s: string, n: nat): nat
    requires n <= |s|
  {
    if n == 0 then 0 else EscapedLength(s, n - 1) + CharLength(s[n - 1])
  }

  function CharLength(c: char): nat {
    if c == '\"' || c == '\\' then 2
    else if 8 <= c as int <= 10 || c as int == 12 || c as int == 13 then 2
    else if c as int < 32 then 6
    else 1
  }

  function QuotedLength(s: string): nat {
    2 + EscapedLength(s, |s|)
  }

  /** `{"step":…,"active_form":…,"status":…}` */
  function ItemLength(item: PlanItem): nat {
    8 + QuotedLength(item.step) + 15 + QuotedLength(item.activeForm) + 10 + QuotedLength(item.status) + 1
  }

  /** The first `n` items with a comma after each. */
  function ItemsLength(items: seq<PlanItem>, n: nat): nat
    requires n <= |items|
  {
    if n == 0 then 0 else ItemsLength(items, n - 1) + ItemLength(items[n - 1]) + 1
  }

  function SerializedLength(items: seq<PlanItem>): nat {
    if items == [] then 2 else ItemsLength(items, |items|) + 1
  }

  // ----- The JSON text that the length counts -----

  function Hex(n: nat): char
    requires n < 16
  {
    if n < 10 then ('0' as int + n) as char else ('a' as int + n - 10) as char
  }

  /** One character inside a JSON string; the program asks for no escapes beyond those JSON needs. */
  function Escape(c: char): string {
    var n := c as int;
    if c == '\"' then "\\\""
    else if c == '\\' then "\\\\"
    else if n == 8 then "\\b"
    else if n == 9 then "\\t"
    else if n == 10 then "\\n"
    else if n == 12 then "\\f"
    else if n == 13 then "\\r"
    else if n < 32 then "\\u00" + [Hex(n / 16), Hex(n % 16)]
    else [c]
  }

  function Escaped(s: string, n: nat): string
    requires n <= |s|
  {
    if n == 0 then "" else Escaped(s, n - 1) + Escape(s[n - 1])
  }

  function Quoted(s: string): string {
    "\"" + Escaped(s, |s|) + "\""
  }

  function ItemJson(item: PlanItem): string {
    "{\"step\":" + Quoted(item.step) + ",\"active_form\":" + Quoted(item.activeForm)
    + ",\"status\":" + Quoted(item.status) + "}"
  }

  function Texts(items: seq<PlanItem>): (r: seq<string>)
    ensures |r| == |items| && forall i :: 0 <= i < |r| ==> r[i] == ItemJson(items[i])
  {
    seq(|items|, i requires 0 <= i < |items| => ItemJson(items[i]))
  }

  function CommaJoin(texts: seq<string>, n: nat): string
    requires n <= |texts|
  {
    if n == 0 then "" else CommaJoin(texts, n - 1) + (if n == 1 then "" else ",") + texts[n - 1]
  }

  /** `json.dumps` of the items, without spaces and with non-ASCII characters as they are. */
  function PlanJson(items: seq<PlanItem>): string {
    "[" + CommaJoin(Texts(items), |items|) + "]"
  }

  lemma {:induction false} EscapedIsLong(s: string, n: nat)
    requires n <= |s|
    ensures |Escaped(s, n)| == EscapedLength(s, n)
  {
    if n > 0 {
      EscapedIsLong(s, n - 1);
    }
  }

  lemma ItemIsLong(item: PlanItem)
    ensures |ItemJson(item)| == ItemLength(item)
  {
    EscapedIsLong(item.step, |item.step|);
    EscapedIsLong(item.activeForm, |item.activeForm|);
    EscapedIsLong(item.status, |item.status|);
  }

  /** The lengths of the first `n` texts with a comma after each. */
  function CommaLength(lengths: seq<nat>, n: nat): nat
    requires n <= |lengths|
  {
    if n == 0 then 0 else CommaLength(lengths, n - 1) + lengths[n - 1] + 1
  }

  lemma {:induction false} CommaJoinLength(texts: seq<string>, lengths: seq<nat>, n: nat)
    requires n <= |texts| == |lengths| && forall i :: 0 <= i < |texts| ==> |texts[i]| == lengths[i]
    ensures |CommaJoin(texts, n)| + (if n == 0 then 0 else 1) == CommaLength(lengths, n)
  {
    if n > 0 {
      CommaJoinLength(texts, lengths, n - 1);
    }
  }

  lemma {:induction false} ItemsSum(items: seq<PlanItem>, lengths: seq<nat>, n: nat)
    requires n <= |items| == |lengths| && forall i :: 0 <= i < |items| ==> ItemLength(items[i]) == lengths[i]
    ensures ItemsLength(items, n) == CommaLength(lengths, n)
  {
    if n > 0 {
      ItemsSum(items, lengths, n - 1);
    }
  }

  /** The length checked is the length of the JSON text. */
  lemma SerializedIsLong(items: seq<PlanItem>)
    ensures |PlanJson(items)| == SerializedLength(items)
  {
    var lengths := seq(|items|, i requires 0 <= i < |items| => ItemLength(items[i]));
    forall i | 0 <= i < |items| ensures |Texts(items)[i]| == lengths[i] {
      ItemIsLong(items[i]);
    }
    CommaJoinLength(Texts(items), lengths, |items|);
    ItemsSum(items, lengths, |items|);
  }

  function ActiveCount(items: seq<PlanItem>, n: nat): nat
    requires n <= |items|
  {
    if n == 0 then 0 else ActiveCount(items, n - 1) + (if items[n - 1].status == "in_progress" then 1 else 0)
  }

  predicate SoundItem(item: PlanItem) {
    && item.step != "" && Trimmed(item.step) && |item.step| <= MAX_ITEM_CHARS
    && item.activeForm != "" && Trimmed(item.activeForm) && |item.activeForm| <= MAX_ITEM_CHARS
    && IsStatus(item.status)
  }

  /** A plan whose items keep every limit. */
  predicate Sound(items: seq<PlanItem>) {
    && |items| <= MAX_ITEMS
    && (forall i :: 0 <= i < |items| ==> SoundItem(items[i]))
    && (forall i, j :: 0 <= i < j < |items| ==> !(items[i].status == "in_progress" && items[j].status == "in_progress"))
    && SerializedLength(items) <= MAX_SERIALIZED_CHARS
  }

  predicate AllClean(raw: seq<RawItem>, n: nat)
    requires n <= |raw|
  {
    forall i :: 0 <= i < n ==> Clean(raw[i]).Ok?
  }

  function Cleaned(raw: seq<RawItem>): (r: seq<PlanItem>)
    requires AllClean(raw, |raw|)
    ensures |r| == |raw| && forall i :: 0 <= i < |r| ==> r[i] == Clean(raw[i]).value
  {
    seq(|raw|, i requires 0 <= i < |raw| && Clean(raw[i]).Ok? => Clean(raw[i]).value)
  }

  function FirstFault(raw: seq<RawItem>, i: nat): (r: nat)
    requires i <= |raw| && AllClean(raw, i)
    ensures i <= r <= |raw| && AllClean(raw, r) && (r < |raw| ==> Clean(raw[r]).Err?)
    decreases |raw| - i
  {
    if i == |raw| || Clean(raw[i]).Err? then i else FirstFault(raw, i + 1)
  }

  /** `_validate_items`. */
  function Validate(raw: seq<RawItem>): Result<seq<PlanItem>, Error> {
    if |raw| > MAX_ITEMS then Err(TooMany)
    else
      var bad := FirstFault(raw, 0);
      if bad < |raw| then Err(BadItem(bad, Clean(raw[bad]).error)) else Judge(Cleaned(raw))
  }

  /** The checks on the plan as a whole. */
  function Judge(items: seq<PlanItem>): Result<seq<PlanItem>, Error> {
    if ActiveCount(items, |items|) > 1 then Err(SeveralActive)
    else if SerializedLength(items) > MAX_SERIALIZED_CHARS then Err(TooLong)
    else Ok(items)
  }

  lemma {:induction false} ActiveCountBound(items: seq<PlanItem>, n: nat)
    requires n <= |items|
    ensures ActiveCount(items, n) == 0 <==> forall i :: 0 <= i < n ==> items[i].status != "in_progress"
    ensures ActiveCount(items, n) <= 1 <==>
      forall i, j :: 0 <= i < j < n ==> !(items[i].status == "in_progress" && items[j].status == "in_progress")
  {
    if n > 0 {
      ActiveCountBound(items, n - 1);
      if items[n - 1].status == "in_progress" && ActiveCount(items, n - 1) > 0 {
        var i :| 0 <= i < n - 1 && items[i].status == "in_progress";
      }
    }
  }

  function AsRaw(items: seq<PlanItem>): (r: seq<RawItem>)
    ensures |r| == |items|
    ensures forall i :: 0 <= i < |r| ==> r[i] == Raw(items[i].step, items[i].activeForm, items[i].status)
  {
    seq(|items|, i requires 0 <= i < |items| => Raw(items[i].step, items[i].activeForm, items[i].status))
  }

  lemma CleanIsSound(raw: RawItem)
    requires Clean(raw).Ok?
    ensures SoundItem(Clean(raw).value)
  {
  }

  lemma SoundIsClean(item: PlanItem)
    requires SoundItem(item)
    ensures Clean(Raw(item.step, item.activeForm, item.status)) == Ok(item)
  {
    StripTrimmed(item.step);
    StripTrimmed(item.activeForm);
  }

  /** The item a raw item stands for: trimmed, and without an active form its step. */
  predicate StandsFor(raw: RawItem, item: PlanItem) {
    && raw.Raw? && item.step == Strip(raw.step) && item.status == raw.status
    && item.activeForm == (if raw.activeForm == "" then item.step else Strip(raw.activeForm))
  }

  lemma CleanIff(raw: RawItem, item: PlanItem)
    ensures Clean(raw) == Ok(item) <==> StandsFor(raw, item) && SoundItem(item)
  {
    if raw.Raw? {
      StripTrimmed(Strip(raw.step));
    }
  }

  predicate OutOfLimits(text: string) {
    text == "" || |text| > MAX_ITEM_CHARS
  }

  /** Why a raw item is refused. */
  predicate FaultOf(raw: RawItem, fault: Fault) {
    match fault
    case NotObject => raw.NotAnObject?
    case BadStep => raw.Raw? && OutOfLimits(Strip(raw.step))
    case BadActiveForm => raw.Raw? && raw.activeForm != "" && OutOfLimits(Strip(raw.activeForm))
    case BadStatus => raw.Raw? && raw.status != "pending" && raw.status != "in_progress" && raw.status != "completed"
  }

  lemma CleanFault(raw: RawItem)
    requires Clean(raw).Err?
    ensures FaultOf(raw, Clean(raw).error)
  {
    if raw.Raw? {
      StripTrimmed(Strip(raw.step));
    }
  }

  ghost predicate AllStandFor(raw: seq<RawItem>, items: seq<PlanItem>) {
    |items| == |raw| && forall i :: 0 <= i < |raw| ==> StandsFor(raw[i], items[i])
  }

  /** Validation accepts exactly the plans that stand for sound items, and gives those. */
  lemma ValidateIff(raw: seq<RawItem>, items: seq<PlanItem>)
    ensures Validate(raw) == Ok(items) <==> Sound(items) && AllStandFor(raw, items)
  {
    if Validate(raw) == Ok(items) {
      ValidatedIsSound(raw);
      forall i | 0 <= i < |raw| ensures StandsFor(raw[i], items[i]) {
        CleanIff(raw[i], items[i]);
      }
    } else if Sound(items) && AllStandFor(raw, items) {
      forall i | 0 <= i < |raw| ensures Clean(raw[i]) == Ok(items[i]) {
        CleanIff(raw[i], items[i]);
      }
      assert Cleaned(raw) == items;
      ActiveCountBound(items, |items|);
    }
  }

  /** Why a plan is refused: for the first thing that is wrong with it. */
  ghost predicate RefusedFor(raw: seq<RawItem>, error: Error) {
    if error.TooMany? then |raw| > MAX_ITEMS
    else
      && |raw| <= MAX_ITEMS
      && if error.BadItem? then
           error.index < |raw| && FaultOf(raw[error.index], error.fault) && AllClean(raw, error.index)
         else
           && AllClean(raw, |raw|)
           && if error.SeveralActive? then ActiveCount(Cleaned(raw), |raw|) > 1
              else error.TooLong? && SerializedLength(Cleaned(raw)) > MAX_SERIALIZED_CHARS
  }

  lemma ValidateFault(raw: seq<RawItem>)
    requires Validate(raw).Err?
    ensures RefusedFor(raw, Validate(raw).error)
  {
    if |raw| <= MAX_ITEMS && FirstFault(raw, 0) < |raw| {
      CleanFault(raw[FirstFault(raw, 0)]);
    }
  }

  /** Whatever validation accepts keeps every limit. */
  lemma ValidatedIsSound(raw: seq<RawItem>)
    requires Validate(raw).Ok?
    ensures Sound(Validate(raw).value) && |Validate(raw).value| == |raw|
  {
    var items := Cleaned(raw);
    assert Judge(items) == Ok(items);
    ActiveCountBound(items, |items|);
    forall i | 0 <= i < |items| ensures SoundItem(items[i]) {
      CleanIsSound(raw[i]);
    }
  }

  /** A sound plan validates as itself; so validation is idempotent on its own output. */
  lemma SoundValidates(items: seq<PlanItem>)
    requires Sound(items)
    ensures Validate(AsRaw(items)) == Ok(items)
  {
    var raw := AsRaw(items);
    forall i | 0 <= i < |items| ensures Clean(raw[i]) == Ok(items[i]) {
      SoundIsClean(items[i]);
    }
    assert Cleaned(raw) == items;
    ActiveCountBound(items, |items|);
  }

  /** The loop of `_validate_items`; `bad` is the first item refused. */
  method CleanItems(raw: seq<RawItem>) returns (bad: nat, items: seq<PlanItem>, active: nat)
    ensures bad == FirstFault(raw, 0)
    ensures bad == |raw| ==> items == Cleaned(raw) && active == ActiveCount(items, |items|)
  {
    items, active := [], 0;
    for i := 0 to |raw|
      invariant AllClean(raw, i) && FirstFault(raw, 0) == FirstFault(raw, i)
      invariant |items| == i && CleanedTo(raw, items)
      invariant active == ActiveCount(items, i)
    {
      var item := Clean(raw[i]);
      if item.Err? {
        return i, items, active;
      }
      ActiveCountSnoc(items, item.value);
      CleanedSnoc(raw, items, item.value);
      items := items + [item.value];
      active := active + (if item.value.status == "in_progress" then 1 else 0);
    }
    bad := |raw|;
    assert items == Cleaned(raw);
  }

  predicate CleanedTo(raw: seq<RawItem>, items: seq<PlanItem>) {
    |items| <= |raw| && forall k :: 0 <= k < |items| ==> Clean(raw[k]) == Ok(items[k])
  }

  lemma CleanedSnoc(raw: seq<RawItem>, items: seq<PlanItem>, item: PlanItem)
    requires CleanedTo(raw, items) && |items| < |raw| && Clean(raw[|items|]) == Ok(item)
    ensures CleanedTo(raw, items + [item])
  {
    var longer := items + [item];
    forall k | 0 <= k < |longer| ensures Clean(raw[k]) == Ok(longer[k]) {
      if k < |items| {
        assert longer[k] == items[k];
      }
    }
  }

  method ValidateItems(raw: seq<RawItem>) returns (r: Result<seq<PlanItem>, Error>)
    ensures r == Validate(raw)
  {
    if |raw| > MAX_ITEMS {
      return Err(TooMany);
    }
    var bad, items, active := CleanItems(raw);
    if bad < |raw| {
      return Err(BadItem(bad, Clean(raw[bad]).error));
    }
    if active > 1 {
      return Err(SeveralActive);
    }
    if SerializedLength(items) > MAX_SERIALIZED_CHARS {
      return Err(TooLong);
    }
    return Ok(items);
  }

  lemma ActiveCountSnoc(items: seq<PlanItem>, item: PlanItem)
    ensures ActiveCount(items + [item], |items| + 1)
            == ActiveCount(items, |items|) + (if item.status == "in_progress" then 1 else 0)
  {
    ActiveCountPrefix(items, item, |items|);
  }

  lemma {:induction false} ActiveCountPrefix(items: seq<PlanItem>, item: PlanItem, n: nat)
    requires n <= |items|
    ensures ActiveCount(items + [item], n) == ActiveCount(items, n)
  {
    if n > 0 {
      ActiveCountPrefix(items, item, n - 1);
    }
  }

  // ----- The controller -----

  datatype PlanState = PlanState(
    revision: nat, items: seq<PlanItem>, explanation: Option<string>, event: Option<nat>)

  datatype Progress = Progress(
    phase: string, summary: string, next: Option<string>, revision: nat, event: Option<nat>)

  datatype Fingerprint =
    | OfPlan(items: seq<PlanItem>, explanation: Option<string>)
    | OfProgress(phase: string, summary: string, next: Option<string>)

  datatype Commit = Commit(mark: Fingerprint, revision: nat)

  datatype Body =
    | PlanUpdated(revision: nat, items: seq<RawItem>, explanation: Option<string>, call: string)
    | ProgressReported(revision: nat, phase: string, summary: string, next: Option<string>, call: string)
    | Unrelated

  datatype Entry = Entry(generation: int, body: Body)

  datatype Controller = Controller(
    plan: PlanState, progress: Progress, calls: map<string, Commit>)

  const NO_PLAN := PlanState(0, [], None, None)
  const NO_PROGRESS := Progress("investigating", "", None, 0, None)

  /** `x or None` on a text. */
  function OrNone(s: string): Option<string> {
    if s == "" then None else Some(s)
  }

  function OrEmpty(s: Option<string>): string {
    if s.None? then "" else s.value
  }

  function Cut(s: string): (r: string)
    ensures |r| <= MAX_TEXT_CHARS
  {
    if |s| > MAX_TEXT_CHARS then s[..MAX_TEXT_CHARS] else s
  }

  function StripCut(s: Option<string>): Option<string> {
    OrNone(Cut(Strip(OrEmpty(s))))
  }

  predicate IsPhase(phase: string) {
    phase in {"investigating", "implementing", "verifying", "ready", "blocked"}
  }

  datatype System = System(generation: int, controller: Controller, ledger: seq<Entry>)

  /** The locked part of `update` and `report` decides from the table and the generation first. */
  function Admission(s: System, call: string, mark: Fingerprint, generation: int): Result<bool, Error> {
    if call in s.controller.calls then
      if s.controller.calls[call].mark != mark then Err(DifferentData) else Ok(false)
    else if generation != s.generation then Err(GenerationChanged)
    else Ok(true)
  }

  function CommitPlan(s: System, items: seq<PlanItem>, explanation: Option<string>, call: string): System {
    var c := s.controller;
    var revision := c.plan.revision + 1;
    System(
      s.generation,
      Controller(PlanState(revision, items, explanation, Some(|s.ledger|)), c.progress,
                 c.calls[call := Commit(OfPlan(items, explanation), revision)]),
      s.ledger + [Entry(s.generation, PlanUpdated(revision, AsRaw(items), explanation, call))])
  }

  /** `update`: the new state, and whether something was committed. */
  function Update(s: System, raw: seq<RawItem>, explanation: Option<string>, call: string, generation: int)
    : (System, Result<bool, Error>)
  {
    var items := Validate(raw);
    if items.Err? then (s, Err(items.error))
    else
      var a := Admission(s, call, OfPlan(items.value, StripCut(explanation)), generation);
      if a == Ok(true) then (CommitPlan(s, items.value, StripCut(explanation), call), a) else (s, a)
  }

  function CommitProgress(s: System, phase: string, summary: string, next: Option<string>, call: string): System {
    var c := s.controller;
    var revision := c.progress.revision + 1;
    System(
      s.generation,
      Controller(c.plan, Progress(phase, summary, next, revision, Some(|s.ledger|)),
                 c.calls[call := Commit(OfProgress(phase, summary, next), revision)]),
      s.ledger + [Entry(s.generation, ProgressReported(revision, phase, summary, next, call))])
  }

  function Report(s: System, phase: string, summary: string, next: Option<string>, call: string, generation: int)
    : (System, Result<bool, Error>)
  {
    var text := Strip(summary);
    if !IsPhase(phase) then (s, Err(BadPhase))
    else if text == "" || |text| > MAX_TEXT_CHARS then (s, Err(BadSummary))
    else
      var a := Admission(s, call, OfProgress(phase, text, StripCut(next)), generation);
      if a == Ok(true) then (CommitProgress(s, phase, text, StripCut(next), call), a) else (s, a)
  }

  // ----- Recovery -----

  /** The last plan entry of a generation among the first `n`. */
  function LastPlan(ledger: seq<Entry>, generation: int, n: nat): (at: Option<nat>)
    requires n <= |ledger|
    ensures at.Some? ==> at.value < n && ledger[at.value].body.PlanUpdated?
  {
    if n == 0 then None
    else if ledger[n - 1].generation == generation && ledger[n - 1].body.PlanUpdated? then Some(n - 1)
    else LastPlan(ledger, generation, n - 1)
  }

  function LastProgress(ledger: seq<Entry>, generation: int, n: nat): (at: Option<nat>)
    requires n <= |ledger|
    ensures at.Some? ==> at.value < n && ledger[at.value].body.ProgressReported?
  {
    if n == 0 then None
    else if ledger[n - 1].generation == generation && ledger[n - 1].body.ProgressReported? then Some(n - 1)
    else LastProgress(ledger, generation, n - 1)
  }

  function RestorePlan(body: Body, event: nat): Result<PlanState, Error>
    requires body.PlanUpdated?
  {
    var items := Validate(body.items);
    if items.Err? then Err(items.error) else Ok(PlanState(body.revision, items.value, body.explanation, Some(event)))
  }

  function RestoreProgress(body: Body, event: nat): Progress
    requires body.ProgressReported?
  {
    var phase := if IsPhase(body.phase) then body.phase else "investigating";
    Progress(phase, Cut(body.summary), OrNone(Cut(OrEmpty(body.next))), body.revision, Some(event))
  }

  /** One round of the loop that rebuilds the table of committed calls. */
  function Recall(calls: map<string, Commit>, e: Entry, generation: int): Result<map<string, Commit>, Error> {
    if e.generation != generation || e.body.Unrelated? || e.body.call == "" then Ok(calls)
    else if e.body.PlanUpdated? then
      var items := Validate(e.body.items);
      if items.Err? then Err(items.error)
      else
        var again := OrNone(Strip(OrEmpty(e.body.explanation)));
        Ok(calls[e.body.call := Commit(OfPlan(items.value, again), e.body.revision)])
    else Ok(calls[e.body.call := Commit(OfProgress(e.body.phase, e.body.summary, e.body.next), e.body.revision)])
  }

  function RecallAll(ledger: seq<Entry>, generation: int, n: nat): Result<map<string, Commit>, Error>
    requires n <= |ledger|
  {
    if n == 0 then Ok(map[])
    else
      var before := RecallAll(ledger, generation, n - 1);
      if before.Err? then before else Recall(before.value, ledger[n - 1], generation)
  }

  /** The last plan entry with its event. */
  datatype Found = Nowhere | Found(body: Body, event: nat)

  function FoundPlan(ledger: seq<Entry>, generation: int): (f: Found)
    ensures f.Found? ==> f.body.PlanUpdated?
  {
    var at := LastPlan(ledger, generation, |ledger|);
    if at.None? then Nowhere else Found(ledger[at.value].body, at.value)
  }

  /** What `restore` puts in place of the plan and of the progress. */
  function RecoveredPlan(ledger: seq<Entry>, generation: int): Result<PlanState, Error> {
    var f := FoundPlan(ledger, generation);
    if f.Nowhere? then Ok(NO_PLAN) else RestorePlan(f.body, f.event)
  }

  function RecoveredProgress(ledger: seq<Entry>, generation: int): Progress {
    var at := LastProgress(ledger, generation, |ledger|);
    if at.None? then NO_PROGRESS else RestoreProgress(ledger[at.value].body, at.value)
  }

  /** `recover_from_ledger`; an invalid plan in the ledger makes it fail. */
  function Recover(ledger: seq<Entry>, generation: int): Result<Controller, Error> {
    var plan := RecoveredPlan(ledger, generation);
    var calls := RecallAll(ledger, generation, |ledger|);
    if plan.Err? then Err(plan.error)
    else if calls.Err? then Err(calls.error)
    else Ok(Controller(plan.value, RecoveredProgress(ledger, generation), calls.value))
  }

  class PlanController {
    const generation: int
    var plan: PlanState
    var progress: Progress
    var calls: map<string, Commit>
    var ledger: seq<Entry>

    function View(): System
      reads this
    {
      System(generation, Controller(plan, progress, calls), ledger)
    }

    constructor (generation: int, ledger: seq<Entry>)
      ensures View() == System(generation, Controller(NO_PLAN, NO_PROGRESS, map[]), ledger)
    {
      this.generation, this.ledger := generation, ledger;
      plan, progress, calls := NO_PLAN, NO_PROGRESS, map[];
    }

    /** The checks under the lock. */
    method Admit(call: string, mark: Fingerprint, forGeneration: int) returns (r: Result<bool, Error>)
      ensures r == Admission(View(), call, mark, forGeneration)
    {
      if call in calls {
        return if calls[call].mark != mark then Err(DifferentData) else Ok(false);
      }
      if forGeneration != generation {
        return Err(GenerationChanged);
      }
      return Ok(true);
    }

    method CommitItems(items: seq<PlanItem>, text: Option<string>, call: string)
      modifies this
      ensures View() == CommitPlan(old(View()), items, text, call)
    {
      var revision := plan.revision + 1;
      var event := |ledger|;
      ledger := ledger + [Entry(generation, PlanUpdated(revision, AsRaw(items), text, call))];
      plan := PlanState(revision, items, text, Some(event));
      calls := calls[call := Commit(OfPlan(items, text), revision)];
    }

    method UpdatePlan(raw: seq<RawItem>, explanation: Option<string>, call: string, forGeneration: int)
      returns (r: Result<bool, Error>)
      modifies this
      ensures (View(), r) == Update(old(View()), raw, explanation, call, forGeneration)
      ensures InStep(old(View())) ==> InStep(View())
    {
      ghost var before := View();
      UpdateKeepsStep(before, raw, explanation, call, forGeneration);
      var valid := ValidateItems(raw);
      if valid.Err? {
        return Err(valid.error);
      }
      var text := StripCut(explanation);
      r := Admit(call, OfPlan(valid.value, text), forGeneration);
      if r == Ok(true) {
        CommitItems(valid.value, text, call);
      }
    }

    method ReportProgress(phase: string, summary: string, next: Option<string>, call: string, forGeneration: int)
      returns (r: Result<bool, Error>)
      modifies this
      ensures (View(), r) == Report(old(View()), phase, summary, next, call, forGeneration)
      ensures InStep(old(View())) ==> InStep(View())
    {
      ghost var before := View();
      ReportKeepsStep(before, phase, summary, next, call, forGeneration);
      if !IsPhase(phase) {
        return Err(BadPhase);
      }
      var text := Strip(summary);
      if text == "" || |text| > MAX_TEXT_CHARS {
        return Err(BadSummary);
      }
      var following := StripCut(next);
      r := Admit(call, OfProgress(phase, text, following), forGeneration);
      if r == Ok(true) {
        CommitReport(phase, text, following, call);
      }
    }

    method CommitReport(phase: string, text: string, next: Option<string>, call: string)
      modifies this
      ensures View() == CommitProgress(old(View()), phase, text, next, call)
    {
      var revision := progress.revision + 1;
      var event := |ledger|;
      ledger := ledger + [Entry(generation, ProgressReported(revision, phase, text, next, call))];
      progress := Progress(phase, text, next, revision, Some(event));
      calls := calls[call := Commit(OfProgress(phase, text, next), revision)];
    }

    /** The first pass: the last plan and the last report of this generation. */
    method FindLast() returns (lastPlan: Option<nat>, lastProgress: Option<nat>)
      ensures lastPlan == LastPlan(ledger, generation, |ledger|)
      ensures lastProgress == LastProgress(ledger, generation, |ledger|)
    {
      lastPlan, lastProgress := None, None;
      for i := 0 to |ledger|
        invariant lastPlan == LastPlan(ledger, generation, i) && lastProgress == LastProgress(ledger, generation, i)
      {
        if ledger[i].generation == generation {
          if ledger[i].body.PlanUpdated? {
            lastPlan := Some(i);
          } else if ledger[i].body.ProgressReported? {
            lastProgress := Some(i);
          }
        }
      }
    }

    /** `restore` from the entries found. */
    method Restore(lastPlan: Option<nat>, lastProgress: Option<nat>) returns (failure: Option<Error>)
      requires lastPlan == LastPlan(ledger, generation, |ledger|)
      requires lastProgress == LastProgress(ledger, generation, |ledger|)
      modifies this`plan, this`progress, this`calls
      ensures failure.None? <==> RecoveredPlan(ledger, generation).Ok?
      ensures failure.None? ==>
        && RecoveredPlan(ledger, generation) == Ok(plan) && progress == RecoveredProgress(ledger, generation)
        && calls == map[]
    {
      if lastPlan.Some? {
        var body := ledger[lastPlan.value].body;
        var items := ValidateItems(body.items);
        if items.Err? {
          return Some(items.error);
        }
        plan := PlanState(body.revision, items.value, body.explanation, lastPlan);
      } else {
        plan := NO_PLAN;
      }
      if lastProgress.Some? {
        progress := RestoreProgress(ledger[lastProgress.value].body, lastProgress.value);
      } else {
        progress := NO_PROGRESS;
      }
      calls := map[];
      failure := None;
    }

    /** The second pass rebuilds the table. */
    method RecallCalls() returns (failure: Option<Error>)
      requires calls == map[]
      modifies this`calls
      ensures failure.None? <==> RecallAll(ledger, generation, |ledger|).Ok?
      ensures failure.None? ==> RecallAll(ledger, generation, |ledger|) == Ok(calls)
    {
      for i := 0 to |ledger|
        invariant RecallAll(ledger, generation, i) == Ok(calls)
      {
        var next := Recall(calls, ledger[i], generation);
        if next.Err? {
          RecallFails(ledger, generation, i + 1, |ledger|);
          return Some(next.error);
        }
        calls := next.value;
      }
      failure := None;
    }

    method RecoverFromLedger() returns (failure: Option<Error>)
      modifies this`plan, this`progress, this`calls
      ensures failure.None? <==> Recover(ledger, generation).Ok?
      ensures failure.None? ==> Recover(ledger, generation) == Ok(View().controller)
    {
      var lastPlan, lastProgress := FindLast();
      failure := Restore(lastPlan, lastProgress);
      if failure.None? {
        failure := RecallCalls();
      }
    }
  }

  lemma {:induction false} RecallFails(ledger: seq<Entry>, generation: int, m: nat, n: nat)
    requires m <= n <= |ledger| && RecallAll(ledger, generation, m).Err?
    ensures RecallAll(ledger, generation, n).Err?
  {
    if m < n {
      RecallFails(ledger, generation, m, n - 1);
    }
  }

  // ----- One more entry -----

  lemma {:induction false} LastPrefix(ledger: seq<Entry>, e: Entry, generation: int, n: nat)
    requires n <= |ledger|
    ensures LastPlan(ledger + [e], generation, n) == LastPlan(ledger, generation, n)
    ensures LastProgress(ledger + [e], generation, n) == LastProgress(ledger, generation, n)
  {
    if n > 0 {
      LastPrefix(ledger, e, generation, n - 1);
      assert (ledger + [e])[n - 1] == ledger[n - 1];
    }
  }

  lemma {:induction false} RecallPrefix(ledger: seq<Entry>, e: Entry, generation: int, n: nat)
    requires n <= |ledger|
    ensures RecallAll(ledger + [e], generation, n) == RecallAll(ledger, generation, n)
  {
    if n > 0 {
      RecallPrefix(ledger, e, generation, n - 1);
      assert (ledger + [e])[n - 1] == ledger[n - 1];
    }
  }

  predicate Carries(e: Entry, generation: int) {
    e.generation == generation && !e.body.Unrelated?
  }

  lemma PlanSnoc(ledger: seq<Entry>, e: Entry, generation: int)
    ensures FoundPlan(ledger + [e], generation)
            == if Carries(e, generation) && e.body.PlanUpdated? then Found(e.body, |ledger|)
               else FoundPlan(ledger, generation)
  {
    LastPrefix(ledger, e, generation, |ledger|);
    assert (ledger + [e])[|ledger|] == e;
  }

  lemma ProgressSnoc(ledger: seq<Entry>, e: Entry, generation: int)
    ensures if Carries(e, generation) && e.body.ProgressReported?
      then RecoveredProgress(ledger + [e], generation) == RestoreProgress(e.body, |ledger|)
      else RecoveredProgress(ledger + [e], generation) == RecoveredProgress(ledger, generation)
  {
    var longer := ledger + [e];
    LastPrefix(ledger, e, generation, |ledger|);
    assert longer[|ledger|] == e;
    var at := LastProgress(ledger, generation, |ledger|);
    if !(Carries(e, generation) && e.body.ProgressReported?) {
      assert LastProgress(longer, generation, |longer|) == at;
      if at.Some? {
        assert longer[at.value] == ledger[at.value];
      }
    }
  }

  /** The table a recovery rebuilds. */
  function Recalled(s: System): Result<map<string, Commit>, Error> {
    RecallAll(s.ledger, s.generation, |s.ledger|)
  }

  lemma RecalledSnoc(ledger: seq<Entry>, e: Entry, generation: int)
    requires RecallAll(ledger, generation, |ledger|).Ok?
    ensures RecallAll(ledger + [e], generation, |ledger| + 1)
            == Recall(RecallAll(ledger, generation, |ledger|).value, e, generation)
  {
    RecallPrefix(ledger, e, generation, |ledger|);
    assert (ledger + [e])[|ledger|] == e;
  }

  // ----- The explanation that recovery strips again -----

  /** The caller's side of it: the cut does not leave a space at the end. */
  predicate CutsClean(explanation: Option<string>) {
    var s := Strip(OrEmpty(explanation));
    |s| <= MAX_TEXT_CHARS || !IsSpace(s[MAX_TEXT_CHARS - 1])
  }

  lemma RestrippedIff(explanation: Option<string>)
    ensures OrNone(Strip(OrEmpty(StripCut(explanation)))) == StripCut(explanation) <==> CutsClean(explanation)
  {
    var s := Strip(OrEmpty(explanation));
    StripTrimmed(Cut(s));
  }

  // ----- All runs of one generation -----

  datatype Step =
    | Updates(raw: seq<RawItem>, explanation: Option<string>, call: string, generation: int)
    | Reports(phase: string, summary: string, next: Option<string>, call: string, generation: int)
    | Logs(entry: Entry)

  /** Other parts of the program append entries too, but no plan or report of this generation. */
  function Next(s: System, step: Step): System {
    match step
    case Updates(raw, explanation, call, generation) => Update(s, raw, explanation, call, generation).0
    case Reports(phase, summary, next, call, generation) => Report(s, phase, summary, next, call, generation).0
    case Logs(e) =>
      if Carries(e, s.generation) then s else s.(ledger := s.ledger + [e])
  }

  function Run(s: System, steps: seq<Step>): System {
    if steps == [] then s else Next(Run(s, steps[..|steps| - 1]), steps[|steps| - 1])
  }

  predicate Commits(s: System, step: Step) {
    match step
    case Updates(raw, explanation, call, generation) => Update(s, raw, explanation, call, generation).1 == Ok(true)
    case Reports(phase, summary, next, call, generation) =>
      Report(s, phase, summary, next, call, generation).1 == Ok(true)
    case Logs(_) => false
  }

  /** A call that recovery will know again. */
  predicate Recallable(step: Step) {
    match step
    case Updates(_, explanation, call, _) => call != "" && CutsClean(explanation)
    case Reports(_, _, _, call, _) => call != ""
    case Logs(_) => true
  }

  predicate AllRecallable(s: System, steps: seq<Step>) {
    steps == [] ||
    var front, last := steps[..|steps| - 1], steps[|steps| - 1];
    AllRecallable(s, front) && (Commits(Run(s, front), last) ==> Recallable(last))
  }

  /** A controller that has just recovered from its ledger, an empty one included. */
  predicate Begins(s: System) {
    Recover(s.ledger, s.generation) == Ok(s.controller)
  }

  /** The plan and the progress are those of the ledger; the rebuilt table knows no foreign call. */
  predicate InStep(s: System) {
    && RecoveredPlan(s.ledger, s.generation) == Ok(s.controller.plan)
    && RecoveredProgress(s.ledger, s.generation) == s.controller.progress
    && Recalled(s).Ok?
    && forall id :: id in Recalled(s).value ==> id in s.controller.calls
  }

  lemma CommitPlanInStep(s: System, items: seq<PlanItem>, explanation: Option<string>, call: string)
    requires InStep(s) && Sound(items) && call !in s.controller.calls
    ensures var t := CommitPlan(s, items, explanation, call);
      && InStep(t)
      && Recalled(t).value == if call == "" then Recalled(s).value
         else
           var again := OrNone(Strip(OrEmpty(explanation)));
           Recalled(s).value[call := Commit(OfPlan(items, again), t.controller.plan.revision)]
  {
    var t := CommitPlan(s, items, explanation, call);
    var e := t.ledger[|s.ledger|];
    SoundValidates(items);
    PlanSnoc(s.ledger, e, s.generation);
    ProgressSnoc(s.ledger, e, s.generation);
    RecalledSnoc(s.ledger, e, s.generation);
  }

  lemma CommitProgressInStep(s: System, phase: string, summary: string, next: Option<string>, call: string)
    requires InStep(s) && IsPhase(phase) && |summary| <= MAX_TEXT_CHARS && call !in s.controller.calls
    requires next.Some? ==> 0 < |next.value| <= MAX_TEXT_CHARS
    ensures var t := CommitProgress(s, phase, summary, next, call);
      && InStep(t)
      && Recalled(t).value == if call == "" then Recalled(s).value
         else Recalled(s).value[call := Commit(OfProgress(phase, summary, next), t.controller.progress.revision)]
  {
    var t := CommitProgress(s, phase, summary, next, call);
    var e := t.ledger[|s.ledger|];
    PlanSnoc(s.ledger, e, s.generation);
    ProgressSnoc(s.ledger, e, s.generation);
    RecalledSnoc(s.ledger, e, s.generation);
  }

  lemma LogRecalled(ledger: seq<Entry>, e: Entry, generation: int)
    requires !Carries(e, generation) && RecallAll(ledger, generation, |ledger|).Ok?
    ensures RecallAll(ledger + [e], generation, |ledger| + 1) == RecallAll(ledger, generation, |ledger|)
  {
    RecalledSnoc(ledger, e, generation);
  }

  lemma LogRecovered(ledger: seq<Entry>, e: Entry, generation: int)
    requires !Carries(e, generation)
    ensures FoundPlan(ledger + [e], generation) == FoundPlan(ledger, generation)
    ensures RecoveredProgress(ledger + [e], generation) == RecoveredProgress(ledger, generation)
  {
    PlanSnoc(ledger, e, generation);
    ProgressSnoc(ledger, e, generation);
  }

  lemma LogInStep(s: System, e: Entry)
    requires InStep(s) && !Carries(e, s.generation)
    ensures InStep(s.(ledger := s.ledger + [e])) && Recalled(s.(ledger := s.ledger + [e])) == Recalled(s)
  {
    LogRecovered(s.ledger, e, s.generation);
    LogRecalled(s.ledger, e, s.generation);
  }

  /** What a commit does to the two tables; `known` when the rebuilt one gets the same new row. */
  predicate Adds(s: System, t: System, call: string, known: bool)
    requires InStep(s) && InStep(t)
  {
    && OneMore(s.controller.calls, t.controller.calls, call) && call in t.controller.calls
    && OneMore(Recalled(s).value, Recalled(t).value, call)
    && (known <==> call in Recalled(t).value && Recalled(t).value[call] == t.controller.calls[call])
  }

  /** At most the row of `call` is new. */
  predicate OneMore(m: map<string, Commit>, m': map<string, Commit>, call: string) {
    call !in m && m' - {call} == m
  }

  lemma PutAndTake(m: map<string, Commit>, call: string, row: Commit)
    requires call !in m
    ensures OneMore(m, m[call := row], call) && OneMore(m, m, call)
  {
    assert m[call := row] - {call} == m;
    assert m - {call} == m;
  }

  /** The tables alone, on values. */
  lemma RowsAdd(live: map<string, Commit>, rebuilt: map<string, Commit>, call: string, a: Commit, b: Commit)
    requires call !in live && call !in rebuilt
    ensures var rebuilt' := if call == "" then rebuilt else rebuilt[call := b];
      && OneMore(live, live[call := a], call) && OneMore(rebuilt, rebuilt', call)
      && (call in rebuilt' && rebuilt'[call] == a <==> call != "" && a == b)
  {
    PutAndTake(live, call, a);
    PutAndTake(rebuilt, call, b);
  }

  lemma CommitAddsRow(s: System, items: seq<PlanItem>, text: Option<string>, again: Option<string>, call: string)
    requires InStep(s) && Sound(items) && call !in s.controller.calls && again == OrNone(Strip(OrEmpty(text)))
    ensures InStep(CommitPlan(s, items, text, call))
    ensures Adds(s, CommitPlan(s, items, text, call), call, call != "" && again == text)
  {
    var revision := s.controller.plan.revision + 1;
    CommitPlanInStep(s, items, text, call);
    RowsAdd(s.controller.calls, Recalled(s).value, call,
            Commit(OfPlan(items, text), revision), Commit(OfPlan(items, again), revision));
  }

  lemma CommitAdds(s: System, items: seq<PlanItem>, explanation: Option<string>, call: string)
    requires InStep(s) && Sound(items) && call !in s.controller.calls
    ensures var t := CommitPlan(s, items, StripCut(explanation), call);
      InStep(t) && Adds(s, t, call, call != "" && CutsClean(explanation))
  {
    var text := StripCut(explanation);
    RestrippedIff(explanation);
    CommitAddsRow(s, items, text, OrNone(Strip(OrEmpty(text))), call);
  }

  lemma UpdateAdds(s: System, raw: seq<RawItem>, explanation: Option<string>, call: string, generation: int)
    requires InStep(s) && Update(s, raw, explanation, call, generation).1 == Ok(true)
    ensures var t := Update(s, raw, explanation, call, generation).0;
      InStep(t) && Adds(s, t, call, call != "" && CutsClean(explanation))
  {
    ValidatedIsSound(raw);
    CommitAdds(s, Validate(raw).value, explanation, call);
  }

  lemma ReportAdds(s: System, phase: string, summary: string, next: Option<string>, call: string, generation: int)
    requires InStep(s) && Report(s, phase, summary, next, call, generation).1 == Ok(true)
    ensures var t := Report(s, phase, summary, next, call, generation).0;
      InStep(t) && Adds(s, t, call, call != "")
  {
    var row := Commit(OfProgress(phase, Strip(summary), StripCut(next)), s.controller.progress.revision + 1);
    CommitProgressInStep(s, phase, Strip(summary), StripCut(next), call);
    PutAndTake(s.controller.calls, call, row);
    PutAndTake(Recalled(s).value, call, row);
  }

  /** The rows that a committed update leaves. */
  lemma UpdateRow(s: System, raw: seq<RawItem>, explanation: Option<string>, call: string, generation: int)
    requires InStep(s) && Update(s, raw, explanation, call, generation).1 == Ok(true)
    ensures var t := Update(s, raw, explanation, call, generation).0;
      && InStep(t) && call in t.controller.calls
      && t.controller.calls[call].mark == OfPlan(Validate(raw).value, StripCut(explanation))
      && (call in Recalled(t).value <==> call != "")
      && (call in Recalled(t).value ==>
            (Recalled(t).value[call].mark == OfPlan(Validate(raw).value, StripCut(explanation))
             <==> CutsClean(explanation)))
  {
    ValidatedIsSound(raw);
    CommitPlanInStep(s, Validate(raw).value, StripCut(explanation), call);
    RestrippedIff(explanation);
  }

  /** A step that commits adds one row; any other leaves both tables alone. */
  lemma StepEffect(s: System, step: Step)
    requires InStep(s)
    ensures InStep(Next(s, step))
    ensures Commits(s, step) ==> !step.Logs? && Adds(s, Next(s, step), step.call, Recallable(step))
    ensures !Commits(s, step) ==>
      Next(s, step).controller == s.controller && Recalled(Next(s, step)) == Recalled(s)
  {
    match step
    case Updates(raw, explanation, call, generation) =>
      if Commits(s, step) {
        UpdateAdds(s, raw, explanation, call, generation);
      }
    case Reports(phase, summary, next, call, generation) =>
      if Commits(s, step) {
        ReportAdds(s, phase, summary, next, call, generation);
      }
    case Logs(e) =>
      if !Carries(e, s.generation) {
        LogInStep(s, e);
      }
  }

  lemma UpdateKeepsStep(s: System, raw: seq<RawItem>, explanation: Option<string>, call: string, generation: int)
    ensures InStep(s) ==> InStep(Update(s, raw, explanation, call, generation).0)
  {
    if InStep(s) {
      StepEffect(s, Updates(raw, explanation, call, generation));
    }
  }

  lemma ReportKeepsStep(s: System, phase: string, summary: string, next: Option<string>, call: string, generation: int)
    ensures InStep(s) ==> InStep(Report(s, phase, summary, next, call, generation).0)
  {
    if InStep(s) {
      StepEffect(s, Reports(phase, summary, next, call, generation));
    }
  }

  /** The rebuilt table is the live one. */
  predicate SameCalls(s: System) {
    Recalled(s) == Ok(s.controller.calls)
  }

  lemma AddsAgree(s: System, t: System, call: string, known: bool)
    requires InStep(s) && InStep(t) && Adds(s, t, call, known)
    ensures SameCalls(t) <==> SameCalls(s) && known
  {
    var (live', rebuilt') := (t.controller.calls, Recalled(t).value);
    if SameCalls(s) && known {
      assert live' == (live' - {call})[call := live'[call]];
      assert rebuilt' == (rebuilt' - {call})[call := rebuilt'[call]];
    }
  }

  /**
    Over every run, recovery rebuilds exactly the plan and the progress; and it rebuilds
    exactly the table of calls if and only if every committed call was recallable.
   */
  lemma {:induction false} RecoveryExact(s: System, steps: seq<Step>)
    requires Begins(s)
    ensures InStep(Run(s, steps))
    ensures SameCalls(Run(s, steps)) <==> AllRecallable(s, steps)
  {
    if steps != [] {
      var front, last := steps[..|steps| - 1], steps[|steps| - 1];
      RecoveryExact(s, front);
      StepEffect(Run(s, front), last);
      if Commits(Run(s, front), last) {
        AddsAgree(Run(s, front), Run(s, steps), last.call, Recallable(last));
      }
    }
  }

  /** The same in terms of recovery itself. */
  lemma RecoverIsLive(s: System, steps: seq<Step>)
    requires Begins(s)
    ensures var t := Run(s, steps); var r := Recover(t.ledger, t.generation);
      && r.Ok? && r.value.plan == t.controller.plan && r.value.progress == t.controller.progress
      && (r.value == t.controller <==> AllRecallable(s, steps))
  {
    RecoveryExact(s, steps);
  }

  // ----- Replays -----

  /** Once committed, a call keeps its row in both tables. */
  lemma {:induction false} RowsStay(s: System, steps: seq<Step>, call: string)
    requires InStep(s) && call in s.controller.calls
    ensures var t := Run(s, steps);
      && InStep(t) && call in t.controller.calls && t.controller.calls[call] == s.controller.calls[call]
      && (call in Recalled(t).value <==> call in Recalled(s).value)
      && (call in Recalled(t).value ==> Recalled(t).value[call] == Recalled(s).value[call])
  {
    if steps != [] {
      RowsStay(s, steps[..|steps| - 1], call);
      StepEffect(Run(s, steps[..|steps| - 1]), steps[|steps| - 1]);
    }
  }

  /** What a controller recovered from the ledger would be. */
  function Recovered(s: System): System
    requires Recover(s.ledger, s.generation).Ok?
  {
    s.(controller := Recover(s.ledger, s.generation).value)
  }

  /** A call made again, in whatever generation. */
  function Redo(s: System, step: Step, generation: int): (System, Result<bool, Error>)
    requires !step.Logs?
  {
    match step
    case Updates(raw, explanation, call, _) => Update(s, raw, explanation, call, generation)
    case Reports(phase, summary, next, call, _) => Report(s, phase, summary, next, call, generation)
  }

  /**
    Replaying any committed call, update or report, changes nothing on the live
    controller, however much later; after a recovery the same holds if and only if the
    call was recallable.
   */
  lemma ReplayChangesNothing(s: System, step: Step, later: seq<Step>, generation: int)
    requires InStep(s) && !step.Logs? && Commits(s, step)
    ensures var t := Run(Next(s, step), later);
      && Redo(t, step, generation) == (t, Ok(false))
      && Recover(t.ledger, t.generation).Ok?
      && (Redo(Recovered(t), step, generation) == (Recovered(t), Ok(false)) <==> Recallable(step))
  {
    match step
    case Updates(raw, explanation, call, g) => ReplayedUpdate(s, raw, explanation, call, g, later, generation);
    case Reports(phase, summary, next, call, g) => ReplayedReport(s, phase, summary, next, call, g, later, generation);
  }

  lemma ReplayedUpdate(s: System, raw: seq<RawItem>, explanation: Option<string>, call: string, g: int,
                       later: seq<Step>, generation: int)
    requires InStep(s) && Update(s, raw, explanation, call, g).1 == Ok(true)
    ensures var t := Run(Update(s, raw, explanation, call, g).0, later);
      && Update(t, raw, explanation, call, generation) == (t, Ok(false))
      && Recover(t.ledger, t.generation).Ok?
      && (Update(Recovered(t), raw, explanation, call, generation) == (Recovered(t), Ok(false))
          <==> call != "" && CutsClean(explanation))
  {
    UpdateRow(s, raw, explanation, call, g);
    RowsStay(Update(s, raw, explanation, call, g).0, later, call);
  }

  lemma ReplayedReport(s: System, phase: string, summary: string, next: Option<string>, call: string, g: int,
                       later: seq<Step>, generation: int)
    requires InStep(s) && Report(s, phase, summary, next, call, g).1 == Ok(true)
    ensures var t := Run(Report(s, phase, summary, next, call, g).0, later);
      && Report(t, phase, summary, next, call, generation) == (t, Ok(false))
      && Recover(t.ledger, t.generation).Ok?
      && (Report(Recovered(t), phase, summary, next, call, generation) == (Recovered(t), Ok(false)) <==> call != "")
  {
    ReportRow(s, phase, summary, next, call, g);
    RowsStay(Report(s, phase, summary, next, call, g).0, later, call);
  }

  /** The rows that a committed report leaves. */
  lemma ReportRow(s: System, phase: string, summary: string, next: Option<string>, call: string, generation: int)
    requires InStep(s) && Report(s, phase, summary, next, call, generation).1 == Ok(true)
    ensures var t := Report(s, phase, summary, next, call, generation).0;
      var mark := OfProgress(phase, Strip(summary), StripCut(next));
      && InStep(t) && call in t.controller.calls && t.controller.calls[call].mark == mark
      && (call in Recalled(t).value <==> call != "")
      && (call in Recalled(t).value ==> Recalled(t).value[call].mark == mark)
  {
    CommitProgressInStep(s, phase, Strip(summary), StripCut(next), call);
  }

  /** 499 letters, a space and a letter: the cut ends in the space. */
  function Spaced(): string {
    seq(499, _ => 'a') + " b"
  }

  lemma SpacedIsCut()
    ensures !CutsClean(Some(Spaced()))
  {
    var text := Spaced();
    assert text[0] == 'a' && text[499] == ' ' && text[500] == 'b';
    StripTrimmed(text);
  }

  lemma EmptyPlanValidates()
    ensures Validate([]) == Ok([])
  {
    assert AsRaw([]) == [];
    SoundValidates([]);
  }

  lemma CutCanEndInSpace(s: System)
    requires Begins(s) && "call" !in s.controller.calls
    ensures !SameCalls(Run(s, [Updates([], Some(Spaced()), "call", s.generation)]))
  {
    var step := Updates([], Some(Spaced()), "call", s.generation);
    var steps := [step];
    SpacedIsCut();
    EmptyPlanValidates();
    assert steps[..0] == [] && Run(s, []) == s;
    RecoveryExact(s, steps);
  }

  /** A call with an empty id is committed but not recalled. */
  lemma EmptyIdIsForgotten(s: System)
    requires Begins(s) && "" !in s.controller.calls
    ensures !SameCalls(Run(s, [Updates([], None, "", s.generation)]))
  {
    var steps := [Updates([], None, "", s.generation)];
    EmptyPlanValidates();
    assert steps[..0] == [] && Run(s, []) == s;
    RecoveryExact(s, steps);
  }

  // ----- The plan is that of the last update accepted -----

  /** The call asks for something that can be committed. */
  predicate Valid(step: Step) {
    match step
    case Updates(raw, _, _, _) => Validate(raw).Ok?
    case Reports(phase, summary, _, _, _) =>
      && phase in ["investigating", "implementing", "verifying", "ready", "blocked"]
      && 0 < |Strip(summary)| <= MAX_TEXT_CHARS
    case Logs(_) => false
  }

  /** What a call asks to commit. */
  function Asks(step: Step): Fingerprint
    requires Valid(step)
  {
    match step
    case Updates(raw, explanation, _, _) => OfPlan(Validate(raw).value, StripCut(explanation))
    case Reports(phase, summary, next, _, _) => OfProgress(phase, Strip(summary), StripCut(next))
  }

  /** A call is accepted if it is valid, made in this generation and the first one with its id. */
  predicate Accepted(s: System, front: seq<Step>, step: Step)
    decreases |front|, 1
  {
    Valid(step) && step.generation == s.generation && !Used(s, front, step.call)
  }

  /** The id belongs to a call accepted before. */
  predicate Used(s: System, steps: seq<Step>, call: string)
    decreases |steps|, 0
  {
    if steps == [] then call in s.controller.calls
    else
      var front, last := steps[..|steps| - 1], steps[|steps| - 1];
      Used(s, front, call) || (Accepted(s, front, last) && last.call == call)
  }

  /** The plan of the last accepted update, numbered by their count. */
  function PlanAfter(s: System, steps: seq<Step>): PlanState {
    if steps == [] then s.controller.plan
    else
      var front, last := steps[..|steps| - 1], steps[|steps| - 1];
      if last.Updates? && Accepted(s, front, last) then
        PlanState(PlanAfter(s, front).revision + 1, Validate(last.raw).value, StripCut(last.explanation),
                  Some(|Run(s, front).ledger|))
      else PlanAfter(s, front)
  }

  /** The progress of the last accepted report, numbered by their count. */
  function ProgressAfter(s: System, steps: seq<Step>): Progress {
    if steps == [] then s.controller.progress
    else
      var front, last := steps[..|steps| - 1], steps[|steps| - 1];
      if last.Reports? && Accepted(s, front, last) then
        Progress(last.phase, Strip(last.summary), StripCut(last.next), ProgressAfter(s, front).revision + 1,
                 Some(|Run(s, front).ledger|))
      else ProgressAfter(s, front)
  }

  /** What a call is answered, by what is known of its id. */
  function Answer(s: System, step: Step): Result<bool, Error>
    requires !step.Logs?
  {
    match step
    case Updates(raw, explanation, call, generation) => Update(s, raw, explanation, call, generation).1
    case Reports(phase, summary, next, call, generation) => Report(s, phase, summary, next, call, generation).1
  }

  /** What is known after a valid call: committed if new and of this generation, else answered without any effect. */
  predicate Answered(s: System, step: Step, t: System, answer: Result<bool, Error>)
    requires Valid(step)
  {
    var calls := s.controller.calls;
    if step.call in calls then
      t == s && answer == if calls[step.call].mark == Asks(step) then Ok(false) else Err(DifferentData)
    else if step.generation != s.generation then t == s && answer == Err(GenerationChanged)
    else
      && answer == Ok(true) && t.generation == s.generation
      && t.controller.calls.Keys == calls.Keys + {step.call} && t.controller.calls[step.call].mark == Asks(step)
  }

  /** An update with validated items, as one choice. */
  lemma UpdateIs(s: System, step: Step, items: seq<PlanItem>)
    requires step.Updates? && Validate(step.raw) == Ok(items)
    ensures var a := Admission(s, step.call, OfPlan(items, StripCut(step.explanation)), step.generation);
      && Answer(s, step) == a
      && Next(s, step) == if a == Ok(true) then CommitPlan(s, items, StripCut(step.explanation), step.call) else s
  {
  }

  lemma CommitPlanKeys(s: System, items: seq<PlanItem>, text: Option<string>, call: string)
    ensures var t := CommitPlan(s, items, text, call);
      && t.generation == s.generation && t.controller.progress == s.controller.progress
      && t.controller.calls.Keys == s.controller.calls.Keys + {call}
      && t.controller.calls[call].mark == OfPlan(items, text)
      && t.controller.plan == PlanState(s.controller.plan.revision + 1, items, text, Some(|s.ledger|))
  {
  }

  lemma UpdateAnswered(s: System, step: Step)
    requires Valid(step) && step.Updates?
    ensures Answered(s, step, Next(s, step), Answer(s, step))
    ensures Answer(s, step) == Ok(true) ==>
      && Next(s, step).controller.progress == s.controller.progress
      && Next(s, step).controller.plan
         == PlanState(s.controller.plan.revision + 1, Validate(step.raw).value, StripCut(step.explanation),
                      Some(|s.ledger|))
  {
    var items := Validate(step.raw).value;
    UpdateIs(s, step, items);
    CommitPlanKeys(s, items, StripCut(step.explanation), step.call);
    assert Asks(step) == OfPlan(items, StripCut(step.explanation));
  }

  lemma ReportAnswered(s: System, step: Step)
    requires Valid(step) && step.Reports?
    ensures Answered(s, step, Next(s, step), Answer(s, step))
    ensures Answer(s, step) == Ok(true) ==>
      && Next(s, step).controller.plan == s.controller.plan
      && Next(s, step).controller.progress
         == Progress(step.phase, Strip(step.summary), StripCut(step.next), s.controller.progress.revision + 1,
                     Some(|s.ledger|))
  {
  }

  lemma CallAnswered(s: System, step: Step)
    requires Valid(step)
    ensures Answered(s, step, Next(s, step), Answer(s, step))
    ensures Commits(s, step) <==> Answer(s, step) == Ok(true)
  {
    if step.Updates? {
      UpdateAnswered(s, step);
    } else {
      ReportAnswered(s, step);
    }
  }

  /** The controller is what the log of calls says. */
  ghost predicate AsLogged(s: System, steps: seq<Step>, t: System) {
    && t.generation == s.generation
    && t.controller.plan == PlanAfter(s, steps) && t.controller.progress == ProgressAfter(s, steps)
    && forall call :: call in t.controller.calls <==> Used(s, steps, call)
  }

  lemma LogSnoc(s: System, front: seq<Step>, last: Step)
    ensures var steps := front + [last];
      && PlanAfter(s, steps) ==
         (if last.Updates? && Accepted(s, front, last) then
            PlanState(PlanAfter(s, front).revision + 1, Validate(last.raw).value, StripCut(last.explanation),
                      Some(|Run(s, front).ledger|))
          else PlanAfter(s, front))
      && ProgressAfter(s, steps) ==
         (if last.Reports? && Accepted(s, front, last) then
            Progress(last.phase, Strip(last.summary), StripCut(last.next), ProgressAfter(s, front).revision + 1,
                     Some(|Run(s, front).ledger|))
          else ProgressAfter(s, front))
  {
    assert (front + [last])[..|front|] == front;
  }

  lemma UsedSnoc(s: System, front: seq<Step>, last: Step)
    ensures forall call ::
      Used(s, front + [last], call) <==> Used(s, front, call) || (Accepted(s, front, last) && last.call == call)
  {
    assert (front + [last])[..|front|] == front;
  }

  lemma LoggedNext(s: System, front: seq<Step>, last: Step, m: System)
    requires AsLogged(s, front, m) && m == Run(s, front)
    ensures AsLogged(s, front + [last], Next(m, last))
  {
    LogSnoc(s, front, last);
    UsedSnoc(s, front, last);
    if !Valid(last) {
      InvalidChangesNothing(m, last);
    } else if last.Updates? {
      UpdateAnswered(m, last);
    } else {
      ReportAnswered(m, last);
    }
  }

  /**
    In every run exactly the accepted calls are committed: the plan is that of the last
    accepted update, the progress that of the last accepted report, each numbered by their
    count, and the table knows exactly the ids used. A call of another generation commits nothing.
   */
  lemma {:induction false} OnlyAcceptedCommitted(s: System, steps: seq<Step>)
    ensures AsLogged(s, steps, Run(s, steps))
  {
    if steps != [] {
      var front, last := steps[..|steps| - 1], steps[|steps| - 1];
      assert steps == front + [last];
      OnlyAcceptedCommitted(s, front);
      LoggedNext(s, front, last, Run(s, front));
    }
  }

  lemma InvalidChangesNothing(s: System, step: Step)
    requires !Valid(step)
    ensures Next(s, step).generation == s.generation && Next(s, step).controller == s.controller
    ensures !step.Logs? ==> Next(s, step) == s && Answer(s, step).Err?
  {
  }

  /** An id once committed answers other data with an error, and changes nothing, however much later. */
  lemma OtherDataRefused(s: System, step: Step, later: seq<Step>, other: Step)
    requires InStep(s) && Commits(s, step) && Valid(step) && Valid(other)
    requires other.call == step.call && Asks(other) != Asks(step)
    ensures var t := Run(Next(s, step), later);
      Next(t, other) == t && Answer(t, other) == Err(DifferentData)
  {
    CallAnswered(s, step);
    StepEffect(s, step);
    RowsStay(Next(s, step), later, step.call);
    CallAnswered(Run(Next(s, step), later), other);
  }
}
