/**
  Checkpoints of unfinished output (reuleauxcoder/domain/output_journal.py).

  Streamed text is buffered per stream and written to the ledger as checkpoints;
  `interrupted_output` folds the checkpoints of the streams that no committed message
  acknowledged. `Told` is what was really streamed, kept without looking at the buffers.
 */
module OutputJournal {
  import opened Prelude

  datatype Kind = Response | Reasoning | Tool

  datatype Stream = Stream(
    id: nat, kind: Kind, call: Option<string>, name: string, parts: seq<string>, replace: bool)

  /** Ledger records; a position in the ledger stands for the record's sequence number. */
  datatype Record =
    | Checkpoint(id: nat, kind: Kind, name: string, text: string, replace: bool)
    | Committed(ids: seq<nat>)
    | Other

  datatype Journal = Journal(
    streams: seq<Stream>, pendingChars: int, timer: Option<nat>,
    nextTimer: nat, nextId: nat, ledger: seq<Record>)

  const FLUSH_CHARS := 65536

  function Concat(parts: seq<string>): string {
    if parts == [] then "" else Concat(parts[..|parts| - 1]) + parts[|parts| - 1]
  }

  lemma ConcatSnoc(parts: seq<string>, text: string)
    ensures Concat(parts + [text]) == Concat(parts) + text
  {
    assert (parts + [text])[..|parts|] == parts;
  }

  // ----- Flushing -----

  function CheckpointOf(s: Stream): seq<Record> {
    if s.parts == [] then [] else [Checkpoint(s.id, s.kind, s.name, Concat(s.parts), s.replace)]
  }

  /** The ledger once the first `n` streams are written out. */
  function Written(ledger: seq<Record>, streams: seq<Stream>, n: nat): seq<Record>
    requires n <= |streams|
  {
    if n == 0 then ledger else Written(ledger, streams, n - 1) + CheckpointOf(streams[n - 1])
  }

  function Emptied(s: Stream): Stream {
    if s.parts == [] then s else s.(parts := [], replace := false)
  }

  function EmptiedAll(streams: seq<Stream>): (r: seq<Stream>)
    ensures |r| == |streams| && forall k :: 0 <= k < |r| ==> r[k] == Emptied(streams[k])
  {
    seq(|streams|, k requires 0 <= k < |streams| => Emptied(streams[k]))
  }

  /** All buffered characters of the first `n` streams. */
  function PendingLength(streams: seq<Stream>, n: nat): nat
    requires n <= |streams|
  {
    if n == 0 then 0 else PendingLength(streams, n - 1) + |Concat(streams[n - 1].parts)|
  }

  function Flush(j: Journal): Journal {
    j.(streams := EmptiedAll(j.streams),
       pendingChars := j.pendingChars - PendingLength(j.streams, |j.streams|),
       timer := None,
       ledger := Written(j.ledger, j.streams, |j.streams|))
  }

  // ----- Recording -----

  predicate HasKey(s: Stream, kind: Kind, call: Option<string>) {
    s.kind == kind && s.call == call
  }

  function Find(streams: seq<Stream>, kind: Kind, call: Option<string>, from: nat): (k: nat)
    requires from <= |streams|
    ensures from <= k <= |streams| && (k < |streams| ==> HasKey(streams[k], kind, call))
    ensures forall i :: from <= i < k ==> !HasKey(streams[i], kind, call)
    decreases |streams| - from
  {
    if from == |streams| || HasKey(streams[from], kind, call) then from else Find(streams, kind, call, from + 1)
  }

  /** The stream a text belongs to exists. */
  function Opened(j: Journal, kind: Kind, call: Option<string>, name: string): Journal {
    if Find(j.streams, kind, call, 0) < |j.streams| then j
    else j.(streams := j.streams + [Stream(j.nextId, kind, call, name, [], false)], nextId := j.nextId + 1)
  }

  /** Stream `k` takes the text, in place of all it had when the text is final. */
  function Taken(j: Journal, k: nat, text: string, final: bool): Journal
    requires k < |j.streams|
  {
    var s := j.streams[k];
    j.(streams := j.streams[k := if final then s.(parts := [text], replace := true) else s.(parts := s.parts + [text])],
       pendingChars := j.pendingChars - (if final then |Concat(s.parts)| else 0) + |text|)
  }

  /** `Opened` and `Taken` together. */
  function Taking(j: Journal, kind: Kind, call: Option<string>, name: string, text: string, final: bool): Journal {
    Taken(Opened(j, kind, call, name), Find(j.streams, kind, call, 0), text, final)
  }

  function Scheduled(j: Journal): Journal {
    if j.timer.None? then j.(timer := Some(j.nextTimer), nextTimer := j.nextTimer + 1) else j
  }

  function RecordText(j: Journal, kind: Kind, call: Option<string>, name: string, text: string, final: bool): Journal {
    if text == "" && !final then j
    else
      var t := Taking(j, kind, call, name, text, final);
      if final || t.pendingChars >= FLUSH_CHARS then Flush(t) else Scheduled(t)
  }

  // ----- Streams that leave -----

  datatype Role = User | Assistant | ToolResult(call: Option<string>)

  predicate Acknowledges(role: Role, s: Stream) {
    match role
    case User => false
    case Assistant => !s.kind.Tool?
    case ToolResult(call) => s.kind.Tool? && s.call == call
  }

  datatype Selector = Acknowledged(role: Role) | Unacknowledged(role: Role) | Tools | Nothing

  predicate Picks(sel: Selector, s: Stream) {
    match sel
    case Acknowledged(role) => Acknowledges(role, s)
    case Unacknowledged(role) => !Acknowledges(role, s)
    case Tools => s.kind.Tool?
    case Nothing => false
  }

  function Select(streams: seq<Stream>, sel: Selector, n: nat): seq<Stream>
    requires n <= |streams|
  {
    if n == 0 then []
    else Select(streams, sel, n - 1) + (if Picks(sel, streams[n - 1]) then [streams[n - 1]] else [])
  }

  function Only(j: Journal, sel: Selector): Journal {
    j.(streams := Select(j.streams, sel, |j.streams|))
  }

  function Ids(streams: seq<Stream>): (r: seq<nat>)
    ensures |r| == |streams| && forall k :: 0 <= k < |r| ==> r[k] == streams[k].id
  {
    seq(|streams|, k requires 0 <= k < |streams| => streams[k].id)
  }

  function MatchedIds(j: Journal, role: Role): seq<nat> {
    Ids(Select(j.streams, Acknowledged(role), |j.streams|))
  }

  /** `commit` around the message: flush, write the message with its acknowledgements, forget the streams. */
  function Commit(j: Journal, role: Role): Journal {
    var f := Flush(j);
    Only(f.(ledger := f.ledger + [Committed(MatchedIds(j, role))]), Unacknowledged(role))
  }

  // ----- The journal itself -----

  class OutputJournal {
    var streams: seq<Stream>
    var pendingChars: int
    var timer: Option<nat>
    var nextTimer: nat
    var nextId: nat
    var ledger: seq<Record>

    function View(): Journal
      reads this
    {
      Journal(streams, pendingChars, timer, nextTimer, nextId, ledger)
    }

    constructor (history: seq<Record>, id: nat)
      ensures View() == Journal([], 0, None, 0, id, history)
    {
      streams, pendingChars, timer, nextTimer, nextId, ledger := [], 0, None, 0, id, history;
    }

    /** `_flush_locked`. */
    method FlushAll()
      modifies this
      ensures View() == Flush(old(View()))
    {
      ghost var before := View();
      timer := None;
      for i := 0 to |streams|
        invariant |streams| == |before.streams|
        invariant forall k :: 0 <= k < i ==> streams[k] == Emptied(before.streams[k])
        invariant forall k :: i <= k < |streams| ==> streams[k] == before.streams[k]
        invariant pendingChars == before.pendingChars - PendingLength(before.streams, i)
        invariant ledger == Written(before.ledger, before.streams, i)
        invariant timer == None && nextTimer == before.nextTimer && nextId == before.nextId
      {
        var s := streams[i];
        if s.parts != [] {
          var text := Concat(s.parts);
          ledger := ledger + [Checkpoint(s.id, s.kind, s.name, text, s.replace)];
          pendingChars := pendingChars - |text|;
          streams := streams[i := s.(parts := [], replace := false)];
        }
      }
      assert streams == EmptiedAll(before.streams);
    }

    /** Stream `k` takes a text. */
    method Take(k: nat, text: string, final: bool)
      requires k < |streams|
      modifies this`streams, this`pendingChars
      ensures View() == Taken(old(View()), k, text, final)
    {
      var s := streams[k];
      if final {
        pendingChars := pendingChars - |Concat(s.parts)|;
        s := s.(parts := [], replace := true);
      }
      assert [] + [text] == [text];
      streams := streams[k := s.(parts := s.parts + [text])];
      pendingChars := pendingChars + |text|;
    }

    /** The stream of this kind and call, a new one if there is none. */
    method Open(kind: Kind, call: Option<string>, name: string) returns (k: nat)
      modifies this`streams, this`nextId
      ensures k == Find(old(streams), kind, call, 0) && k < |streams|
      ensures View() == Opened(old(View()), kind, call, name)
    {
      k := Find(streams, kind, call, 0);
      if k == |streams| {
        streams := streams + [Stream(nextId, kind, call, name, [], false)];
        nextId := nextId + 1;
      }
    }

    method Schedule()
      modifies this`timer, this`nextTimer
      ensures View() == Scheduled(old(View()))
    {
      if timer.None? {
        timer := Some(nextTimer);
        nextTimer := nextTimer + 1;
      }
    }

    /** The part of `record` that takes text; `final` for the end of a tool call. */
    method RecordEvent(kind: Kind, call: Option<string>, name: string, text: string, final: bool)
      modifies this
      ensures View() == RecordText(old(View()), kind, call, name, text, final)
    {
      if text == "" && !final {
        return;
      }
      var k := Open(kind, call, name);
      Take(k, text, final);
      if final || pendingChars >= FLUSH_CHARS {
        FlushAll();
      } else {
        Schedule();
      }
    }

    /** `_flush_scheduled`: a timer that is no longer the current one does nothing. */
    method FlushScheduled(fired: nat)
      modifies this
      ensures View() == if old(timer) == Some(fired) then Flush(old(View())) else old(View())
    {
      if timer == Some(fired) {
        FlushAll();
      }
    }

    /** Keep the streams a selector picks. */
    method Keep(sel: Selector)
      modifies this`streams
      ensures View() == Only(old(View()), sel)
    {
      var kept: seq<Stream> := [];
      for i := 0 to |streams|
        invariant kept == Select(streams, sel, i)
      {
        if Picks(sel, streams[i]) {
          kept := kept + [streams[i]];
        }
      }
      streams := kept;
    }

    /** `commit` around a message. */
    method CommitMessage(role: Role)
      modifies this
      ensures View() == Commit(old(View()), role)
    {
      var ids: seq<nat> := [];
      for i := 0 to |streams|
        invariant ids == Ids(Select(streams, Acknowledged(role), i))
      {
        var s := streams[i];
        if (role.Assistant? && s.kind != Tool) || (role.ToolResult? && s.kind == Tool && s.call == role.call) {
          ids := ids + [s.id];
        }
      }
      FlushAll();
      ledger := ledger + [Committed(ids)];
      Keep(Unacknowledged(role));
    }

    method Close()
      modifies this
      ensures View() == Only(Flush(old(View())), Nothing)
    {
      FlushAll();
      Keep(Nothing);
    }
  }

  // ----- Reading the ledger back -----

  function Apply(text: string, e: Record, id: nat): string {
    if e.Checkpoint? && e.id == id then (if e.replace then "" else text) + e.text else text
  }

  /** A stream's text as its first `n` checkpoints tell it. */
  function Folded(ledger: seq<Record>, n: nat, id: nat): string
    requires n <= |ledger|
  {
    if n == 0 then "" else Apply(Folded(ledger, n - 1, id), ledger[n - 1], id)
  }

  ghost predicate Acked(ledger: seq<Record>, id: nat) {
    exists k :: 0 <= k < |ledger| && ledger[k].Committed? && id in ledger[k].ids
  }

  predicate FirstAt(ledger: seq<Record>, at: nat) {
    && at < |ledger| && ledger[at].Checkpoint?
    && forall k :: 0 <= k < at ==> !(ledger[k].Checkpoint? && ledger[k].id == ledger[at].id)
  }

  function Label(kind: Kind, name: string): string {
    (match kind case Response => "response" case Reasoning => "reasoning" case Tool => "tool")
    + (if name == "" then "" else " / " + name)
  }

  datatype Recovered = Recovered(at: nat, title: string, text: string)

  /**
    One item for each unacknowledged stream with a checkpoint, placed and labelled by its
    first checkpoint, in that order.
   */
  ghost predicate IsRecovery(ledger: seq<Record>, r: seq<Recovered>) {
    && (forall k :: 0 <= k < |r| ==>
          && FirstAt(ledger, r[k].at) && !Acked(ledger, ledger[r[k].at].id)
          && r[k].title == Label(ledger[r[k].at].kind, ledger[r[k].at].name)
          && r[k].text == Folded(ledger, |ledger|, ledger[r[k].at].id))
    && (forall j, k :: 0 <= j < k < |r| ==> r[j].at < r[k].at)
    && (forall at :: 0 <= at < |ledger| && FirstAt(ledger, at) && !Acked(ledger, ledger[at].id) ==>
          exists k :: 0 <= k < |r| && r[k].at == at)
  }

  datatype Entry = Entry(id: nat, at: nat, title: string, parts: seq<string>)

  /** An entry after `n` records. */
  predicate Item(ledger: seq<Record>, n: nat, done: set<nat>, e: Entry) {
    && n <= |ledger| && e.at < n && FirstAt(ledger, e.at)
    && e.id == ledger[e.at].id && e.id !in done
    && e.title == Label(ledger[e.at].kind, ledger[e.at].name)
    && Concat(e.parts) == Folded(ledger, n, e.id)
  }

  ghost predicate Listed(es: seq<Entry>, id: nat) {
    exists k :: 0 <= k < |es| && es[k].id == id
  }

  ghost predicate Gathered(ledger: seq<Record>, n: nat, done: set<nat>, es: seq<Entry>) {
    && n <= |ledger|
    && (forall k :: 0 <= k < |es| ==> Item(ledger, n, done, es[k]))
    && (forall j, k :: 0 <= j < k < |es| ==> es[j].at < es[k].at)
    && (forall i :: 0 <= i < n && ledger[i].Checkpoint? && ledger[i].id !in done ==> Listed(es, ledger[i].id))
  }

  function Seek(es: seq<Entry>, id: nat, from: nat): (k: nat)
    requires from <= |es|
    ensures from <= k <= |es|
    ensures k < |es| ==> es[k].id == id
    ensures forall i :: from <= i < k ==> es[i].id != id
    decreases |es| - from
  {
    if from == |es| || es[from].id == id then from else Seek(es, id, from + 1)
  }

  /** The loop body of `interrupted_output`. */
  function Gather(es: seq<Entry>, e: Record, at: nat, done: set<nat>): seq<Entry> {
    if !e.Checkpoint? || e.id in done then es
    else
      var k := Seek(es, e.id, 0);
      var known := if k < |es| then es else es + [Entry(e.id, at, Label(e.kind, e.name), [])];
      known[k := known[k].(parts := (if e.replace then [] else known[k].parts) + [e.text])]
  }

  lemma DistinctEntries(ledger: seq<Record>, n: nat, done: set<nat>, es: seq<Entry>)
    requires Gathered(ledger, n, done, es)
    ensures forall j, k :: 0 <= j < k < |es| ==> es[j].id != es[k].id
  {
  }

  /** An entry takes a checkpoint of its own stream, and only that. */
  lemma ItemStep(ledger: seq<Record>, n: nat, done: set<nat>, e: Entry)
    requires Item(ledger, n, done, e) && n < |ledger|
    ensures var r := ledger[n];
      if r.Checkpoint? && r.id == e.id
      then Item(ledger, n + 1, done, e.(parts := (if r.replace then [] else e.parts) + [r.text]))
      else Item(ledger, n + 1, done, e)
  {
    var r := ledger[n];
    if r.Checkpoint? {
      ConcatSnoc(if r.replace then [] else e.parts, r.text);
    }
  }

  lemma ListedKept(es: seq<Entry>, es': seq<Entry>, id: nat)
    requires Listed(es, id) && |es| <= |es'|
    requires forall k :: 0 <= k < |es| ==> es'[k].id == es[k].id
    ensures Listed(es', id)
  {
    var k :| 0 <= k < |es| && es[k].id == id;
    assert es'[k].id == id;
  }

  lemma ListedAfter(ledger: seq<Record>, n: nat, done: set<nat>, es: seq<Entry>, es': seq<Entry>)
    requires Gathered(ledger, n, done, es) && n < |ledger| && |es| <= |es'|
    requires forall k :: 0 <= k < |es| ==> es'[k].id == es[k].id
    requires ledger[n].Checkpoint? && ledger[n].id !in done ==> Listed(es', ledger[n].id)
    ensures forall i :: 0 <= i < n + 1 && ledger[i].Checkpoint? && ledger[i].id !in done ==> Listed(es', ledger[i].id)
  {
    forall i | 0 <= i < n && ledger[i].Checkpoint? && ledger[i].id !in done ensures Listed(es', ledger[i].id) {
      ListedKept(es, es', ledger[i].id);
    }
  }

  lemma {:induction false} GatherOld(ledger: seq<Record>, n: nat, done: set<nat>, es: seq<Entry>)
    requires Gathered(ledger, n, done, es) && n < |ledger|
    requires ledger[n].Checkpoint? && ledger[n].id !in done && Seek(es, ledger[n].id, 0) < |es|
    ensures Gathered(ledger, n + 1, done, Gather(es, ledger[n], n, done))
  {
    var k := Seek(es, ledger[n].id, 0);
    var es' := Gather(es, ledger[n], n, done);
    DistinctEntries(ledger, n, done, es);
    forall i | 0 <= i < |es| ensures Item(ledger, n + 1, done, es'[i]) {
      ItemStep(ledger, n, done, es[i]);
    }
    assert es'[k].id == ledger[n].id;
    ListedAfter(ledger, n, done, es, es');
  }

  lemma {:induction false} FoldedNone(ledger: seq<Record>, n: nat, id: nat)
    requires n <= |ledger|
    requires forall k :: 0 <= k < n ==> !(ledger[k].Checkpoint? && ledger[k].id == id)
    ensures Folded(ledger, n, id) == ""
  {
    if n > 0 {
      FoldedNone(ledger, n - 1, id);
    }
  }

  lemma {:induction false} GatherNew(ledger: seq<Record>, n: nat, done: set<nat>, es: seq<Entry>)
    requires Gathered(ledger, n, done, es) && n < |ledger|
    requires ledger[n].Checkpoint? && ledger[n].id !in done && Seek(es, ledger[n].id, 0) == |es|
    ensures Gathered(ledger, n + 1, done, Gather(es, ledger[n], n, done))
  {
    var e := ledger[n];
    var es' := Gather(es, e, n, done);
    var added := es'[|es|];
    assert forall i :: 0 <= i < |es| ==> es'[i] == es[i];
    assert FirstAt(ledger, n) by {
      assert !Listed(es, e.id);
    }
    assert Item(ledger, n + 1, done, added) by {
      FoldedNone(ledger, n, e.id);
      ConcatSnoc([], e.text);
    }
    forall i | 0 <= i < |es| ensures Item(ledger, n + 1, done, es'[i]) {
      ItemStep(ledger, n, done, es[i]);
    }
    assert es'[|es|].id == e.id;
    ListedAfter(ledger, n, done, es, es');
  }

  lemma {:induction false} GatherStep(ledger: seq<Record>, n: nat, done: set<nat>, es: seq<Entry>)
    requires Gathered(ledger, n, done, es) && n < |ledger|
    ensures Gathered(ledger, n + 1, done, Gather(es, ledger[n], n, done))
  {
    if ledger[n].Checkpoint? && ledger[n].id !in done {
      if Seek(es, ledger[n].id, 0) < |es| {
        GatherOld(ledger, n, done, es);
      } else {
        GatherNew(ledger, n, done, es);
      }
    } else {
      forall i | 0 <= i < |es| ensures Item(ledger, n + 1, done, es[i]) {
        ItemStep(ledger, n, done, es[i]);
      }
      ListedAfter(ledger, n, done, es, es);
    }
  }

  /** `interrupted_output`. */
  method InterruptedOutput(ledger: seq<Record>) returns (r: seq<Recovered>)
    ensures IsRecovery(ledger, r)
  {
    var done: set<nat> := {};
    for i := 0 to |ledger|
      invariant forall id :: id in done <==> exists k :: 0 <= k < i && ledger[k].Committed? && id in ledger[k].ids
    {
      if ledger[i].Committed? {
        done := done + set id | id in ledger[i].ids;
      }
    }
    var es: seq<Entry> := [];
    for i := 0 to |ledger|
      invariant Gathered(ledger, i, done, es)
    {
      GatherStep(ledger, i, done, es);
      es := Gather(es, ledger[i], i, done);
    }
    r := [];
    for i := 0 to |es|
      invariant |r| == i
      invariant forall k :: 0 <= k < i ==> r[k] == Recovered(es[k].at, es[k].title, Concat(es[k].parts))
    {
      r := r + [Recovered(es[i].at, es[i].title, Concat(es[i].parts))];
    }
    RecoveryComplete(ledger, done, es, r);
  }

  lemma RecoveryComplete(ledger: seq<Record>, done: set<nat>, es: seq<Entry>, r: seq<Recovered>)
    requires Gathered(ledger, |ledger|, done, es)
    requires forall id :: id in done <==> Acked(ledger, id)
    requires |r| == |es|
    requires forall k :: 0 <= k < |es| ==> r[k] == Recovered(es[k].at, es[k].title, Concat(es[k].parts))
    ensures IsRecovery(ledger, r)
  {
    forall at | 0 <= at < |ledger| && FirstAt(ledger, at) && !Acked(ledger, ledger[at].id)
      ensures exists k :: 0 <= k < |r| && r[k].at == at
    {
      assert Listed(es, ledger[at].id);
      var k :| 0 <= k < |es| && es[k].id == ledger[at].id;
      assert r[k].at == at;
    }
  }

  // ----- What a longer ledger says -----

  function Text(ledger: seq<Record>, id: nat): string {
    Folded(ledger, |ledger|, id)
  }

  lemma {:induction false} FoldedPrefix(ledger: seq<Record>, e: Record, n: nat, id: nat)
    requires n <= |ledger|
    ensures Folded(ledger + [e], n, id) == Folded(ledger, n, id)
  {
    if n > 0 {
      FoldedPrefix(ledger, e, n - 1, id);
    }
  }

  lemma TextSnoc(ledger: seq<Record>, e: Record, id: nat)
    ensures Text(ledger + [e], id) == Apply(Text(ledger, id), e, id)
  {
    FoldedPrefix(ledger, e, |ledger|, id);
  }

  ghost predicate Checkpointed(ledger: seq<Record>, id: nat) {
    exists i :: 0 <= i < |ledger| && ledger[i].Checkpoint? && ledger[i].id == id
  }

  lemma RecordsSnoc(ledger: seq<Record>, e: Record, id: nat)
    ensures Checkpointed(ledger + [e], id) <==> Checkpointed(ledger, id) || (e.Checkpoint? && e.id == id)
    ensures Acked(ledger + [e], id) <==> Acked(ledger, id) || (e.Committed? && id in e.ids)
  {
    var longer := ledger + [e];
    assert longer[|ledger|] == e;
    if Checkpointed(ledger, id) {
      var i :| 0 <= i < |ledger| && ledger[i].Checkpoint? && ledger[i].id == id;
      assert longer[i] == ledger[i];
    }
    if Acked(ledger, id) {
      var i :| 0 <= i < |ledger| && ledger[i].Committed? && id in ledger[i].ids;
      assert longer[i] == ledger[i];
    }
  }

  ghost predicate Distinct(streams: seq<Stream>) {
    forall a, b :: 0 <= a < b < |streams| ==> streams[a].id != streams[b].id
  }

  /** A stream's text once its buffer is written after `text`. */
  function After(s: Stream, text: string): string {
    if s.parts == [] then text else (if s.replace then "" else text) + Concat(s.parts)
  }

  lemma {:induction false} WrittenElse(ledger: seq<Record>, streams: seq<Stream>, n: nat, id: nat)
    requires n <= |streams| && forall k :: 0 <= k < n ==> streams[k].id != id
    ensures Text(Written(ledger, streams, n), id) == Text(ledger, id)
    ensures Checkpointed(Written(ledger, streams, n), id) <==> Checkpointed(ledger, id)
  {
    if n > 0 {
      WrittenElse(ledger, streams, n - 1, id);
      var w := Written(ledger, streams, n - 1);
      if streams[n - 1].parts != [] {
        TextSnoc(w, CheckpointOf(streams[n - 1])[0], id);
        RecordsSnoc(w, CheckpointOf(streams[n - 1])[0], id);
      } else {
        assert w + [] == w;
      }
    }
  }

  lemma {:induction false} WrittenOne(ledger: seq<Record>, streams: seq<Stream>, n: nat, k: nat)
    requires k < n <= |streams| && Distinct(streams)
    ensures Text(Written(ledger, streams, n), streams[k].id) == After(streams[k], Text(ledger, streams[k].id))
    ensures Checkpointed(Written(ledger, streams, n), streams[k].id)
            <==> Checkpointed(ledger, streams[k].id) || streams[k].parts != []
  {
    var w := Written(ledger, streams, n - 1);
    var id := streams[k].id;
    if k < n - 1 {
      WrittenOne(ledger, streams, n - 1, k);
    } else {
      WrittenElse(ledger, streams, n - 1, id);
    }
    if streams[n - 1].parts != [] {
      TextSnoc(w, CheckpointOf(streams[n - 1])[0], id);
      RecordsSnoc(w, CheckpointOf(streams[n - 1])[0], id);
    } else {
      assert w + [] == w;
    }
  }

  lemma {:induction false} WrittenAcks(ledger: seq<Record>, streams: seq<Stream>, n: nat, id: nat)
    requires n <= |streams|
    ensures Acked(Written(ledger, streams, n), id) <==> Acked(ledger, id)
  {
    if n > 0 {
      WrittenAcks(ledger, streams, n - 1, id);
      var w := Written(ledger, streams, n - 1);
      if streams[n - 1].parts != [] {
        RecordsSnoc(w, CheckpointOf(streams[n - 1])[0], id);
      } else {
        assert w + [] == w;
      }
    }
  }

  // ----- All runs -----

  /** `told` is what each stream really said; `acked` the streams a message has acknowledged. */
  datatype System = System(journal: Journal, told: map<nat, string>, acked: set<nat>)

  datatype Step =
    | Says(kind: Kind, call: Option<string>, name: string, text: string)
    | EndsTool(call: Option<string>, name: string, result: string)
    | StartsOrEndsChat
    | InterruptsAssistant
    | Fires(timer: nat)
    | Commits(role: Role)
    | Closes
    | Others

  /** The stream the next text of this kind and call belongs to. */
  function Speaker(j: Journal, kind: Kind, call: Option<string>): nat {
    var k := Find(j.streams, kind, call, 0);
    if k < |j.streams| then j.streams[k].id else j.nextId
  }

  function Heard(told: map<nat, string>, id: nat): string {
    if id in told then told[id] else ""
  }

  function Next(s: System, step: Step): System {
    var j := s.journal;
    match step
    case Says(kind, call, name, text) =>
      var id := Speaker(j, kind, call);
      System(RecordText(j, kind, call, name, text, false),
             if text == "" then s.told else s.told[id := Heard(s.told, id) + text], s.acked)
    case EndsTool(call, name, result) =>
      System(RecordText(j, Tool, call, name, result, true), s.told[Speaker(j, Tool, call) := result], s.acked)
    case StartsOrEndsChat => s.(journal := Only(Flush(j), Nothing))
    case InterruptsAssistant => s.(journal := Only(Flush(j), Tools))
    case Fires(timer) => if j.timer == Some(timer) then s.(journal := Flush(j)) else s
    case Commits(role) => s.(journal := Commit(j, role), acked := s.acked + set id | id in MatchedIds(j, role))
    case Closes => s.(journal := Only(Flush(j), Nothing))
    case Others => s.(journal := j.(ledger := j.ledger + [Other]))
  }

  /** A new journal on a ledger left by earlier ones, whose stream ids are never reused. */
  ghost predicate Begins(s: System) {
    && s.journal == Journal([], 0, None, s.journal.nextTimer, s.journal.nextId, s.journal.ledger)
    && (forall id :: id in s.told <==> Checkpointed(s.journal.ledger, id))
    && (forall id :: id in s.told ==> s.told[id] == Text(s.journal.ledger, id))
    && (forall id :: id in s.acked <==> Acked(s.journal.ledger, id))
    && (forall id :: id in s.told || id in s.acked ==> id < s.journal.nextId)
  }

  function Run(s: System, steps: seq<Step>): System {
    if steps == [] then s else Next(Run(s, steps[..|steps| - 1]), steps[|steps| - 1])
  }

  ghost predicate IsOpen(streams: seq<Stream>, id: nat) {
    exists k :: 0 <= k < |streams| && streams[k].id == id
  }

  ghost predicate Identified(j: Journal, told: map<nat, string>) {
    && Distinct(j.streams)
    && (forall k :: 0 <= k < |j.streams| ==> j.streams[k].id in told)
    && (forall id :: id in told ==> id < j.nextId)
    && (forall id :: Checkpointed(j.ledger, id) ==> id in told)
  }

  /** Checkpoints, then the buffer, give what the stream said. */
  ghost predicate OpenTrue(ledger: seq<Record>, told: map<nat, string>, s: Stream) {
    && s.id in told
    && told[s.id] == (if s.replace then "" else Text(ledger, s.id)) + Concat(s.parts)
    && (s.parts == [] ==> Checkpointed(ledger, s.id) && !s.replace)
  }

  ghost predicate Faithful(j: Journal, told: map<nat, string>) {
    && (forall k :: 0 <= k < |j.streams| ==> OpenTrue(j.ledger, told, j.streams[k]))
    && (forall id :: id in told && !IsOpen(j.streams, id) ==>
          told[id] == Text(j.ledger, id) && Checkpointed(j.ledger, id))
  }

  ghost predicate AcksExact(j: Journal, acked: set<nat>) {
    && (forall id :: id in acked <==> Acked(j.ledger, id))
    && (forall id :: id in acked ==> id < j.nextId)
    && (forall k :: 0 <= k < |j.streams| ==> j.streams[k].id !in acked)
  }

  ghost predicate Counted(j: Journal) {
    j.pendingChars == PendingLength(j.streams, |j.streams|)
  }

  /** Buffered text is short, awaits a timer and replaces nothing. */
  ghost predicate Settled(j: Journal) {
    && j.pendingChars < FLUSH_CHARS
    && (forall k :: 0 <= k < |j.streams| ==> !j.streams[k].replace)
    && (forall k :: 0 <= k < |j.streams| && j.streams[k].parts != [] ==> j.timer.Some?)
  }

  ghost predicate Sound(s: System) {
    && Identified(s.journal, s.told) && Faithful(s.journal, s.told)
    && AcksExact(s.journal, s.acked) && Counted(s.journal)
  }

  ghost predicate Invariant(s: System) {
    Sound(s) && Settled(s.journal)
  }

  // ----- Flushing loses nothing -----

  lemma {:induction false} NothingPending(streams: seq<Stream>, n: nat)
    requires n <= |streams| && forall k :: 0 <= k < n ==> streams[k].parts == []
    ensures PendingLength(streams, n) == 0
  {
    if n > 0 {
      NothingPending(streams, n - 1);
    }
  }

  lemma SameOpen(streams: seq<Stream>, streams': seq<Stream>, id: nat)
    requires |streams| == |streams'| && forall k :: 0 <= k < |streams| ==> streams'[k].id == streams[k].id
    ensures IsOpen(streams', id) <==> IsOpen(streams, id)
  {
    if k :| 0 <= k < |streams| && streams[k].id == id {
      assert streams'[k].id == id;
    }
    if k :| 0 <= k < |streams| && streams'[k].id == id {
      assert streams[k].id == id;
    }
  }

  lemma FlushText(j: Journal, id: nat)
    requires Distinct(j.streams)
    ensures !IsOpen(j.streams, id) ==> Text(Flush(j).ledger, id) == Text(j.ledger, id)
    ensures Checkpointed(j.ledger, id) ==> Checkpointed(Flush(j).ledger, id)
    ensures Checkpointed(Flush(j).ledger, id) ==> Checkpointed(j.ledger, id) || IsOpen(j.streams, id)
  {
    if k :| 0 <= k < |j.streams| && j.streams[k].id == id {
      WrittenOne(j.ledger, j.streams, |j.streams|, k);
    } else {
      WrittenElse(j.ledger, j.streams, |j.streams|, id);
    }
  }

  lemma FlushFaithful(j: Journal, told: map<nat, string>)
    requires Identified(j, told) && Faithful(j, told)
    ensures Identified(Flush(j), told) && Faithful(Flush(j), told)
  {
    var f := Flush(j);
    forall k | 0 <= k < |j.streams| ensures OpenTrue(f.ledger, told, f.streams[k]) {
      assert OpenTrue(j.ledger, told, j.streams[k]);
      WrittenOne(j.ledger, j.streams, |j.streams|, k);
    }
    forall id ensures IsOpen(f.streams, id) <==> IsOpen(j.streams, id) {
      SameOpen(j.streams, f.streams, id);
    }
    forall id | id in told && !IsOpen(j.streams, id)
      ensures told[id] == Text(f.ledger, id) && Checkpointed(f.ledger, id)
    {
      FlushText(j, id);
    }
    forall id | Checkpointed(f.ledger, id) ensures id in told {
      FlushText(j, id);
    }
  }

  lemma FlushAcks(j: Journal, acked: set<nat>)
    requires AcksExact(j, acked)
    ensures AcksExact(Flush(j), acked)
  {
    forall id ensures Acked(Flush(j).ledger, id) <==> Acked(j.ledger, id) {
      WrittenAcks(j.ledger, j.streams, |j.streams|, id);
    }
  }

  ghost predicate AllWritten(j: Journal) {
    forall k :: 0 <= k < |j.streams| ==> j.streams[k].parts == []
  }

  lemma FlushEmpties(j: Journal, told: map<nat, string>)
    requires Counted(j) && Faithful(j, told)
    ensures AllWritten(Flush(j)) && Counted(Flush(j)) && Settled(Flush(j))
  {
    assert forall k :: 0 <= k < |j.streams| ==> OpenTrue(j.ledger, told, j.streams[k]);
    NothingPending(Flush(j).streams, |j.streams|);
  }

  lemma FlushSettles(s: System)
    requires Sound(s)
    ensures Invariant(s.(journal := Flush(s.journal))) && AllWritten(Flush(s.journal))
  {
    FlushFaithful(s.journal, s.told);
    FlushAcks(s.journal, s.acked);
    FlushEmpties(s.journal, s.told);
  }

  // ----- A text is taken -----

  lemma {:induction false} PendingSame(a: seq<Stream>, b: seq<Stream>, n: nat)
    requires n <= |a| && n <= |b| && forall k :: 0 <= k < n ==> a[k].parts == b[k].parts
    ensures PendingLength(a, n) == PendingLength(b, n)
  {
    if n > 0 {
      PendingSame(a, b, n - 1);
    }
  }

  lemma {:induction false} PendingPut(streams: seq<Stream>, k: nat, s: Stream, n: nat)
    requires k < n <= |streams|
    ensures PendingLength(streams[k := s], n)
            == PendingLength(streams, n) - |Concat(streams[k].parts)| + |Concat(s.parts)|
  {
    if k == n - 1 {
      PendingSame(streams[k := s], streams, n - 1);
    } else {
      PendingPut(streams, k, s, n - 1);
    }
  }

  /** What a stream said, with the new text. */
  function Telling(told: map<nat, string>, id: nat, text: string, final: bool): map<nat, string> {
    told[id := (if final then "" else Heard(told, id)) + text]
  }

  lemma StringsJoin(a: string, b: string, c: string)
    ensures (a + b) + c == a + (b + c)
  {
  }

  lemma ConcatOne(text: string)
    ensures Concat([text]) == text && "" + text == text
  {
    assert [text][..0] == [] && Concat([]) == "";
  }

  lemma TakenTrue(ledger: seq<Record>, told: map<nat, string>, s: Stream, text: string, final: bool)
    requires OpenTrue(ledger, told, s)
    ensures OpenTrue(ledger, Telling(told, s.id, text, final),
                     if final then s.(parts := [text], replace := true) else s.(parts := s.parts + [text]))
  {
    if final {
      ConcatOne(text);
    } else {
      ConcatSnoc(s.parts, text);
      StringsJoin(if s.replace then "" else Text(ledger, s.id), Concat(s.parts), text);
    }
  }

  lemma TakenFaithful(j: Journal, told: map<nat, string>, k: nat, text: string, final: bool)
    requires Identified(j, told) && Faithful(j, told) && k < |j.streams|
    ensures var told' := Telling(told, j.streams[k].id, text, final);
      Identified(Taken(j, k, text, final), told') && Faithful(Taken(j, k, text, final), told')
  {
    var t := Taken(j, k, text, final);
    var told' := Telling(told, j.streams[k].id, text, final);
    forall i | 0 <= i < |j.streams| ensures OpenTrue(t.ledger, told', t.streams[i]) {
      assert OpenTrue(j.ledger, told, j.streams[i]);
      if i == k {
        TakenTrue(j.ledger, told, j.streams[k], text, final);
      }
    }
    forall id ensures IsOpen(t.streams, id) <==> IsOpen(j.streams, id) {
      SameOpen(j.streams, t.streams, id);
    }
    assert IsOpen(j.streams, j.streams[k].id);
  }

  lemma TakenCounted(j: Journal, k: nat, text: string, final: bool)
    requires Counted(j) && k < |j.streams|
    ensures Counted(Taken(j, k, text, final))
  {
    ConcatSnoc(j.streams[k].parts, text);
    ConcatSnoc([], text);
    assert [] + [text] == [text];
    PendingPut(j.streams, k, Taken(j, k, text, final).streams[k], |j.streams|);
  }

  lemma TakenAcks(j: Journal, acked: set<nat>, k: nat, text: string, final: bool)
    requires AcksExact(j, acked) && k < |j.streams|
    ensures AcksExact(Taken(j, k, text, final), acked)
  {
    var t := Taken(j, k, text, final);
    assert forall i :: 0 <= i < |t.streams| ==> t.streams[i].id == j.streams[i].id;
  }

  lemma TakenSound(s: System, k: nat, text: string, final: bool)
    requires Sound(s) && k < |s.journal.streams|
    ensures Sound(System(Taken(s.journal, k, text, final),
                         Telling(s.told, s.journal.streams[k].id, text, final), s.acked))
  {
    TakenFaithful(s.journal, s.told, k, text, final);
    TakenCounted(s.journal, k, text, final);
    TakenAcks(s.journal, s.acked, k, text, final);
  }

  /** Opening a stream: its text so far is empty, so it is sound once it takes its first text. */
  lemma OpenedFaithful(j: Journal, told: map<nat, string>, s: Stream)
    requires Identified(j, told) && Faithful(j, told)
    requires s.id == j.nextId && s.parts != []
    ensures var o := j.(streams := j.streams + [s], nextId := j.nextId + 1);
      Identified(o, told[s.id := Concat(s.parts)]) && Faithful(o, told[s.id := Concat(s.parts)])
  {
    var o := j.(streams := j.streams + [s], nextId := j.nextId + 1);
    var told' := told[s.id := Concat(s.parts)];
    assert !Checkpointed(j.ledger, s.id);
    FoldedNone(j.ledger, |j.ledger|, s.id);
    forall i | 0 <= i < |o.streams| ensures OpenTrue(o.ledger, told', o.streams[i]) {
      if i < |j.streams| {
        assert OpenTrue(j.ledger, told, j.streams[i]);
      } else {
        assert "" + Concat(s.parts) == Concat(s.parts);
      }
    }
    forall id | id in told' && !IsOpen(o.streams, id) ensures id in told && !IsOpen(j.streams, id) {
      assert o.streams[|j.streams|].id == s.id;
      assert forall k :: 0 <= k < |j.streams| ==> o.streams[k] == j.streams[k];
    }
  }

  /** The journal with one more stream that already holds text. */
  function Joined(j: Journal, x: Stream): Journal {
    j.(streams := j.streams + [x], nextId := j.nextId + 1, pendingChars := j.pendingChars + |Concat(x.parts)|)
  }

  lemma JoinedCounted(j: Journal, x: Stream)
    requires Counted(j)
    ensures Counted(Joined(j, x))
  {
    PendingSame(j.streams + [x], j.streams, |j.streams|);
  }

  lemma JoinedAcks(j: Journal, acked: set<nat>, x: Stream)
    requires AcksExact(j, acked) && x.id == j.nextId
    ensures AcksExact(Joined(j, x), acked)
  {
    assert forall i :: 0 <= i < |j.streams| ==> Joined(j, x).streams[i] == j.streams[i];
  }

  lemma JoinedSound(s: System, x: Stream)
    requires Sound(s) && x.id == s.journal.nextId && x.parts != []
    ensures Sound(System(Joined(s.journal, x), s.told[x.id := Concat(x.parts)], s.acked))
  {
    OpenedFaithful(s.journal, s.told, x);
    JoinedCounted(s.journal, x);
    JoinedAcks(s.journal, s.acked, x);
  }

  lemma OpenedTaken(j: Journal, kind: Kind, call: Option<string>, name: string, text: string, final: bool)
    requires Find(j.streams, kind, call, 0) == |j.streams|
    ensures Concat([text]) == text
    ensures Taken(Opened(j, kind, call, name), |j.streams|, text, final)
            == Joined(j, Stream(j.nextId, kind, call, name, [text], final))
  {
    ConcatSnoc([], text);
    assert [] + [text] == [text];
  }

  lemma TakingSound(s: System, kind: Kind, call: Option<string>, name: string, text: string, final: bool)
    requires Sound(s)
    ensures Sound(System(Taking(s.journal, kind, call, name, text, final),
                         Telling(s.told, Speaker(s.journal, kind, call), text, final), s.acked))
  {
    var j := s.journal;
    var k := Find(j.streams, kind, call, 0);
    if k < |j.streams| {
      TakenSound(s, k, text, final);
    } else {
      OpenedTaken(j, kind, call, name, text, final);
      JoinedSound(s, Stream(j.nextId, kind, call, name, [text], final));
      assert j.nextId !in s.told;
      assert (if final then "" else Heard(s.told, j.nextId)) + text == text;
    }
  }

  lemma TakingSettled(j: Journal, kind: Kind, call: Option<string>, name: string, text: string)
    requires Settled(j)
    ensures var t := Taking(j, kind, call, name, text, false);
      t.pendingChars < FLUSH_CHARS ==> Settled(Scheduled(t))
  {
    var t := Taking(j, kind, call, name, text, false);
    assert forall i :: 0 <= i < |t.streams| ==> !t.streams[i].replace;
  }

  lemma ScheduledSound(s: System)
    requires Sound(s)
    ensures Sound(s.(journal := Scheduled(s.journal)))
  {
  }

  lemma RecordKeeps(s: System, kind: Kind, call: Option<string>, name: string, text: string, final: bool)
    requires Invariant(s) && (text != "" || final)
    ensures Invariant(System(RecordText(s.journal, kind, call, name, text, final),
                             Telling(s.told, Speaker(s.journal, kind, call), text, final), s.acked))
  {
    var j := s.journal;
    var t := Taking(j, kind, call, name, text, final);
    var s' := System(t, Telling(s.told, Speaker(j, kind, call), text, final), s.acked);
    TakingSound(s, kind, call, name, text, final);
    if final || t.pendingChars >= FLUSH_CHARS {
      FlushSettles(s');
    } else {
      ScheduledSound(s');
      TakingSettled(j, kind, call, name, text);
    }
  }

  // ----- Streams leave only after they are written out -----

  ghost predicate From(streams: seq<Stream>, n: nat, sel: Selector, s: Stream) {
    exists i :: 0 <= i < n <= |streams| && streams[i] == s && Picks(sel, s)
  }

  lemma {:induction false} SelectFrom(streams: seq<Stream>, sel: Selector, n: nat)
    requires n <= |streams| && Distinct(streams)
    ensures forall k :: 0 <= k < |Select(streams, sel, n)| ==> From(streams, n, sel, Select(streams, sel, n)[k])
    ensures Distinct(Select(streams, sel, n))
  {
    if n > 0 {
      SelectFrom(streams, sel, n - 1);
      var r := Select(streams, sel, n - 1);
      forall k | 0 <= k < |r| ensures From(streams, n, sel, r[k]) && r[k].id != streams[n - 1].id {
        assert From(streams, n - 1, sel, r[k]);
        var i :| 0 <= i < n - 1 && streams[i] == r[k] && Picks(sel, r[k]);
        assert streams[i] == r[k];
      }
    }
  }

  lemma {:induction false} SelectHas(streams: seq<Stream>, sel: Selector, n: nat, i: nat)
    requires i < n <= |streams| && Picks(sel, streams[i])
    ensures IsOpen(Select(streams, sel, n), streams[i].id)
  {
    var r := Select(streams, sel, n);
    if i == n - 1 {
      assert r[|r| - 1] == streams[i];
    } else {
      SelectHas(streams, sel, n - 1, i);
      var q := Select(streams, sel, n - 1);
      var k :| 0 <= k < |q| && q[k].id == streams[i].id;
      assert r[k] == q[k];
    }
  }

  lemma OnlyFaithful(j: Journal, told: map<nat, string>, sel: Selector)
    requires Identified(j, told) && Faithful(j, told) && AllWritten(j)
    ensures Identified(Only(j, sel), told) && Faithful(Only(j, sel), told)
  {
    var r := Select(j.streams, sel, |j.streams|);
    SelectFrom(j.streams, sel, |j.streams|);
    forall k | 0 <= k < |r| ensures OpenTrue(j.ledger, told, r[k]) {
      assert From(j.streams, |j.streams|, sel, r[k]);
    }
    forall id | id in told && !IsOpen(r, id) ensures told[id] == Text(j.ledger, id) && Checkpointed(j.ledger, id) {
      if k :| 0 <= k < |j.streams| && j.streams[k].id == id {
        assert OpenTrue(j.ledger, told, j.streams[k]);
      }
    }
  }

  lemma OnlySettled(j: Journal, sel: Selector)
    requires Distinct(j.streams) && AllWritten(j) && Settled(j) && Counted(j)
    ensures Settled(Only(j, sel)) && Counted(Only(j, sel)) && AllWritten(Only(j, sel))
  {
    var r := Select(j.streams, sel, |j.streams|);
    SelectFrom(j.streams, sel, |j.streams|);
    forall k | 0 <= k < |r| ensures r[k].parts == [] && !r[k].replace {
      assert From(j.streams, |j.streams|, sel, r[k]);
    }
    NothingPending(r, |r|);
    NothingPending(j.streams, |j.streams|);
  }

  lemma OnlyAcks(j: Journal, acked: set<nat>, sel: Selector)
    requires Distinct(j.streams) && AcksExact(j, acked)
    ensures AcksExact(Only(j, sel), acked)
  {
    var r := Select(j.streams, sel, |j.streams|);
    SelectFrom(j.streams, sel, |j.streams|);
    forall k | 0 <= k < |r| ensures r[k].id !in acked {
      assert From(j.streams, |j.streams|, sel, r[k]);
    }
  }

  lemma FlushOnlyKeeps(s: System, sel: Selector)
    requires Sound(s)
    ensures Invariant(s.(journal := Only(Flush(s.journal), sel))) && AllWritten(Only(Flush(s.journal), sel))
  {
    var f := Flush(s.journal);
    FlushSettles(s);
    OnlyFaithful(f, s.told, sel);
    OnlySettled(f, sel);
    OnlyAcks(f, s.acked, sel);
  }

  // ----- Commits -----

  lemma LogFaithful(j: Journal, told: map<nat, string>, e: Record)
    requires Identified(j, told) && Faithful(j, told) && !e.Checkpoint?
    ensures Identified(j.(ledger := j.ledger + [e]), told) && Faithful(j.(ledger := j.ledger + [e]), told)
  {
    var longer := j.(ledger := j.ledger + [e]);
    forall id
      ensures Text(longer.ledger, id) == Text(j.ledger, id)
      ensures Checkpointed(longer.ledger, id) <==> Checkpointed(j.ledger, id)
    {
      TextSnoc(j.ledger, e, id);
      RecordsSnoc(j.ledger, e, id);
    }
    forall k | 0 <= k < |j.streams| ensures OpenTrue(longer.ledger, told, j.streams[k]) {
      assert OpenTrue(j.ledger, told, j.streams[k]);
    }
  }

  lemma {:induction false} EmptiedIds(streams: seq<Stream>, sel: Selector, n: nat)
    requires n <= |streams|
    ensures Ids(Select(EmptiedAll(streams), sel, n)) == Ids(Select(streams, sel, n))
  {
    if n > 0 {
      EmptiedIds(streams, sel, n - 1);
    }
  }

  /** The acknowledged streams are open ones, and none of them stays. */
  lemma CommitAcks(f: Journal, acked: set<nat>, role: Role)
    requires Distinct(f.streams) && AcksExact(f, acked)
    requires forall k :: 0 <= k < |f.streams| ==> f.streams[k].id < f.nextId
    ensures var ids := MatchedIds(f, role);
      AcksExact(Only(f.(ledger := f.ledger + [Committed(ids)]), Unacknowledged(role)), acked + set id | id in ids)
  {
    var ids := MatchedIds(f, role);
    var taken := Select(f.streams, Acknowledged(role), |f.streams|);
    var kept := Select(f.streams, Unacknowledged(role), |f.streams|);
    SelectFrom(f.streams, Acknowledged(role), |f.streams|);
    SelectFrom(f.streams, Unacknowledged(role), |f.streams|);
    forall i | 0 <= i < |ids| ensures ids[i] < f.nextId {
      assert From(f.streams, |f.streams|, Acknowledged(role), taken[i]);
    }
    forall k | 0 <= k < |kept| ensures kept[k].id !in acked && kept[k].id !in ids {
      assert From(f.streams, |f.streams|, Unacknowledged(role), kept[k]);
      forall i | 0 <= i < |ids| ensures ids[i] != kept[k].id {
        assert From(f.streams, |f.streams|, Acknowledged(role), taken[i]);
      }
    }
    forall id ensures Acked(f.ledger + [Committed(ids)], id) <==> id in acked + set x | x in ids {
      RecordsSnoc(f.ledger, Committed(ids), id);
    }
  }

  /** A message acknowledges its own streams: an assistant's all that are not of tools, a result's that of its call. */
  lemma CommitTakesItsStreams(s: System, role: Role, k: nat)
    requires Sound(s) && k < |s.journal.streams|
    ensures var x := s.journal.streams[k];
      var own := (role == Assistant && x.kind != Tool) || (x.kind == Tool && role == ToolResult(x.call));
      && (x.id in Next(s, Commits(role)).acked <==> own)
      && (IsOpen(Next(s, Commits(role)).journal.streams, x.id) <==> !own)
  {
    var x := s.journal.streams[k];
    assert AcksExact(Next(s, Commits(role)).journal, Next(s, Commits(role)).acked) by {
      CommitKeeps(s, role);
    }
    if Acknowledges(role, x) {
      MatchedHas(s.journal, role, k);
    } else {
      SelectHas(Flush(s.journal).streams, Unacknowledged(role), |s.journal.streams|, k);
    }
  }

  lemma MatchedHas(j: Journal, role: Role, k: nat)
    requires k < |j.streams| && Acknowledges(role, j.streams[k])
    ensures j.streams[k].id in MatchedIds(j, role)
  {
    var taken := Select(j.streams, Acknowledged(role), |j.streams|);
    SelectHas(j.streams, Acknowledged(role), |j.streams|, k);
    var i :| 0 <= i < |taken| && taken[i].id == j.streams[k].id;
    assert MatchedIds(j, role)[i] == j.streams[k].id;
  }

  lemma CommitKeeps(s: System, role: Role)
    requires Sound(s)
    ensures Invariant(Next(s, Commits(role)))
  {
    var f := Flush(s.journal);
    FlushSettles(s);
    CommitUnfolds(s, role);
    FlushedCommitKeeps(f, s.told, s.acked, role, MatchedIds(f, role));
  }

  /** A commit in terms of the journal once everything is written out. */
  lemma CommitUnfolds(s: System, role: Role)
    ensures var f := Flush(s.journal); var ids := MatchedIds(f, role);
      Next(s, Commits(role)) == System(Only(f.(ledger := f.ledger + [Committed(ids)]), Unacknowledged(role)), s.told,
                                       s.acked + set id | id in ids)
  {
    EmptiedIds(s.journal.streams, Acknowledged(role), |s.journal.streams|);
  }

  /** The rest of a commit, once everything is written out. */
  lemma FlushedCommitKeeps(f: Journal, told: map<nat, string>, acked: set<nat>, role: Role, ids: seq<nat>)
    requires Invariant(System(f, told, acked)) && AllWritten(f) && ids == MatchedIds(f, role)
    ensures Invariant(System(Only(f.(ledger := f.ledger + [Committed(ids)]), Unacknowledged(role)), told,
                             acked + set id | id in ids))
  {
    var logged := f.(ledger := f.ledger + [Committed(ids)]);
    CommitAcks(f, acked, role);
    var kept := Only(logged, Unacknowledged(role));
    assert Identified(kept, told) && Faithful(kept, told) by {
      LogFaithful(f, told, Committed(ids));
      OnlyFaithful(logged, told, Unacknowledged(role));
    }
    OnlySettled(logged, Unacknowledged(role));
  }

  lemma OtherKeeps(s: System)
    requires Invariant(s)
    ensures Invariant(Next(s, Others))
  {
    LogFaithful(s.journal, s.told, Other);
    forall id ensures Acked(s.journal.ledger + [Other], id) <==> Acked(s.journal.ledger, id) {
      RecordsSnoc(s.journal.ledger, Other, id);
    }
  }

  lemma StepKeeps(s: System, step: Step)
    requires Invariant(s)
    ensures Invariant(Next(s, step))
  {
    match step
    case Says(kind, call, name, text) =>
      if text != "" {
        RecordKeeps(s, kind, call, name, text, false);
      }
    case EndsTool(call, name, result) =>
      RecordKeeps(s, Tool, call, name, result, true);
      assert "" + result == result;
    case StartsOrEndsChat => FlushOnlyKeeps(s, Nothing);
    case InterruptsAssistant => FlushOnlyKeeps(s, Tools);
    case Fires(_) => FlushSettles(s);
    case Commits(role) => CommitKeeps(s, role);
    case Closes => FlushOnlyKeeps(s, Nothing);
    case Others => OtherKeeps(s);
  }

  lemma {:induction false} RunKeeps(s: System, steps: seq<Step>)
    requires Begins(s)
    ensures Invariant(Run(s, steps))
  {
    if steps != [] {
      RunKeeps(s, steps[..|steps| - 1]);
      StepKeeps(Run(s, steps[..|steps| - 1]), steps[|steps| - 1]);
    }
  }

  // ----- What a reader of the ledger gets -----

  /** The buffered text of a stream. */
  function Buffered(streams: seq<Stream>, id: nat, n: nat): string
    requires n <= |streams|
  {
    if n == 0 then ""
    else if streams[n - 1].id == id then Concat(streams[n - 1].parts)
    else Buffered(streams, id, n - 1)
  }

  lemma {:induction false} BufferedAt(streams: seq<Stream>, id: nat, n: nat)
    requires n <= |streams|
    ensures (forall k :: 0 <= k < n ==> streams[k].id != id) ==> Buffered(streams, id, n) == ""
    ensures Distinct(streams) ==>
      forall k :: 0 <= k < n && streams[k].id == id ==> Buffered(streams, id, n) == Concat(streams[k].parts)
  {
    if n > 0 {
      BufferedAt(streams, id, n - 1);
    }
  }

  /**
    At any point of any run the checkpoints give a prefix of what each stream said; all
    that is missing is the buffers, fewer than 65536 characters together, and a timer is set for them.
   */
  lemma CheckpointsArePrefixes(s: System, steps: seq<Step>)
    requires Begins(s)
    ensures var t := Run(s, steps); var j := t.journal;
      && (forall id :: id in t.told ==> t.told[id] == Text(j.ledger, id) + Buffered(j.streams, id, |j.streams|))
      && PendingLength(j.streams, |j.streams|) == j.pendingChars < FLUSH_CHARS
      && (j.pendingChars > 0 ==> j.timer.Some?)
  {
    var t := Run(s, steps);
    var j := t.journal;
    RunKeeps(s, steps);
    forall id | id in t.told ensures t.told[id] == Text(j.ledger, id) + Buffered(j.streams, id, |j.streams|) {
      BufferedAt(j.streams, id, |j.streams|);
      if k :| 0 <= k < |j.streams| && j.streams[k].id == id {
        assert OpenTrue(j.ledger, t.told, j.streams[k]);
      } else {
        assert Text(j.ledger, id) + "" == Text(j.ledger, id);
      }
    }
    if forall k :: 0 <= k < |j.streams| ==> j.streams[k].parts == [] {
      NothingPending(j.streams, |j.streams|);
    }
  }

  lemma {:induction false} FirstExists(ledger: seq<Record>, i: nat)
    requires i < |ledger| && ledger[i].Checkpoint?
    ensures exists at :: 0 <= at <= i && FirstAt(ledger, at) && ledger[at].id == ledger[i].id
  {
    if k :| 0 <= k < i && ledger[k].Checkpoint? && ledger[k].id == ledger[i].id {
      FirstExists(ledger, k);
    } else {
      assert FirstAt(ledger, i);
    }
  }

  /** Once closed, recovery shows exactly the unacknowledged streams, each with all it said. */
  lemma RecoveryAfterClose(s: System, steps: seq<Step>, r: seq<Recovered>)
    requires Begins(s)
    requires IsRecovery(Run(s, steps + [Closes]).journal.ledger, r)
    ensures var t := Run(s, steps + [Closes]); var ledger := t.journal.ledger;
      && (forall k :: 0 <= k < |r| ==>
            && r[k].at < |ledger| && ledger[r[k].at].Checkpoint?
            && ledger[r[k].at].id in t.told && ledger[r[k].at].id !in t.acked
            && r[k].text == t.told[ledger[r[k].at].id])
      && (forall id :: id in t.told && id !in t.acked ==>
            exists k :: 0 <= k < |r| && r[k].at < |ledger| && ledger[r[k].at].Checkpoint? && ledger[r[k].at].id == id)
  {
    var longer := steps + [Closes];
    assert longer[..|longer| - 1] == steps;
    RunKeeps(s, steps);
    RunKeeps(s, longer);
    var t := Run(s, longer);
    var ledger := t.journal.ledger;
    FlushOnlyKeeps(Run(s, steps), Nothing);
    NothingSelected(Flush(Run(s, steps).journal).streams, |Run(s, steps).journal.streams|);
    assert t.journal.streams == [];
    forall k | 0 <= k < |r| ensures ledger[r[k].at].id in t.told {
      assert Checkpointed(ledger, ledger[r[k].at].id);
    }
    forall id | id in t.told && id !in t.acked
      ensures exists k :: 0 <= k < |r| && r[k].at < |ledger| && ledger[r[k].at].Checkpoint? && ledger[r[k].at].id == id
    {
      assert !IsOpen(t.journal.streams, id);
      var i :| 0 <= i < |ledger| && ledger[i].Checkpoint? && ledger[i].id == id;
      FirstExists(ledger, i);
    }
  }

  lemma {:induction false} NothingSelected(streams: seq<Stream>, n: nat)
    requires n <= |streams|
    ensures Select(streams, Nothing, n) == []
  {
    if n > 0 {
      NothingSelected(streams, n - 1);
    }
  }

  // ----- Which stream says what -----

  /** No two open streams have the same kind and call. */
  ghost predicate OnePerKey(streams: seq<Stream>) {
    forall a, b :: 0 <= a < b < |streams| ==>
      !(streams[a].kind == streams[b].kind && streams[a].call == streams[b].call)
  }

  /** One more step of the log. */
  function SaidNext(before: Option<string>, step: Step, kind: Kind, call: Option<string>): Option<string> {
    match step
    case Says(k, c, _, text) =>
      if k == kind && c == call && text != "" then Some((if before.Some? then before.value else "") + text)
      else before
    case EndsTool(c, _, result) => if kind == Tool && c == call then Some(result) else before
    case StartsOrEndsChat => None
    case Closes => None
    case InterruptsAssistant => if kind == Tool then before else None
    case Commits(role) =>
      if (role == Assistant && kind != Tool) || (kind == Tool && role == ToolResult(call)) then None else before
    case Fires(_) => before
    case Others => before
  }

  /** What a kind and call has said since its output last ended, from the log of steps alone. */
  function Said(steps: seq<Step>, kind: Kind, call: Option<string>): Option<string> {
    if steps == [] then None
    else
      var front, last := steps[..|steps| - 1], steps[|steps| - 1];
      SaidNext(Said(front, kind, call), last, kind, call)
  }

  /** Stream `k` has this kind and call and has said `text`. */
  predicate VoicesAt(s: System, kind: Kind, call: Option<string>, text: string, k: nat) {
    && k < |s.journal.streams| && HasKey(s.journal.streams[k], kind, call)
    && s.journal.streams[k].id in s.told && s.told[s.journal.streams[k].id] == text
  }

  ghost predicate Silent(streams: seq<Stream>, kind: Kind, call: Option<string>) {
    forall k :: 0 <= k < |streams| ==> !HasKey(streams[k], kind, call)
  }

  /** The open stream of this kind and call has said `said`; there is none if nothing was said. */
  ghost predicate Voices(s: System, kind: Kind, call: Option<string>, said: Option<string>) {
    match said
    case None => Silent(s.journal.streams, kind, call)
    case Some(text) => exists k: nat :: VoicesAt(s, kind, call, text, k)
  }

  /** The streams keep their ids, keys and names. */
  ghost predicate SameKeys(a: seq<Stream>, b: seq<Stream>) {
    |a| == |b| && forall k :: 0 <= k < |a| ==> SameKey(a[k], b[k])
  }

  predicate SameKey(a: Stream, b: Stream) {
    a.id == b.id && a.kind == b.kind && a.call == b.call && a.name == b.name
  }

  lemma FlushKeys(j: Journal)
    ensures SameKeys(Flush(j).streams, j.streams)
  {
    forall k | 0 <= k < |j.streams| ensures SameKey(Flush(j).streams[k], j.streams[k]) {
      assert Flush(j).streams[k] == Emptied(j.streams[k]);
    }
  }

  lemma TakenKeys(j: Journal, k: nat, text: string, final: bool)
    requires k < |j.streams|
    ensures SameKeys(Taken(j, k, text, final).streams, j.streams)
  {
  }

  lemma SameKeysOn(a: seq<Stream>, b: seq<Stream>, c: seq<Stream>)
    requires SameKeys(a, b) && SameKeys(b, c)
    ensures SameKeys(a, c)
  {
    forall k | 0 <= k < |a| ensures SameKey(a[k], c[k]) {
      assert SameKey(a[k], b[k]) && SameKey(b[k], c[k]);
    }
  }

  lemma RecordKeys(j: Journal, kind: Kind, call: Option<string>, name: string, text: string, final: bool)
    requires text != "" || final
    ensures SameKeys(RecordText(j, kind, call, name, text, final).streams,
                     Opened(j, kind, call, name).streams)
  {
    var o, t := Opened(j, kind, call, name), Taking(j, kind, call, name, text, final);
    TakenKeys(o, Find(j.streams, kind, call, 0), text, final);
    FlushKeys(t);
    SameKeysOn(Flush(t).streams, t.streams, o.streams);
  }

  lemma VoicesSame(s: System, s': System, kind: Kind, call: Option<string>, said: Option<string>)
    requires SameKeys(s'.journal.streams, s.journal.streams) && s'.told == s.told && Voices(s, kind, call, said)
    ensures Voices(s', kind, call, said)
  {
    if said.Some? {
      var k: nat :| VoicesAt(s, kind, call, said.value, k);
      assert VoicesAt(s', kind, call, said.value, k);
    } else {
      forall k | 0 <= k < |s'.journal.streams| ensures !HasKey(s'.journal.streams[k], kind, call) {
        assert !HasKey(s.journal.streams[k], kind, call);
      }
    }
  }

  /** Ids and keys of the streams are distinct, and all ids are known. */
  ghost predicate Apart(s: System) {
    && Distinct(s.journal.streams) && OnePerKey(s.journal.streams)
    && (forall i :: 0 <= i < |s.journal.streams| ==> s.journal.streams[i].id in s.told)
    && (forall id :: id in s.told ==> id < s.journal.nextId)
  }

  lemma OpenedKeys(j: Journal, kind: Kind, call: Option<string>, name: string)
    ensures var streams, f := Opened(j, kind, call, name).streams, Find(j.streams, kind, call, 0);
      && f < |streams| && HasKey(streams[f], kind, call) && streams[f].id == Speaker(j, kind, call)
      && j.streams <= streams && |streams| <= |j.streams| + 1 && (|streams| > |j.streams| ==> f == |j.streams|)
  {
  }

  /** What the speaking stream has said with the new text. */
  lemma VoicesOwn(s: System, s': System, kind: Kind, call: Option<string>, name: string, text: string, final: bool,
                  said: Option<string>)
    requires Apart(s) && Voices(s, kind, call, said)
    requires SameKeys(s'.journal.streams, Opened(s.journal, kind, call, name).streams)
    requires s'.told == Telling(s.told, Speaker(s.journal, kind, call), text, final)
    ensures Voices(s', kind, call, Some((if final || said.None? then "" else said.value) + text))
  {
    var f := Find(s.journal.streams, kind, call, 0);
    OpenedKeys(s.journal, kind, call, name);
    if said.Some? {
      var i: nat :| VoicesAt(s, kind, call, said.value, i);
      assert i == f;
    } else {
      assert f == |s.journal.streams|;
    }
    assert VoicesAt(s', kind, call, (if final || said.None? then "" else said.value) + text, f);
  }

  /** No other stream is heard in it. */
  lemma VoicesOther(s: System, s': System, k: Kind, c: Option<string>, name: string, text: string, final: bool,
                    kind: Kind, call: Option<string>, said: Option<string>)
    requires Apart(s) && Voices(s, kind, call, said) && !(k == kind && c == call)
    requires SameKeys(s'.journal.streams, Opened(s.journal, k, c, name).streams)
    requires s'.told == Telling(s.told, Speaker(s.journal, k, c), text, final)
    ensures Voices(s', kind, call, said)
  {
    var streams := s.journal.streams;
    OpenedKeys(s.journal, k, c, name);
    if said.Some? {
      var i: nat :| VoicesAt(s, kind, call, said.value, i);
      assert streams[i].id != Speaker(s.journal, k, c);
      assert VoicesAt(s', kind, call, said.value, i);
    } else {
      forall i | 0 <= i < |s'.journal.streams| ensures !HasKey(s'.journal.streams[i], kind, call) {
        assert i < |streams| ==> !HasKey(streams[i], kind, call);
      }
    }
  }

  /** A selector that looks at kind and call keeps or ends the output of each of them as a whole. */
  lemma VoicesOnly(s: System, sel: Selector, kind: Kind, call: Option<string>, said: Option<string>, keeps: bool)
    requires Distinct(s.journal.streams) && Voices(s, kind, call, said)
    requires forall x: Stream :: HasKey(x, kind, call) ==> (Picks(sel, x) <==> keeps)
    ensures Voices(s.(journal := Only(s.journal, sel)), kind, call, if keeps then said else None)
  {
    var streams := s.journal.streams;
    var s', r := s.(journal := Only(s.journal, sel)), Select(streams, sel, |streams|);
    SelectFrom(streams, sel, |streams|);
    if said.Some? && keeps {
      var i: nat :| VoicesAt(s, kind, call, said.value, i);
      SelectHas(streams, sel, |streams|, i);
      var k :| 0 <= k < |r| && r[k].id == streams[i].id;
      assert From(streams, |streams|, sel, r[k]);
      assert VoicesAt(s', kind, call, said.value, k);
    } else {
      forall k | 0 <= k < |r| ensures !HasKey(r[k], kind, call) {
        assert From(streams, |streams|, sel, r[k]);
      }
    }
  }

  lemma {:induction false} SelectKeys(streams: seq<Stream>, sel: Selector, n: nat)
    requires n <= |streams| && Distinct(streams) && OnePerKey(streams)
    ensures OnePerKey(Select(streams, sel, n))
  {
    if n > 0 {
      SelectKeys(streams, sel, n - 1);
      SelectFrom(streams, sel, n - 1);
      var r := Select(streams, sel, n - 1);
      forall k | 0 <= k < |r| ensures !(r[k].kind == streams[n - 1].kind && r[k].call == streams[n - 1].call) {
        assert From(streams, n - 1, sel, r[k]);
      }
    }
  }

  lemma SameKeysApart(a: seq<Stream>, b: seq<Stream>)
    requires SameKeys(a, b) && OnePerKey(b)
    ensures OnePerKey(a)
  {
  }

  lemma OpenedApart(j: Journal, kind: Kind, call: Option<string>, name: string)
    requires OnePerKey(j.streams)
    ensures OnePerKey(Opened(j, kind, call, name).streams)
  {
  }

  /** One step, on the keys of the streams. */
  lemma StepKeys(s: System, step: Step)
    requires Distinct(s.journal.streams) && OnePerKey(s.journal.streams)
    ensures OnePerKey(Next(s, step).journal.streams)
  {
    var j := s.journal;
    SameKeysApart(Flush(j).streams, j.streams);
    match step
    case Says(kind, call, name, text) =>
      if text != "" {
        OpenedApart(j, kind, call, name);
        RecordKeys(j, kind, call, name, text, false);
        SameKeysApart(RecordText(j, kind, call, name, text, false).streams, Opened(j, kind, call, name).streams);
      }
    case EndsTool(call, name, result) =>
      OpenedApart(j, Tool, call, name);
      RecordKeys(j, Tool, call, name, result, true);
      SameKeysApart(RecordText(j, Tool, call, name, result, true).streams, Opened(j, Tool, call, name).streams);
    case StartsOrEndsChat => SelectKeys(Flush(j).streams, Nothing, |j.streams|);
    case InterruptsAssistant => SelectKeys(Flush(j).streams, Tools, |j.streams|);
    case Commits(role) => SelectKeys(Flush(j).streams, Unacknowledged(role), |j.streams|);
    case Closes => SelectKeys(Flush(j).streams, Nothing, |j.streams|);
    case Fires(_) =>
    case Others =>
  }

  lemma FlushVoices(s: System, kind: Kind, call: Option<string>, said: Option<string>)
    requires Voices(s, kind, call, said)
    ensures Voices(s.(journal := Flush(s.journal)), kind, call, said)
  {
    VoicesSame(s, s.(journal := Flush(s.journal)), kind, call, said);
  }

  lemma FlushOnlyVoices(s: System, sel: Selector, kind: Kind, call: Option<string>, said: Option<string>, keeps: bool)
    requires Distinct(s.journal.streams) && Voices(s, kind, call, said)
    requires forall x: Stream :: HasKey(x, kind, call) ==> (Picks(sel, x) <==> keeps)
    ensures Voices(s.(journal := Only(Flush(s.journal), sel)), kind, call, if keeps then said else None)
  {
    FlushVoices(s, kind, call, said);
    VoicesOnly(s.(journal := Flush(s.journal)), sel, kind, call, said, keeps);
  }

  lemma CommitVoices(s: System, role: Role, kind: Kind, call: Option<string>, said: Option<string>)
    requires Distinct(s.journal.streams) && Voices(s, kind, call, said)
    ensures Voices(Next(s, Commits(role)), kind, call, SaidNext(said, Commits(role), kind, call))
  {
    var ends := (role == Assistant && kind != Tool) || (kind == Tool && role == ToolResult(call));
    FlushOnlyVoices(s, Unacknowledged(role), kind, call, said, !ends);
    VoicesSame(s.(journal := Only(Flush(s.journal), Unacknowledged(role))), Next(s, Commits(role)), kind, call,
               SaidNext(said, Commits(role), kind, call));
  }

  lemma RecordVoices(s: System, k: Kind, c: Option<string>, name: string, text: string, final: bool,
                     kind: Kind, call: Option<string>, said: Option<string>)
    requires Apart(s) && Voices(s, kind, call, said) && (text != "" || final)
    ensures Voices(System(RecordText(s.journal, k, c, name, text, final),
                          Telling(s.told, Speaker(s.journal, k, c), text, final), s.acked), kind, call,
                   if k == kind && c == call then Some((if final || said.None? then "" else said.value) + text)
                   else said)
  {
    var s' := System(RecordText(s.journal, k, c, name, text, final),
                     Telling(s.told, Speaker(s.journal, k, c), text, final), s.acked);
    RecordKeys(s.journal, k, c, name, text, final);
    if k == kind && c == call {
      VoicesOwn(s, s', kind, call, name, text, final, said);
    } else {
      VoicesOther(s, s', k, c, name, text, final, kind, call, said);
    }
  }

  lemma StepVoices(s: System, step: Step, kind: Kind, call: Option<string>, said: Option<string>)
    requires Apart(s) && Voices(s, kind, call, said)
    ensures Voices(Next(s, step), kind, call, SaidNext(said, step, kind, call))
  {
    match step
    case Says(k, c, name, text) =>
      if text != "" {
        RecordVoices(s, k, c, name, text, false, kind, call, said);
      }
    case EndsTool(c, name, result) =>
      RecordVoices(s, Tool, c, name, result, true, kind, call, said);
      assert "" + result == result;
    case StartsOrEndsChat => FlushOnlyVoices(s, Nothing, kind, call, said, false);
    case InterruptsAssistant => FlushOnlyVoices(s, Tools, kind, call, said, kind == Tool);
    case Commits(role) => CommitVoices(s, role, kind, call, said);
    case Closes => FlushOnlyVoices(s, Nothing, kind, call, said, false);
    case Fires(_) => FlushVoices(s, kind, call, said);
    case Others => VoicesSame(s, Next(s, step), kind, call, said);
  }

  lemma {:induction false} RunKeys(s: System, steps: seq<Step>)
    requires Begins(s)
    ensures OnePerKey(Run(s, steps).journal.streams)
  {
    if steps != [] {
      var front := Run(s, steps[..|steps| - 1]);
      RunKeys(s, steps[..|steps| - 1]);
      RunKeeps(s, steps[..|steps| - 1]);
      StepKeys(front, steps[|steps| - 1]);
    }
  }

  /**
    At any point of any run each kind and call has at most one open stream. It has one
    exactly if it has said something since its output last ended, and the stream has said that.
   */
  lemma {:induction false} StreamsSayWhatWasSaid(s: System, steps: seq<Step>, kind: Kind, call: Option<string>)
    requires Begins(s)
    ensures OnePerKey(Run(s, steps).journal.streams)
    ensures Voices(Run(s, steps), kind, call, Said(steps, kind, call))
  {
    RunKeys(s, steps);
    if steps != [] {
      var front, last := steps[..|steps| - 1], steps[|steps| - 1];
      StreamsSayWhatWasSaid(s, front, kind, call);
      RunKeeps(s, front);
      StepVoices(Run(s, front), last, kind, call, Said(front, kind, call));
    }
  }

  lemma OnlyOpen(j: Journal, sel: Selector, id: nat)
    requires Distinct(j.streams) && IsOpen(Only(Flush(j), sel).streams, id)
    ensures IsOpen(j.streams, id)
  {
    var r := Only(Flush(j), sel).streams;
    SelectFrom(Flush(j).streams, sel, |j.streams|);
    var k :| 0 <= k < |r| && r[k].id == id;
    assert From(Flush(j).streams, |j.streams|, sel, r[k]);
    var i :| 0 <= i < |j.streams| && Flush(j).streams[i] == r[k];
    assert j.streams[i].id == id;
  }

  lemma RecordOpen(j: Journal, kind: Kind, call: Option<string>, name: string, text: string, final: bool, id: nat)
    requires text != "" || final
    requires IsOpen(RecordText(j, kind, call, name, text, final).streams, id)
    ensures IsOpen(j.streams, id) || id == j.nextId
  {
    var r := RecordText(j, kind, call, name, text, final).streams;
    RecordKeys(j, kind, call, name, text, final);
    var k :| 0 <= k < |r| && r[k].id == id;
    if k < |j.streams| {
      assert j.streams[k].id == id;
    }
  }

  /** Only a new stream opens. */
  lemma OpenBefore(s: System, step: Step, id: nat)
    requires Distinct(s.journal.streams) && IsOpen(Next(s, step).journal.streams, id)
    ensures IsOpen(s.journal.streams, id) || id == s.journal.nextId
  {
    var j := s.journal;
    match step
    case Says(kind, call, name, text) =>
      if text != "" {
        RecordOpen(j, kind, call, name, text, false, id);
      }
    case EndsTool(call, name, result) => RecordOpen(j, Tool, call, name, result, true, id);
    case StartsOrEndsChat => OnlyOpen(j, Nothing, id);
    case InterruptsAssistant => OnlyOpen(j, Tools, id);
    case Commits(role) => OnlyOpen(j, Unacknowledged(role), id);
    case Closes => OnlyOpen(j, Nothing, id);
    case Fires(_) => SameOpen(j.streams, Flush(j).streams, id);
    case Others =>
  }

  lemma SpeakerOpen(j: Journal, kind: Kind, call: Option<string>)
    ensures IsOpen(j.streams, Speaker(j, kind, call)) || Speaker(j, kind, call) == j.nextId
  {
  }

  /** The text of a stream that has ended is final. */
  lemma EndedIsFinal(s: System, step: Step, id: nat)
    requires Identified(s.journal, s.told) && id in s.told && !IsOpen(s.journal.streams, id)
    ensures id in Next(s, step).told && Next(s, step).told[id] == s.told[id]
    ensures !IsOpen(Next(s, step).journal.streams, id)
  {
    if IsOpen(Next(s, step).journal.streams, id) {
      OpenBefore(s, step, id);
    }
    match step
    case Says(kind, call, _, _) => SpeakerOpen(s.journal, kind, call);
    case EndsTool(call, _, _) => SpeakerOpen(s.journal, Tool, call);
    case _ =>
  }

  // ----- What checkpoints are called -----

  /** Every checkpoint of an open stream carries the stream's kind and name. */
  ghost predicate Labelled(ledger: seq<Record>, streams: seq<Stream>) {
    forall i, k :: 0 <= i < |ledger| && 0 <= k < |streams| && ledger[i].Checkpoint? && ledger[i].id == streams[k].id ==>
      ledger[i].kind == streams[k].kind && ledger[i].name == streams[k].name
  }

  lemma {:induction false} WrittenLabelled(ledger: seq<Record>, streams: seq<Stream>, n: nat)
    requires n <= |streams| && Distinct(streams) && Labelled(ledger, streams)
    ensures Labelled(Written(ledger, streams, n), streams)
  {
    if n > 0 {
      WrittenLabelled(ledger, streams, n - 1);
    }
  }

  /** The streams are the same or fewer, by their ids, kinds and names. */
  ghost predicate FewerNames(streams: seq<Stream>, streams': seq<Stream>) {
    forall k :: 0 <= k < |streams'| ==> NamedIn(streams, streams'[k])
  }

  ghost predicate NamedIn(streams: seq<Stream>, s: Stream) {
    exists i :: 0 <= i < |streams| && streams[i].id == s.id && streams[i].kind == s.kind && streams[i].name == s.name
  }

  lemma FewerLabelled(ledger: seq<Record>, streams: seq<Stream>, streams': seq<Stream>)
    requires Labelled(ledger, streams) && FewerNames(streams, streams')
    ensures Labelled(ledger, streams')
  {
    forall i, k | 0 <= i < |ledger| && 0 <= k < |streams'| && ledger[i].Checkpoint? && ledger[i].id == streams'[k].id
      ensures ledger[i].kind == streams'[k].kind && ledger[i].name == streams'[k].name
    {
      assert NamedIn(streams, streams'[k]);
    }
  }

  lemma FlushLabelled(j: Journal)
    requires Distinct(j.streams) && Labelled(j.ledger, j.streams)
    ensures Labelled(Flush(j).ledger, Flush(j).streams)
  {
    WrittenLabelled(j.ledger, j.streams, |j.streams|);
    forall k | 0 <= k < |Flush(j).streams| ensures NamedIn(j.streams, Flush(j).streams[k]) {
      assert Flush(j).streams[k] == Emptied(j.streams[k]);
    }
    FewerLabelled(Flush(j).ledger, j.streams, Flush(j).streams);
  }

  lemma OnlyLabelled(ledger: seq<Record>, streams: seq<Stream>, sel: Selector)
    requires Distinct(streams) && Labelled(ledger, streams)
    ensures Labelled(ledger, Select(streams, sel, |streams|))
  {
    var r := Select(streams, sel, |streams|);
    SelectFrom(streams, sel, |streams|);
    forall k | 0 <= k < |r| ensures NamedIn(streams, r[k]) {
      assert From(streams, |streams|, sel, r[k]);
    }
    FewerLabelled(ledger, streams, r);
  }

  lemma OpenedLabelled(j: Journal, told: map<nat, string>, kind: Kind, call: Option<string>, name: string)
    requires Identified(j, told) && Labelled(j.ledger, j.streams)
    ensures Labelled(j.ledger, Opened(j, kind, call, name).streams)
  {
    forall i | 0 <= i < |j.ledger| && j.ledger[i].Checkpoint? ensures j.ledger[i].id != j.nextId {
      assert Checkpointed(j.ledger, j.ledger[i].id);
    }
  }

  lemma TakenLabelled(j: Journal, k: nat, text: string, final: bool)
    requires k < |j.streams| && Labelled(j.ledger, j.streams)
    ensures Labelled(Taken(j, k, text, final).ledger, Taken(j, k, text, final).streams)
  {
    var t := Taken(j, k, text, final);
    forall i | 0 <= i < |t.streams| ensures NamedIn(j.streams, t.streams[i]) {
      assert j.streams[i].id == t.streams[i].id;
    }
    FewerLabelled(j.ledger, j.streams, t.streams);
  }

  lemma RecordLabelled(s: System, kind: Kind, call: Option<string>, name: string, text: string, final: bool)
    requires Sound(s) && Labelled(s.journal.ledger, s.journal.streams) && (text != "" || final)
    ensures var r := RecordText(s.journal, kind, call, name, text, final); Labelled(r.ledger, r.streams)
  {
    var t := Taking(s.journal, kind, call, name, text, final);
    OpenedLabelled(s.journal, s.told, kind, call, name);
    TakenLabelled(Opened(s.journal, kind, call, name), Find(s.journal.streams, kind, call, 0), text, final);
    assert Distinct(t.streams) by {
      TakingSound(s, kind, call, name, text, final);
    }
    FlushLabelled(t);
  }

  lemma LogLabelled(ledger: seq<Record>, e: Record, streams: seq<Stream>)
    requires Labelled(ledger, streams) && !e.Checkpoint?
    ensures Labelled(ledger + [e], streams)
  {
  }

  lemma StepLabelled(s: System, step: Step)
    requires Invariant(s) && Labelled(s.journal.ledger, s.journal.streams)
    ensures Labelled(Next(s, step).journal.ledger, Next(s, step).journal.streams)
  {
    var j := s.journal;
    FlushLabelled(j);
    match step
    case Says(kind, call, name, text) =>
      if text != "" {
        RecordLabelled(s, kind, call, name, text, false);
      }
    case EndsTool(call, name, result) => RecordLabelled(s, Tool, call, name, result, true);
    case StartsOrEndsChat => OnlyLabelled(Flush(j).ledger, Flush(j).streams, Nothing);
    case InterruptsAssistant => OnlyLabelled(Flush(j).ledger, Flush(j).streams, Tools);
    case Commits(role) =>
      OnlyLabelled(Flush(j).ledger, Flush(j).streams, Unacknowledged(role));
      LogLabelled(Flush(j).ledger, Committed(MatchedIds(j, role)),
                  Select(Flush(j).streams, Unacknowledged(role), |j.streams|));
    case Closes => OnlyLabelled(Flush(j).ledger, Flush(j).streams, Nothing);
    case Fires(_) =>
    case Others => LogLabelled(j.ledger, Other, j.streams);
  }

  /** In every run a stream's checkpoints carry its kind and the name under which it was opened. */
  lemma {:induction false} CheckpointsLabelled(s: System, steps: seq<Step>)
    requires Begins(s)
    ensures Labelled(Run(s, steps).journal.ledger, Run(s, steps).journal.streams)
  {
    if steps != [] {
      var front := steps[..|steps| - 1];
      CheckpointsLabelled(s, front);
      RunKeeps(s, front);
      StepLabelled(Run(s, front), steps[|steps| - 1]);
    }
  }

  /** A text without an open stream of its kind and call opens one of that kind, call and name; others keep theirs. */
  lemma OpensAsTold(j: Journal, kind: Kind, call: Option<string>, name: string, text: string, final: bool)
    requires text != "" || final
    ensures var r := RecordText(j, kind, call, name, text, final).streams;
      && |j.streams| <= |r|
      && (forall k :: 0 <= k < |j.streams| ==> r[k].id == j.streams[k].id && r[k].name == j.streams[k].name)
      && if exists k :: 0 <= k < |j.streams| && j.streams[k].kind == kind && j.streams[k].call == call
         then |r| == |j.streams|
         else
           && |r| == |j.streams| + 1
           && r[|j.streams|].kind == kind && r[|j.streams|].call == call && r[|j.streams|].name == name
  {
    if i :| 0 <= i < |j.streams| && j.streams[i].kind == kind && j.streams[i].call == call {
      assert HasKey(j.streams[i], kind, call);
    }
    var r, o := RecordText(j, kind, call, name, text, final).streams, Opened(j, kind, call, name).streams;
    RecordKeys(j, kind, call, name, text, final);
    assert forall k :: 0 <= k < |r| ==> SameKey(r[k], o[k]);
  }
}
