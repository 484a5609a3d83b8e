/**
  The append-only history ledger (reuleauxcoder/domain/history.py): sequence numbers,
  the sink files it is bound to, the buffer for events that have no sink yet and the
  batches that write a message together with its semantic event.

  Sinks do not fail here. A written line carries the path it went to.
 */
module HistoryLedger {
  import opened Prelude

  /** `about` is the number of the event that this one refers to by id. */
  datatype Event = Event(
    seqNo: int, kind: string, generation: int, session: Option<string>, agent: Option<string>, about: Option<int>)

  datatype Line = Line(path: string, event: Event)

  datatype Ledger = Ledger(
    events: seq<Event>, nextSeq: int, generation: int,
    path: Option<string>, session: Option<string>, agent: Option<string>,
    depth: nat, pending: seq<Event>, unbound: seq<Event>, written: seq<Line>)

  // ----- Loading -----

  function Max(a: int, b: int): int {
    if a >= b then a else b
  }

  predicate Sorted(es: seq<Event>) {
    forall i, j :: 0 <= i < j < |es| ==> es[i].seqNo <= es[j].seqNo
  }

  /** Insertion behind equal numbers, so that the order is stable. */
  function Insert(es: seq<Event>, e: Event): seq<Event> {
    if es == [] || es[|es| - 1].seqNo <= e.seqNo then es + [e]
    else Insert(es[..|es| - 1], e) + [es[|es| - 1]]
  }

  function SortBySeq(es: seq<Event>): seq<Event> {
    if es == [] then [] else Insert(SortBySeq(es[..|es| - 1]), es[|es| - 1])
  }

  lemma {:induction false} InsertPermutes(es: seq<Event>, e: Event)
    ensures multiset(Insert(es, e)) == multiset(es) + multiset{e}
  {
    if es != [] && es[|es| - 1].seqNo > e.seqNo {
      InsertPermutes(es[..|es| - 1], e);
      assert es == es[..|es| - 1] + [es[|es| - 1]];
    }
  }

  predicate AtMost(es: seq<Event>, top: int) {
    forall i :: 0 <= i < |es| ==> es[i].seqNo <= top
  }

  lemma {:induction false} InsertSorts(es: seq<Event>, e: Event, top: int)
    requires Sorted(es) && AtMost(es, top) && e.seqNo <= top
    ensures Sorted(Insert(es, e)) && AtMost(Insert(es, e), top)
  {
    if es != [] && es[|es| - 1].seqNo > e.seqNo {
      InsertSorts(es[..|es| - 1], e, es[|es| - 1].seqNo);
    }
  }

  lemma {:induction false} SortPermutes(es: seq<Event>)
    ensures multiset(SortBySeq(es)) == multiset(es)
  {
    if es != [] {
      SortPermutes(es[..|es| - 1]);
      InsertPermutes(SortBySeq(es[..|es| - 1]), es[|es| - 1]);
      assert es == es[..|es| - 1] + [es[|es| - 1]];
    }
  }

  lemma {:induction false} SortSorts(es: seq<Event>)
    ensures Sorted(SortBySeq(es))
  {
    if es != [] {
      SortSorts(es[..|es| - 1]);
      InsertAnywhere(SortBySeq(es[..|es| - 1]), es[|es| - 1]);
    }
  }

  lemma InsertAnywhere(es: seq<Event>, e: Event)
    requires Sorted(es)
    ensures Sorted(Insert(es, e))
  {
    var top := if es == [] then e.seqNo else Max(es[|es| - 1].seqNo, e.seqNo);
    assert AtMost(es, top);
    InsertSorts(es, e, top);
  }

  /** The highest number among the events; 0 when there is none. */
  function HighestSeq(es: seq<Event>): int {
    if es == [] then 0
    else if |es| == 1 then es[0].seqNo
    else Max(HighestSeq(es[..|es| - 1]), es[|es| - 1].seqNo)
  }

  lemma {:induction false} HighestIsBound(es: seq<Event>)
    ensures forall i :: 0 <= i < |es| ==> es[i].seqNo <= HighestSeq(es)
    ensures es != [] ==> exists i :: 0 <= i < |es| && es[i].seqNo == HighestSeq(es)
  {
    if |es| > 1 {
      var front := es[..|es| - 1];
      HighestIsBound(front);
      var i :| 0 <= i < |front| && front[i].seqNo == HighestSeq(front);
      assert es[i] == front[i];
      assert es[|es| - 1].seqNo <= HighestSeq(es);
    } else if es != [] {
      assert es[0].seqNo == HighestSeq(es);
    }
  }

  /** The constructor; a negative floor is refused by it. */
  function Load(loaded: seq<Event>, floor: nat, generation: int,
                path: Option<string>, session: Option<string>, agent: Option<string>): Ledger
  {
    Ledger(SortBySeq(loaded), Max(HighestSeq(SortBySeq(loaded)), floor) + 1, generation,
           path, session, agent, 0, [], [], [])
  }

  // ----- Operations -----

  function Lines(path: string, es: seq<Event>): (r: seq<Line>)
    ensures |r| == |es| && forall i :: 0 <= i < |r| ==> r[i] == Line(path, es[i])
  {
    seq(|es|, i requires 0 <= i < |es| => Line(path, es[i]))
  }

  /** `_write_sink_events`. */
  function WriteSink(l: Ledger, es: seq<Event>): Ledger {
    if l.path.None? then l else l.(written := l.written + Lines(l.path.value, es))
  }

  /** `_append_to_sink`. */
  function ToSink(l: Ledger, e: Event): Ledger {
    if l.path.None? then l.(unbound := l.unbound + [e])
    else if l.depth > 0 then l.(pending := l.pending + [e])
    else WriteSink(l, [e])
  }

  function Made(l: Ledger, kind: string, agent: Option<string>, about: Option<int>): Event {
    Event(l.nextSeq, kind, l.generation, l.session, if agent.Some? && agent.value != "" then agent else l.agent, about)
  }

  function Append(l: Ledger, kind: string, agent: Option<string>, about: Option<int>): Ledger {
    var e := Made(l, kind, agent, about);
    ToSink(l.(nextSeq := l.nextSeq + 1, events := l.events + [e]), e)
  }

  function OpenBatch(l: Ledger): Ledger {
    l.(depth := l.depth + 1)
  }

  function CloseBatch(l: Ledger): Ledger
    requires l.depth > 0
  {
    var c := l.(depth := l.depth - 1);
    if c.depth == 0 && c.pending != [] then WriteSink(c, c.pending).(pending := []) else c
  }

  /** What decides the kind of a message's semantic event. */
  datatype Message = Message(role: string, content: string, synthetic: bool, toolCalls: bool)

  predicate StartsWith(s: string, prefix: string) {
    |prefix| <= |s| && s[..|prefix|] == prefix
  }

  function SemanticKind(m: Message, source: string): Option<string> {
    if source == "subagent_result" || source == "subagent_deferred" then Some("subagent_result")
    else if source == "subagent_communication" then Some("subagent_communication")
    else if source == "subagent_conflict" then Some("attention_raised")
    else if source == "session_exit" || source == "session_resume" || StartsWith(m.content, "[SESSION_") then
      Some("session_lifecycle")
    else if m.role == "user" && !m.synthetic then Some("user_message")
    else if m.role == "assistant" then (if m.toolCalls then Some("tool_call") else Some("assistant_response"))
    else if m.role == "tool" then Some("tool_result")
    else None
  }

  function AppendAbout(l: Ledger, kind: Option<string>, agent: Option<string>, about: int): Ledger {
    if kind.None? then l else Append(l, kind.value, agent, Some(about))
  }

  /** A first event and perhaps a second one about it, in one batch. */
  function AppendPair(l: Ledger, first: string, second: Option<string>, agent: Option<string>): Ledger {
    var a := Append(OpenBatch(l), first, agent, None);
    CloseBatch(AppendAbout(a, second, agent, l.nextSeq))
  }

  function AppendMessage(l: Ledger, m: Message, source: string, agent: Option<string>): Ledger {
    AppendPair(l, "message_committed", SemanticKind(m, source), agent)
  }

  function AppendContextView(l: Ledger, checkpoint: bool): Ledger {
    AppendPair(l, "context_view_committed", if checkpoint then Some("context_checkpoint") else None, None)
  }

  /** A negative floor is refused. */
  function RaiseFloor(l: Ledger, floor: int): Ledger {
    if 0 <= floor && floor >= l.nextSeq then l.(nextSeq := floor + 1) else l
  }

  function Bind(l: Ledger, path: string): Ledger {
    WriteSink(l.(path := Some(path)), l.unbound).(unbound := [])
  }

  function Unbind(l: Ledger): Ledger {
    l.(path := None, pending := [])
  }

  // ----- The ledger itself -----

  class HistoryLedger {
    var events: seq<Event>
    var nextSeq: int
    var generation: int
    var path: Option<string>
    var session: Option<string>
    var agent: Option<string>
    var depth: nat
    var pending: seq<Event>
    var unbound: seq<Event>
    var written: seq<Line>

    function View(): Ledger
      reads this
    {
      Ledger(events, nextSeq, generation, path, session, agent, depth, pending, unbound, written)
    }

    constructor (loaded: seq<Event>, floor: nat, generation: int,
                 path: Option<string>, session: Option<string>, agent: Option<string>)
      ensures View() == Load(loaded, floor, generation, path, session, agent)
    {
      events := SortBySeq(loaded);
      nextSeq := Max(HighestSeq(SortBySeq(loaded)), floor) + 1;
      this.generation, this.path, this.session, this.agent := generation, path, session, agent;
      depth, pending, unbound, written := 0, [], [], [];
    }

    method WriteSinkEvents(es: seq<Event>)
      modifies this`written
      ensures View() == WriteSink(old(View()), es)
    {
      if path.None? || es == [] {
        assert path.Some? ==> written + Lines(path.value, es) == written;
        return;
      }
      var i := 0;
      ghost var before := written;
      while i < |es|
        invariant 0 <= i <= |es| && written == before + Lines(path.value, es)[..i]
      {
        written := written + [Line(path.value, es[i])];
        i := i + 1;
      }
    }

    method AppendEvent(kind: string, author: Option<string>, about: Option<int>) returns (e: Event)
      modifies this
      ensures e == Made(old(View()), kind, author, about)
      ensures View() == Append(old(View()), kind, author, about)
      ensures about.None? ==> forall n :: Invariant(old(View()), n) ==> Invariant(View(), n)
    {
      ghost var before := View();
      forall n: nat | Invariant(before, n) ensures Invariant(Append(before, kind, author, None), n) {
        AppendKeeps(before, n, kind, author);
      }
      e := Made(View(), kind, author, about);
      nextSeq := nextSeq + 1;
      events := events + [e];
      if path.None? {
        unbound := unbound + [e];
      } else if depth > 0 {
        pending := pending + [e];
      } else {
        WriteSinkEvents([e]);
      }
    }

    /** The end of `_batch_sink_writes`. */
    method EndBatch()
      requires depth > 0
      modifies this
      ensures View() == CloseBatch(old(View()))
    {
      depth := depth - 1;
      if depth == 0 && pending != [] {
        WriteSinkEvents(pending);
        pending := [];
      }
    }

    /** The batch that `append_message` and `append_context_view` share. */
    method AppendBatch(first: string, second: Option<string>, author: Option<string>) returns (e: Event)
      modifies this
      ensures View() == AppendPair(old(View()), first, second, author)
      ensures e.seqNo == old(nextSeq) && e.kind == first
    {
      ghost var before := View();
      depth := depth + 1;
      assert View() == OpenBatch(before);
      e := AppendEvent(first, author, None);
      ghost var one := View();
      AppendAboutEvent(second, author, e.seqNo);
      ghost var two := View();
      PairUnfolds(before, one, two, first, second, author);
      EndBatch();
    }

    method AppendAboutEvent(kind: Option<string>, author: Option<string>, about: int)
      modifies this
      ensures View() == AppendAbout(old(View()), kind, author, about)
    {
      if kind.Some? {
        var _ := AppendEvent(kind.value, author, Some(about));
      }
    }

    method CommitMessage(m: Message, source: string, author: Option<string>) returns (e: Event)
      modifies this
      ensures View() == AppendMessage(old(View()), m, source, author)
      ensures e.seqNo == old(nextSeq) && e.kind == "message_committed"
      ensures forall n :: Invariant(old(View()), n) ==> Invariant(View(), n)
    {
      ghost var before := View();
      forall n: nat | Invariant(before, n) ensures Invariant(Next(before, Messages(m, source, author)), n) {
        StepKeeps(before, n, Messages(m, source, author));
      }
      e := AppendBatch("message_committed", SemanticKind(m, source), author);
    }

    method CommitContextView(checkpoint: bool) returns (e: Event)
      modifies this
      ensures View() == AppendContextView(old(View()), checkpoint)
      ensures e.seqNo == old(nextSeq) && e.kind == "context_view_committed"
      ensures forall n :: Invariant(old(View()), n) ==> Invariant(View(), n)
    {
      ghost var before := View();
      forall n: nat | Invariant(before, n) ensures Invariant(Next(before, Views(checkpoint)), n) {
        StepKeeps(before, n, Views(checkpoint));
      }
      e := AppendBatch("context_view_committed", if checkpoint then Some("context_checkpoint") else None, None);
    }

    method BindJsonl(file: string)
      modifies this
      ensures View() == Bind(old(View()), file)
      ensures forall n :: Invariant(old(View()), n) ==> Invariant(View(), n)
    {
      ghost var before := View();
      forall n: nat | Invariant(before, n) ensures Invariant(Next(before, Binds(file)), n) {
        StepKeeps(before, n, Binds(file));
      }
      path := Some(file);
      if unbound != [] {
        WriteSinkEvents(unbound);
        unbound := [];
      } else {
        assert written + Lines(file, unbound) == written;
      }
    }

    method UnbindJsonl()
      modifies this
      ensures View() == Unbind(old(View()))
      ensures forall n :: Invariant(old(View()), n) ==> Invariant(View(), n)
    {
      ghost var before := View();
      forall n: nat | Invariant(before, n) ensures Invariant(Next(before, Unbinds), n) {
        StepKeeps(before, n, Unbinds);
      }
      path := None;
      pending := [];
    }

    method RaiseSeqFloor(floor: int) returns (accepted: bool)
      modifies this
      ensures View() == RaiseFloor(old(View()), floor)
      ensures accepted <==> floor >= 0
      ensures forall n :: Invariant(old(View()), n) ==> Invariant(View(), n)
    {
      ghost var before := View();
      forall n: nat | Invariant(before, n) ensures Invariant(Next(before, Raises(floor)), n) {
        StepKeeps(before, n, Raises(floor));
      }
      if floor < 0 {
        return false;
      }
      if floor >= nextSeq {
        nextSeq := floor + 1;
      }
      return true;
    }
  }

  // ----- A batch writes what single appends write -----

  lemma PairUnfolds(l: Ledger, one: Ledger, two: Ledger, first: string, second: Option<string>, agent: Option<string>)
    requires one == Append(OpenBatch(l), first, agent, None) && two == AppendAbout(one, second, agent, l.nextSeq)
    ensures two.depth == l.depth + 1 && CloseBatch(two) == AppendPair(l, first, second, agent)
  {
  }

  predicate Idle(l: Ledger) {
    l.depth == 0 && l.pending == []
  }

  lemma LinesPair(path: string, a: Event, b: Event)
    ensures Lines(path, [a, b]) == Lines(path, [a]) + Lines(path, [b])
  {
  }

  lemma SingleIsAppend(l: Ledger, first: string, agent: Option<string>)
    requires Idle(l)
    ensures AppendPair(l, first, None, agent) == Append(l, first, agent, None)
  {
    assert [] + [Made(l, first, agent, None)] == [Made(l, first, agent, None)];
  }

  lemma WrittenPair(written: seq<Line>, path: string, a: Event, b: Event)
    ensures written + Lines(path, [a, b]) == (written + Lines(path, [a])) + Lines(path, [b])
  {
    LinesPair(path, a, b);
  }

  lemma PairIsAppends(l: Ledger, first: string, second: string, agent: Option<string>)
    requires Idle(l)
    ensures AppendPair(l, first, Some(second), agent)
            == Append(Append(l, first, agent, None), second, agent, Some(l.nextSeq))
  {
    var a := Made(l, first, agent, None);
    var b := Made(Append(l, first, agent, None), second, agent, Some(l.nextSeq));
    if l.path.Some? {
      var batched := Append(Append(OpenBatch(l), first, agent, None), second, agent, Some(l.nextSeq));
      assert batched.pending == [a, b];
      WrittenPair(l.written, l.path.value, a, b);
    }
  }

  // ----- All runs -----

  datatype Step =
    | Appends(kind: string, agent: Option<string>)
    | Messages(m: Message, source: string, agent: Option<string>)
    | Views(checkpoint: bool)
    | Raises(floor: int)
    | Binds(path: string)
    | Unbinds
    | Advances(generation: int)
    | Attributes(session: Option<string>, agent: Option<string>)

  function Next(l: Ledger, step: Step): Ledger {
    match step
    case Appends(kind, agent) => Append(l, kind, agent, None)
    case Messages(m, source, agent) => AppendMessage(l, m, source, agent)
    case Views(checkpoint) => AppendContextView(l, checkpoint)
    case Raises(floor) => RaiseFloor(l, floor)
    case Binds(path) => Bind(l, path)
    case Unbinds => Unbind(l)
    case Advances(generation) => l.(generation := generation)
    case Attributes(session, agent) =>
      l.(session := if session.Some? then session else l.session, agent := if agent.Some? then agent else l.agent)
  }

  function Run(l: Ledger, steps: seq<Step>): Ledger {
    if steps == [] then l else Next(Run(l, steps[..|steps| - 1]), steps[|steps| - 1])
  }

  function Events(lines: seq<Line>): (r: seq<Event>)
    ensures |r| == |lines| && forall i :: 0 <= i < |r| ==> r[i] == lines[i].event
  {
    seq(|lines|, i requires 0 <= i < |lines| => lines[i].event)
  }

  /** Nothing appended since loading is lost, repeated or moved. */
  ghost predicate Conserved(l: Ledger, n: nat) {
    && n <= |l.events|
    && Events(l.written) + l.unbound == l.events[n..]
    && (l.path.Some? ==> l.unbound == [])
  }

  /** Appended numbers increase strictly, above all loaded ones. */
  predicate Numbered(l: Ledger, n: nat) {
    && (forall i, j :: 0 <= i < j < |l.events| && n <= j ==> l.events[i].seqNo < l.events[j].seqNo)
    && (forall i :: 0 <= i < |l.events| ==> l.events[i].seqNo < l.nextSeq)
  }

  predicate RefersBack(es: seq<Event>, n: nat, j: nat)
    requires j < |es|
  {
    es[j].about.Some? ==> n < j && es[j - 1].seqNo == es[j].about.value == es[j].seqNo - 1 && es[j - 1].about.None?
  }

  /** An event about another one directly follows it. */
  predicate Paired(l: Ledger, n: nat) {
    forall j :: n <= j < |l.events| ==> RefersBack(l.events, n, j)
  }

  ghost predicate Invariant(l: Ledger, n: nat) {
    Idle(l) && Conserved(l, n) && Numbered(l, n) && Paired(l, n)
  }

  lemma AppendConserves(l: Ledger, n: nat, kind: string, agent: Option<string>, about: Option<int>)
    requires Idle(l) && Conserved(l, n)
    ensures Idle(Append(l, kind, agent, about)) && Conserved(Append(l, kind, agent, about), n)
  {
    var e := Made(l, kind, agent, about);
    var a := Append(l, kind, agent, about);
    assert a.events[n..] == l.events[n..] + [e];
    if l.path.Some? {
      assert Events(a.written) == Events(l.written) + [e];
      assert Events(a.written) + [] == Events(a.written);
      assert Events(l.written) + [] == Events(l.written);
    } else {
      assert Events(l.written) + (l.unbound + [e]) == (Events(l.written) + l.unbound) + [e];
    }
  }

  lemma AppendNumbers(l: Ledger, n: nat, kind: string, agent: Option<string>, about: Option<int>)
    requires Numbered(l, n) && n <= |l.events|
    ensures Numbered(Append(l, kind, agent, about), n)
  {
  }

  lemma AppendPairs(l: Ledger, n: nat, kind: string, agent: Option<string>, about: Option<int>)
    requires Paired(l, n) && n <= |l.events|
    requires about.Some? ==>
      && n < |l.events| && l.events[|l.events| - 1].seqNo == about.value == l.nextSeq - 1
      && l.events[|l.events| - 1].about.None?
    ensures Paired(Append(l, kind, agent, about), n)
  {
    var a := Append(l, kind, agent, about);
    assert a.events == l.events + [Made(l, kind, agent, about)];
    forall j | n <= j < |a.events| ensures RefersBack(a.events, n, j) {
      if j < |l.events| {
        assert RefersBack(l.events, n, j);
      }
    }
  }

  lemma AppendKeeps(l: Ledger, n: nat, kind: string, agent: Option<string>)
    requires Invariant(l, n)
    ensures Invariant(Append(l, kind, agent, None), n)
  {
    AppendConserves(l, n, kind, agent, None);
    AppendNumbers(l, n, kind, agent, None);
    AppendPairs(l, n, kind, agent, None);
  }

  lemma PairKeeps(l: Ledger, n: nat, first: string, second: Option<string>, agent: Option<string>)
    requires Invariant(l, n)
    ensures Invariant(AppendPair(l, first, second, agent), n)
  {
    var a := Append(l, first, agent, None);
    AppendKeeps(l, n, first, agent);
    if second.None? {
      SingleIsAppend(l, first, agent);
    } else {
      PairIsAppends(l, first, second.value, agent);
      assert a.events == l.events + [Made(l, first, agent, None)];
      AppendConserves(a, n, second.value, agent, Some(l.nextSeq));
      AppendNumbers(a, n, second.value, agent, Some(l.nextSeq));
      AppendPairs(a, n, second.value, agent, Some(l.nextSeq));
    }
  }

  lemma BindKeeps(l: Ledger, n: nat, path: string)
    requires Invariant(l, n)
    ensures Invariant(Bind(l, path), n)
  {
    var b := Bind(l, path);
    assert Events(b.written) == Events(l.written) + l.unbound;
    assert Events(b.written) + [] == Events(b.written);
  }

  lemma StepKeeps(l: Ledger, n: nat, step: Step)
    requires Invariant(l, n)
    ensures Invariant(Next(l, step), n)
  {
    match step
    case Appends(kind, agent) => AppendKeeps(l, n, kind, agent);
    case Messages(m, source, agent) => PairKeeps(l, n, "message_committed", SemanticKind(m, source), agent);
    case Views(checkpoint) =>
      PairKeeps(l, n, "context_view_committed", if checkpoint then Some("context_checkpoint") else None, None);
    case Binds(path) => BindKeeps(l, n, path);
    case _ =>
  }

  lemma LoadBegins(loaded: seq<Event>, floor: nat, generation: int,
                   path: Option<string>, session: Option<string>, agent: Option<string>)
    ensures var l := Load(loaded, floor, generation, path, session, agent);
      && Invariant(l, |l.events|) && Sorted(l.events) && multiset(l.events) == multiset(loaded)
      && l.nextSeq > floor && (l.nextSeq == floor + 1 || exists e :: e in l.events && e.seqNo == l.nextSeq - 1)
  {
    SortSorts(loaded);
    SortPermutes(loaded);
    HighestIsBound(SortBySeq(loaded));
  }

  /** Every run keeps the ledger, the sinks and the buffer in step. */
  lemma {:induction false} RunKeeps(l: Ledger, n: nat, steps: seq<Step>)
    requires Invariant(l, n)
    ensures Invariant(Run(l, steps), n)
  {
    if steps != [] {
      RunKeeps(l, n, steps[..|steps| - 1]);
      StepKeeps(Run(l, steps[..|steps| - 1]), n, steps[|steps| - 1]);
    }
  }

  /** Appending only adds at the end, with numbers from the counter on. */
  ghost predicate Extends(l: Ledger, m: Ledger) {
    && l.events <= m.events && l.written <= m.written && l.nextSeq <= m.nextSeq
    && forall i :: |l.events| <= i < |m.events| ==> m.events[i].seqNo >= l.nextSeq
  }

  lemma StepExtends(l: Ledger, step: Step)
    requires Idle(l)
    ensures Extends(l, Next(l, step))
  {
    match step
    case Messages(m, source, agent) => PairExtends(l, "message_committed", SemanticKind(m, source), agent);
    case Views(checkpoint) =>
      PairExtends(l, "context_view_committed", if checkpoint then Some("context_checkpoint") else None, None);
    case _ =>
  }

  lemma PairExtends(l: Ledger, first: string, second: Option<string>, agent: Option<string>)
    requires Idle(l)
    ensures Extends(l, AppendPair(l, first, second, agent))
  {
    if second.None? {
      SingleIsAppend(l, first, agent);
    } else {
      PairIsAppends(l, first, second.value, agent);
    }
  }

  /** Every event after a point of a run is numbered above all that was used or reserved before it. */
  lemma {:induction false} LaterEventsAbove(l: Ledger, n: nat, steps: seq<Step>, k: nat)
    requires Invariant(l, n) && k <= |steps|
    ensures Extends(Run(l, steps[..k]), Run(l, steps))
    decreases |steps|
  {
    assert steps[..|steps|] == steps;
    if k < |steps| {
      var shorter := steps[..|steps| - 1];
      assert shorter[..k] == steps[..k];
      LaterEventsAbove(l, n, shorter, k);
      RunKeeps(l, n, shorter);
      StepExtends(Run(l, shorter), steps[|steps| - 1]);
    }
  }

  /** A raised floor holds for every later event. */
  lemma FloorHolds(l: Ledger, n: nat, steps: seq<Step>, k: nat)
    requires Invariant(l, n) && k < |steps| && steps[k].Raises? && steps[k].floor >= 0
    ensures var before, after := Run(l, steps[..k]), Run(l, steps);
      |before.events| <= |after.events|
      && forall i :: |before.events| <= i < |after.events| ==> after.events[i].seqNo > steps[k].floor
  {
    assert steps[..k + 1][..k] == steps[..k];
    LaterEventsAbove(l, n, steps, k + 1);
  }

  /** A sink file holds its events in strictly increasing order, so none twice. */
  lemma SinkIncreases(l: Ledger, n: nat, steps: seq<Step>, i: nat, j: nat)
    requires Invariant(l, n) && i < j < |Run(l, steps).written|
    ensures Run(l, steps).written[i].event.seqNo < Run(l, steps).written[j].event.seqNo
  {
    var m := Run(l, steps);
    RunKeeps(l, n, steps);
    assert (Events(m.written) + m.unbound)[i] == m.events[n..][i];
    assert (Events(m.written) + m.unbound)[j] == m.events[n..][j];
  }

  // ----- The ledger as a plain book -----

  /** The same content without batches: each event goes at once to the file bound, or waits for one. */
  datatype Book = Book(
    generation: int, session: Option<string>, agent: Option<string>, path: Option<string>,
    counter: int, events: seq<Event>, written: seq<Line>, waiting: seq<Event>)

  function BookOf(l: Ledger): Book {
    Book(l.generation, l.session, l.agent, l.path, l.nextSeq, l.events, l.written, l.unbound)
  }

  function Enter(b: Book, kind: string, agent: Option<string>, about: Option<int>): Book {
    var author := if agent == None || agent == Some("") then b.agent else agent;
    var e := Event(b.counter, kind, b.generation, b.session, author, about);
    b.(counter := b.counter + 1, events := b.events + [e],
       written := if b.path.Some? then b.written + [Line(b.path.value, e)] else b.written,
       waiting := if b.path.None? then b.waiting + [e] else b.waiting)
  }

  /** An event and the one that tells what it means. */
  function EnterBoth(b: Book, first: string, second: Option<string>, agent: Option<string>): Book {
    var one := Enter(b, first, agent, None);
    if second.None? then one else Enter(one, second.value, agent, Some(b.counter))
  }

  function Booked(b: Book, step: Step): Book {
    match step
    case Appends(kind, agent) => Enter(b, kind, agent, None)
    case Messages(m, source, agent) => EnterBoth(b, "message_committed", SemanticKind(m, source), agent)
    case Views(checkpoint) =>
      if checkpoint then EnterBoth(b, "context_view_committed", Some("context_checkpoint"), None)
      else Enter(b, "context_view_committed", None, None)
    case Raises(floor) => if floor >= 0 && floor >= b.counter then b.(counter := floor + 1) else b
    case Binds(path) =>
      b.(path := Some(path), written := b.written + Lines(path, b.waiting), waiting := [])
    case Unbinds => b.(path := None)
    case Advances(generation) => b.(generation := generation)
    case Attributes(session, agent) =>
      b.(session := if session == None then b.session else session, agent := if agent == None then b.agent else agent)
  }

  function BookedAll(b: Book, steps: seq<Step>): Book {
    if steps == [] then b else Booked(BookedAll(b, steps[..|steps| - 1]), steps[|steps| - 1])
  }

  lemma AppendIsEnter(l: Ledger, kind: string, agent: Option<string>, about: Option<int>)
    requires Idle(l)
    ensures Idle(Append(l, kind, agent, about))
    ensures BookOf(Append(l, kind, agent, about)) == Enter(BookOf(l), kind, agent, about)
  {
    var e := Made(l, kind, agent, about);
    assert l.path.Some? ==> Lines(l.path.value, [e]) == [Line(l.path.value, e)];
  }

  lemma PairIsEnterBoth(l: Ledger, first: string, second: Option<string>, agent: Option<string>)
    requires Idle(l)
    ensures Idle(AppendPair(l, first, second, agent))
    ensures BookOf(AppendPair(l, first, second, agent)) == EnterBoth(BookOf(l), first, second, agent)
  {
    AppendIsEnter(l, first, agent, None);
    if second.None? {
      SingleIsAppend(l, first, agent);
    } else {
      PairIsAppends(l, first, second.value, agent);
      AppendIsEnter(Append(l, first, agent, None), second.value, agent, Some(l.nextSeq));
    }
  }

  lemma StepIsBooked(l: Ledger, step: Step)
    requires Idle(l)
    ensures Idle(Next(l, step)) && BookOf(Next(l, step)) == Booked(BookOf(l), step)
  {
    match step
    case Appends(kind, agent) => AppendIsEnter(l, kind, agent, None);
    case Messages(m, source, agent) => PairIsEnterBoth(l, "message_committed", SemanticKind(m, source), agent);
    case Views(checkpoint) =>
      PairIsEnterBoth(l, "context_view_committed", if checkpoint then Some("context_checkpoint") else None, None);
    case _ =>
  }

  /** Over every run the batched ledger and its sinks hold what the plain book holds. */
  lemma {:induction false} RunIsBook(l: Ledger, steps: seq<Step>)
    requires Idle(l)
    ensures Idle(Run(l, steps)) && BookOf(Run(l, steps)) == BookedAll(BookOf(l), steps)
  {
    if steps != [] {
      RunIsBook(l, steps[..|steps| - 1]);
      StepIsBooked(Run(l, steps[..|steps| - 1]), steps[|steps| - 1]);
    }
  }

  // ----- What a message means -----

  /** The message comes from the session or from a sub-agent, and its source decides. */
  predicate BySource(m: Message, source: string) {
    || source in ["subagent_result", "subagent_deferred", "subagent_communication", "subagent_conflict",
                  "session_exit", "session_resume"]
    || "[SESSION_" <= m.content
  }

  /** Every kind of semantic event and the messages it is recorded for; none for the others. */
  lemma SemanticKindIff(m: Message, source: string)
    ensures var kind := SemanticKind(m, source);
      && (kind == Some("subagent_result") <==> source in ["subagent_result", "subagent_deferred"])
      && (kind == Some("subagent_communication") <==> source == "subagent_communication")
      && (kind == Some("attention_raised") <==> source == "subagent_conflict")
      && (kind == Some("session_lifecycle") <==>
            && source !in ["subagent_result", "subagent_deferred", "subagent_communication", "subagent_conflict"]
            && (source in ["session_exit", "session_resume"] || "[SESSION_" <= m.content))
      && (kind == Some("user_message") <==> !BySource(m, source) && m.role == "user" && !m.synthetic)
      && (kind == Some("tool_call") <==> !BySource(m, source) && m.role == "assistant" && m.toolCalls)
      && (kind == Some("assistant_response") <==> !BySource(m, source) && m.role == "assistant" && !m.toolCalls)
      && (kind == Some("tool_result") <==> !BySource(m, source) && m.role == "tool")
      && (kind == None <==>
            && !BySource(m, source) && m.role != "assistant" && m.role != "tool"
            && (m.role == "user" ==> m.synthetic))
  {
  }
}
