/**
  The approval coordinator: a FIFO queue with one human-review focus, session-grant
  release and cancellation (reuleauxcoder/domain/approval.py:182-212 and 321-476).

  `Coordinator` holds the queue and its methods are the sections that run under the
  coordinator's condition. A `Step` is one such section or one action of a handler,
  so a run of steps is an interleaving of requests.
 */
module ApprovalQueue {
  import opened Prelude
  import opened ApprovalPolicy

  datatype Request = Request(id: string, context: Context)

  datatype Decision = AllowOnce | AllowSession(grant: Option<Grant>) | DenyOnce(reason: string)

  /** How a request ends: with a decision, or with the handler's interrupt. */
  datatype Outcome = Decided(decision: Decision) | Raised

  datatype Phase =
    | Waiting
    | Presented
    | Granting(decision: Decision)
    | Leaving(outcome: Outcome)
    | Returned(outcome: Outcome)

  /** A pending approval; its event is set once it has a resolution, and the last resolution is its decision. */
  datatype Pending = Pending(request: Request, phase: Phase, resolutions: seq<Decision>, position: nat, waiting: nat)

  /** Pending approvals are numbered in order of arrival; `shown` logs the presentations. */
  datatype System = System(pendings: seq<Pending>, queue: seq<nat>, shown: seq<nat>)

  // ----- The locked sections, on values -----

  predicate InRange(s: System) {
    forall k :: 0 <= k < |s.queue| ==> s.queue[k] < |s.pendings|
  }

  function SetPhase(s: System, p: nat, phase: Phase): System
    requires p < |s.pendings|
  {
    s.(pendings := s.pendings[p := s.pendings[p].(phase := phase)])
  }

  /** `_refresh_queue_status_locked`, for the first `n` queued requests. */
  function RefreshTo(pendings: seq<Pending>, queue: seq<nat>, n: nat): (r: seq<Pending>)
    requires n <= |queue| && forall k :: 0 <= k < |queue| ==> queue[k] < |pendings|
    ensures |r| == |pendings|
  {
    if n == 0 then pendings
    else
      var before := RefreshTo(pendings, queue, n - 1);
      before[queue[n - 1] := before[queue[n - 1]].(position := n, waiting := |queue| - n)]
  }

  function Refresh(s: System): System
    requires InRange(s)
  {
    s.(pendings := RefreshTo(s.pendings, s.queue, |s.queue|))
  }

  /** The queue without the members of `gone`. */
  function Without(queue: seq<nat>, gone: set<nat>): seq<nat> {
    KeptOf(queue, |queue|, gone)
  }

  function KeptOf(queue: seq<nat>, n: nat, gone: set<nat>): seq<nat>
    requires n <= |queue|
  {
    if n == 0 then []
    else KeptOf(queue, n - 1, gone) + if queue[n - 1] in gone then [] else [queue[n - 1]]
  }

  function Resolve(p: Pending, d: Decision): Pending {
    p.(resolutions := p.resolutions + [d])
  }

  function ResolveAll(pendings: seq<Pending>, gone: set<nat>, d: Decision): seq<Pending> {
    seq(|pendings|, i requires 0 <= i < |pendings| => if i in gone then Resolve(pendings[i], d) else pendings[i])
  }

  /** The queued requests a test selects. */
  function Selected(s: System, test: Pending -> bool): set<nat>
    requires InRange(s)
  {
    set q | q in s.queue && test(s.pendings[q])
  }

  /** The ids of the selected requests among the first `n` queued ones, in queue order. */
  function SelectedIds(pendings: seq<Pending>, queue: seq<nat>, test: Pending -> bool, n: nat): seq<string>
    requires n <= |queue| && forall k :: 0 <= k < |queue| ==> queue[k] < |pendings|
  {
    if n == 0 then []
    else SelectedIds(pendings, queue, test, n - 1)
         + if test(pendings[queue[n - 1]]) then [pendings[queue[n - 1]].request.id] else []
  }

  /** A grant releases other requests that are not yet resolved and that it covers. */
  function ReleasedBy(granter: Request, grant: Grant): Pending -> bool {
    (p: Pending) => p.request.id != granter.id && p.resolutions == [] && Covers(grant, p.request.context)
  }

  function MatchedBy(matches: Request -> bool): Pending -> bool {
    (p: Pending) => matches(p.request)
  }

  /** Removes `gone` from the queue and resolves its members. */
  function Drop(s: System, gone: set<nat>, d: Decision): System
    requires InRange(s)
  {
    if gone == {} then s
    else
      WithoutIn(s.queue, gone);
      Refresh(s.(queue := Without(s.queue, gone), pendings := ResolveAll(s.pendings, gone, d)))
  }

  function Arrive(s: System, request: Request): System
    requires InRange(s)
  {
    Refresh(s.(pendings := s.pendings + [Pending(request, Waiting, [], 1, 0)], queue := s.queue + [|s.pendings|]))
  }

  /** The `finally` section. */
  function Leave(s: System, p: nat): System
    requires InRange(s)
  {
    WithoutIn(s.queue, {p});
    Refresh(s.(queue := Without(s.queue, {p})))
  }

  // ----- Facts about the queue -----

  predicate Sorted(queue: seq<nat>) {
    forall i, j :: 0 <= i < j < |queue| ==> queue[i] < queue[j]
  }

  lemma {:induction false} KeptIn(queue: seq<nat>, n: nat, gone: set<nat>)
    requires n <= |queue|
    ensures forall x :: x in KeptOf(queue, n, gone) <==> x in queue[..n] && x !in gone
    ensures Sorted(queue) ==> Sorted(KeptOf(queue, n, gone))
  {
    if n > 0 {
      KeptIn(queue, n - 1, gone);
      assert queue[..n] == queue[..n - 1] + [queue[n - 1]];
      var front := KeptOf(queue, n - 1, gone);
      forall k | 0 <= k < |front|
        ensures Sorted(queue) ==> front[k] < queue[n - 1]
      {
        assert front[k] in front;
      }
    }
  }

  lemma WithoutIn(queue: seq<nat>, gone: set<nat>)
    ensures forall x :: x in Without(queue, gone) <==> x in queue && x !in gone
    ensures forall k :: 0 <= k < |Without(queue, gone)| ==> Without(queue, gone)[k] in queue
    ensures Sorted(queue) ==> Sorted(Without(queue, gone))
  {
    KeptIn(queue, |queue|, gone);
    assert queue[..|queue|] == queue;
  }

  lemma {:induction false} KeptPrefix(a: seq<nat>, b: seq<nat>, n: nat, gone: set<nat>)
    requires n <= |a| && a <= b
    ensures KeptOf(a, n, gone) == KeptOf(b, n, gone)
  {
    if n > 0 {
      KeptPrefix(a, b, n - 1, gone);
    }
  }

  lemma {:induction false} WithoutTwice(queue: seq<nat>, n: nat, a: set<nat>, b: set<nat>)
    requires n <= |queue|
    ensures Without(KeptOf(queue, n, a), b) == KeptOf(queue, n, a + b)
  {
    if n > 0 {
      WithoutTwice(queue, n - 1, a, b);
      var front := KeptOf(queue, n - 1, a);
      if queue[n - 1] in a {
        assert KeptOf(queue, n, a) == front;
      } else {
        KeptPrefix(front, front + [queue[n - 1]], |front|, b);
      }
    }
  }

  /** Nobody in front of the head: the head stays unless it is removed itself. */
  lemma HeadStays(queue: seq<nat>, gone: set<nat>)
    requires Sorted(queue) && queue != [] && queue[0] !in gone
    ensures Without(queue, gone) != [] && Without(queue, gone)[0] == queue[0]
  {
    WithoutIn(queue, gone);
    var rest := Without(queue, gone);
    assert queue[0] in rest;
    assert rest[0] in queue;
  }

  /** Refreshing writes exactly the positions. */
  predicate SameBut(a: Pending, b: Pending) {
    a.request == b.request && a.phase == b.phase && a.resolutions == b.resolutions
  }

  lemma {:induction false} RefreshFacts(pendings: seq<Pending>, queue: seq<nat>, n: nat)
    requires n <= |queue| && Sorted(queue) && forall k :: 0 <= k < |queue| ==> queue[k] < |pendings|
    ensures var r := RefreshTo(pendings, queue, n);
            && (forall i :: 0 <= i < |pendings| ==> SameBut(r[i], pendings[i]))
            && (forall k :: 0 <= k < n ==> r[queue[k]].position == k + 1 && r[queue[k]].waiting == |queue| - k - 1)
  {
    if n > 0 {
      RefreshFacts(pendings, queue, n - 1);
    }
  }

  // ----- The coordinator object -----

  class Coordinator {
    var queue: seq<nat>
    var pendings: seq<Pending>
    ghost var shown: seq<nat>

    ghost function View(): System
      reads this
    {
      System(pendings, queue, shown)
    }

    constructor ()
      ensures View() == System([], [], [])
    {
      queue, pendings, shown := [], [], [];
    }

    method RefreshStatus()
      requires InRange(View())
      modifies this`pendings
      ensures View() == Refresh(old(View()))
    {
      var total := |queue|;
      for index := 0 to total
        invariant |pendings| == |old(pendings)|
        invariant pendings == RefreshTo(old(pendings), queue, index)
      {
        var p := queue[index];
        var ahead := total - index - 1;
        pendings := pendings[p := pendings[p].(position := index + 1, waiting := if ahead > 0 then ahead else 0)];
      }
    }

    method Enqueue(request: Request) returns (p: nat)
      requires InRange(View())
      modifies this`pendings, this`queue
      ensures View() == Arrive(old(View()), request) && p == |old(pendings)|
    {
      p := |pendings|;
      pendings := pendings + [Pending(request, Waiting, [], 1, 0)];
      queue := queue + [p];
      RefreshStatus();
    }

    method TakeSelected(test: Pending -> bool, d: Decision) returns (taken: seq<string>)
      requires InRange(View()) && Sorted(queue)
      modifies this`pendings, this`queue
      ensures View() == Drop(old(View()), Selected(old(View()), test), d)
      ensures taken == SelectedIds(old(pendings), old(queue), test, |old(queue)|)
    {
      ghost var before, gone := View(), Selected(View(), test);
      queue, pendings, taken := TakeLoop(queue, pendings, test, d);
      StillInRange(before, gone, d);
      if taken != [] {
        RefreshStatus();
      } else {
        NothingTaken(before, d);
      }
    }

    /** The locked section of `_apply_session_grant`. */
    method ReleaseCovered(granter: Request, grant: Grant) returns (released: seq<string>)
      requires InRange(View()) && Sorted(queue)
      modifies this`pendings, this`queue
      ensures View() == Drop(old(View()), Selected(old(View()), ReleasedBy(granter, grant)), AllowSession(Some(grant)))
      ensures released == SelectedIds(old(pendings), old(queue), ReleasedBy(granter, grant), |old(queue)|)
    {
      released := TakeSelected(ReleasedBy(granter, grant), AllowSession(Some(grant)));
    }

    method CancelMatching(matches: Request -> bool, reason: string) returns (cancelled: seq<string>)
      requires InRange(View()) && Sorted(queue)
      modifies this`pendings, this`queue
      ensures View() == Drop(old(View()), Selected(old(View()), MatchedBy(matches)), DenyOnce(reason))
      ensures cancelled == SelectedIds(old(pendings), old(queue), MatchedBy(matches), |old(queue)|)
    {
      cancelled := TakeSelected(MatchedBy(matches), DenyOnce(reason));
    }

    /** The `finally` section of `request_approval`. */
    method LeaveQueue(p: nat)
      requires InRange(View()) && Sorted(queue)
      modifies this`pendings, this`queue
      ensures View() == Leave(old(View()), p)
    {
      WithoutIn(queue, {p});
      if queue != [] && queue[0] == p {
        PopHead(queue, |queue|);
        assert queue[1..|queue|] == queue[1..];
        queue := queue[1..];
      } else {
        queue := Without(queue, {p});
      }
      RefreshStatus();
    }
  }

  /** The state between the loop and the refresh. */
  function Taken(s: System, gone: set<nat>, d: Decision): System {
    s.(queue := Without(s.queue, gone), pendings := ResolveAll(s.pendings, gone, d))
  }

  lemma StillInRange(s: System, gone: set<nat>, d: Decision)
    requires InRange(s)
    ensures InRange(Taken(s, gone, d))
  {
    WithoutIn(s.queue, gone);
  }

  lemma NothingTaken(s: System, d: Decision)
    ensures Taken(s, {}, d) == s
  {
    WithoutNone(s.queue, |s.queue|);
    assert s.queue[..|s.queue|] == s.queue;
    assert ResolveAll(s.pendings, {}, d) == s.pendings;
  }

  /** The loop of `_apply_session_grant` and of `cancel_matching`, over a snapshot of the queue. */
  method TakeLoop(snapshot: seq<nat>, before: seq<Pending>, test: Pending -> bool, d: Decision)
    returns (queue: seq<nat>, pendings: seq<Pending>, taken: seq<string>)
    requires InRange(System(before, snapshot, [])) && Sorted(snapshot)
    ensures var all := Selected(System(before, snapshot, []), test);
            && queue == Without(snapshot, all) && pendings == ResolveAll(before, all, d)
            && (taken == [] <==> all == {}) && taken == SelectedIds(before, snapshot, test, |snapshot|)
  {
    queue, pendings, taken := snapshot, before, [];
    ghost var gone: set<nat> := {};
    TakingBegins(snapshot, before, test, d);
    for i := 0 to |snapshot|
      invariant Taking(snapshot, before, test, d, i, gone, queue, pendings, taken)
    {
      queue, pendings, taken, gone := TakeNext(snapshot, before, test, d, i, gone, queue, pendings, taken);
    }
    TakingEnds(snapshot, before, test, d, gone, queue, pendings, taken);
  }

  /** The state of the loop after `i` requests of the snapshot. */
  ghost predicate Taking(snapshot: seq<nat>, before: seq<Pending>, test: Pending -> bool, d: Decision, i: nat,
                         gone: set<nat>, queue: seq<nat>, pendings: seq<Pending>, taken: seq<string>)
  {
    && i <= |snapshot| && Marked(snapshot, before, test, i, gone) && Resolved(before, gone, d, pendings)
    && queue == Without(snapshot, gone) && taken == SelectedIds(before, snapshot, test, i)
    && (taken == [] <==> gone == {})
  }

  lemma TakingBegins(snapshot: seq<nat>, before: seq<Pending>, test: Pending -> bool, d: Decision)
    requires InRange(System(before, snapshot, []))
    ensures Taking(snapshot, before, test, d, 0, {}, snapshot, before, [])
  {
    WithoutNone(snapshot, |snapshot|);
    assert snapshot[..|snapshot|] == snapshot;
  }

  lemma TakingEnds(snapshot: seq<nat>, before: seq<Pending>, test: Pending -> bool, d: Decision,
                   gone: set<nat>, queue: seq<nat>, pendings: seq<Pending>, taken: seq<string>)
    requires InRange(System(before, snapshot, []))
    requires Taking(snapshot, before, test, d, |snapshot|, gone, queue, pendings, taken)
    ensures gone == Selected(System(before, snapshot, []), test) && pendings == ResolveAll(before, gone, d)
  {
    SelectedAll(snapshot, before, test, gone);
  }

  /** One request of the snapshot. */
  method TakeNext(snapshot: seq<nat>, ghost before: seq<Pending>, test: Pending -> bool, d: Decision, i: nat,
                  ghost gone: set<nat>, queue: seq<nat>, pendings: seq<Pending>, taken: seq<string>)
    returns (queue': seq<nat>, pendings': seq<Pending>, taken': seq<string>, ghost gone': set<nat>)
    requires Taking(snapshot, before, test, d, i, gone, queue, pendings, taken) && i < |snapshot| && Sorted(snapshot)
    ensures Taking(snapshot, before, test, d, i + 1, gone', queue', pendings', taken')
  {
    queue', pendings', taken', gone' := queue, pendings, taken, gone;
    var q := snapshot[i];
    StillThere(snapshot, before, test, d, i, gone, pendings);
    if test(pendings[q]) {
      MarkOne(snapshot, before, test, d, i, gone, pendings);
      WithoutTwice(snapshot, |snapshot|, gone, {q});
      queue' := Without(queue, {q});
      taken' := taken + [pendings[q].request.id];
      pendings' := pendings[q := Resolve(pendings[q], d)];
      gone' := gone + {q};
    }
  }

  /** Of the first `i` queued requests, the selected ones are gone. */
  ghost predicate Marked(snapshot: seq<nat>, before: seq<Pending>, test: Pending -> bool, i: nat, gone: set<nat>) {
    && (forall k :: 0 <= k < |snapshot| ==> snapshot[k] < |before|)
    && (forall k :: 0 <= k < |snapshot| ==> (snapshot[k] in gone <==> k < i && test(before[snapshot[k]])))
    && (forall p :: p in gone ==> p in snapshot)
  }

  ghost predicate Resolved(before: seq<Pending>, gone: set<nat>, d: Decision, pendings: seq<Pending>) {
    && |pendings| == |before|
    && forall p :: 0 <= p < |before| ==> pendings[p] == if p in gone then Resolve(before[p], d) else before[p]
  }

  /** The next request has not been touched. */
  lemma StillThere(snapshot: seq<nat>, before: seq<Pending>, test: Pending -> bool, d: Decision, i: nat,
                   gone: set<nat>, pendings: seq<Pending>)
    requires Marked(snapshot, before, test, i, gone) && Resolved(before, gone, d, pendings) && i < |snapshot|
    ensures pendings[snapshot[i]] == before[snapshot[i]] && snapshot[i] !in gone
    ensures !test(before[snapshot[i]]) ==> Marked(snapshot, before, test, i + 1, gone)
  {
  }

  lemma MarkOne(snapshot: seq<nat>, before: seq<Pending>, test: Pending -> bool, d: Decision, i: nat,
                gone: set<nat>, pendings: seq<Pending>)
    requires Marked(snapshot, before, test, i, gone) && Resolved(before, gone, d, pendings) && Sorted(snapshot)
    requires i < |snapshot| && test(before[snapshot[i]]) && pendings[snapshot[i]] == before[snapshot[i]]
    ensures Marked(snapshot, before, test, i + 1, gone + {snapshot[i]})
    ensures Resolved(before, gone + {snapshot[i]}, d, pendings[snapshot[i] := Resolve(pendings[snapshot[i]], d)])
  {
  }

  lemma SelectedAll(snapshot: seq<nat>, before: seq<Pending>, test: Pending -> bool, gone: set<nat>)
    requires InRange(System(before, snapshot, []))
    requires forall k :: 0 <= k < |snapshot| ==> (snapshot[k] in gone <==> test(before[snapshot[k]]))
    requires forall p :: p in gone ==> p in snapshot
    ensures gone == Selected(System(before, snapshot, []), test)
  {
  }

  lemma {:induction false} WithoutNone(queue: seq<nat>, n: nat)
    requires n <= |queue|
    ensures KeptOf(queue, n, {}) == queue[..n]
  {
    if n > 0 {
      WithoutNone(queue, n - 1);
    }
  }

  lemma {:induction false} PopHead(queue: seq<nat>, n: nat)
    requires Sorted(queue) && 0 < n <= |queue|
    ensures KeptOf(queue, n, {queue[0]}) == queue[1..n]
  {
    if n > 1 {
      PopHead(queue, n - 1);
    }
  }

  // ----- All interleavings -----

  datatype Step =
    | Arrives(request: Request)
    | Checks(p: nat)                        // the wait loop looks at the queue again
    | Resolves(p: nat, decision: Decision)  // the handler or its dialog, also repeatedly or late
    | HandlerFails(p: nat, reason: string)
    | HandlerRaises(p: nat)
    | Wakes(p: nat)
    | TimesOut(p: nat)
    | Grants(p: nat, accepted: bool)        // `accepted`: the session stored the grant
    | Leaves(p: nat)
    | Cancels(matches: Request -> bool, reason: string)

  predicate Enabled(s: System, step: Step) {
    match step
    case Arrives(_) => true
    case Checks(p) =>
      && p < |s.pendings| && s.pendings[p].phase.Waiting?
      && (s.queue == [] || s.queue[0] == p || s.pendings[p].resolutions != [])
    case Resolves(p, _) => p in s.shown && p < |s.pendings|
    case HandlerFails(p, _) => p < |s.pendings| && s.pendings[p].phase.Presented?
    case HandlerRaises(p) => p < |s.pendings| && s.pendings[p].phase.Presented?
    case Wakes(p) => p < |s.pendings| && s.pendings[p].phase.Presented? && s.pendings[p].resolutions != []
    case TimesOut(p) => p < |s.pendings| && s.pendings[p].phase.Presented? && s.pendings[p].resolutions == []
    case Grants(p, _) => p < |s.pendings| && s.pendings[p].phase.Granting?
    case Leaves(p) => p < |s.pendings| && s.pendings[p].phase.Leaving?
    case Cancels(_, _) => true
  }

  function Last(resolutions: seq<Decision>): Decision
    requires resolutions != []
  {
    resolutions[|resolutions| - 1]
  }

  function Next(s: System, step: Step): System {
    if !InRange(s) || !Enabled(s, step) then s
    else match step
      case Arrives(request) => Arrive(s, request)
      case Checks(p) =>
        if s.pendings[p].resolutions != [] then SetPhase(s, p, Returned(Decided(Last(s.pendings[p].resolutions))))
        else SetPhase(s, p, Presented).(shown := s.shown + [p])
      case Resolves(p, d) => s.(pendings := s.pendings[p := Resolve(s.pendings[p], d)])
      case HandlerFails(p, reason) => SetPhase(s, p, Leaving(Decided(DenyOnce(reason))))
      case HandlerRaises(p) => SetPhase(s, p, Leaving(Raised))
      case Wakes(p) =>
        var d := Last(s.pendings[p].resolutions);
        SetPhase(s, p, if d.AllowSession? then Granting(d) else Leaving(Decided(d)))
      case TimesOut(p) => SetPhase(s, p, Leaving(Decided(DenyOnce("approval timed out"))))
      case Grants(p, accepted) => Granted(s, p, accepted)
      case Leaves(p) => Leave(SetPhase(s, p, Returned(s.pendings[p].phase.outcome)), p)
      case Cancels(matches, reason) => Drop(s, Selected(s, MatchedBy(matches)), DenyOnce(reason))
  }

  /** `_apply_session_grant`. */
  function Granted(s: System, p: nat, accepted: bool): System
    requires InRange(s) && p < |s.pendings| && s.pendings[p].phase.Granting?
  {
    var d := s.pendings[p].phase.decision;
    if !accepted || !d.AllowSession? || d.grant == None then
      SetPhase(s, p, Leaving(Decided(DenyOnce("session approval failed closed"))))
    else
      var s' := SetPhase(s, p, Leaving(Decided(d)));
      Drop(s', Selected(s', ReleasedBy(s.pendings[p].request, d.grant.value)), AllowSession(d.grant))
  }

  function Run(steps: seq<Step>): System {
    if steps == [] then System([], [], []) else Next(Run(steps[..|steps| - 1]), steps[|steps| - 1])
  }

  // ----- What every step keeps -----

  /** What a request may be told without having been presented. */
  predicate Unattended(request: Request, d: Decision) {
    d.DenyOnce? || (d.AllowSession? && d.grant.Some? && Covers(d.grant.value, request.context))
  }

  predicate AllUnattended(q: Pending) {
    forall i :: 0 <= i < |q.resolutions| ==> Unattended(q.request, q.resolutions[i])
  }

  predicate PendingOk(q: Pending, queued: bool, head: bool, shown: bool) {
    match q.phase
    case Waiting => !shown && (queued <==> q.resolutions == []) && |q.resolutions| <= 1 && AllUnattended(q)
    case Returned(outcome) =>
      && !queued
      && (!shown ==> |q.resolutions| == 1 && outcome == Decided(q.resolutions[0]) && AllUnattended(q))
    case _ => shown && (queued ==> head) && (q.resolutions == [] ==> queued)
  }

  predicate IsHead(s: System, p: nat) {
    s.queue != [] && s.queue[0] == p
  }

  ghost predicate Shape(s: System) {
    && InRange(s) && Sorted(s.queue) && Sorted(s.shown)
    && (forall k :: 0 <= k < |s.shown| ==> s.shown[k] < |s.pendings|)
  }

  ghost predicate Phases(s: System) {
    forall p :: 0 <= p < |s.pendings| ==> PendingOk(s.pendings[p], p in s.queue, IsHead(s, p), p in s.shown)
  }

  predicate StillWaiting(s: System, p: nat) {
    p < |s.pendings| && s.pendings[p].phase.Waiting?
  }

  /** Whoever still waits in the queue arrived after everyone presented so far. */
  ghost predicate InOrder(s: System) {
    forall k, x :: 0 <= k < |s.queue| && StillWaiting(s, s.queue[k]) && x in s.shown ==> x < s.queue[k]
  }

  ghost predicate StatusOk(s: System) {
    forall k :: 0 <= k < |s.queue| && s.queue[k] < |s.pendings| ==>
      s.pendings[s.queue[k]].position == k + 1 && s.pendings[s.queue[k]].waiting == |s.queue| - k - 1
  }

  ghost predicate Invariant(s: System) {
    Shape(s) && Phases(s) && InOrder(s) && StatusOk(s)
  }

  lemma RefreshKeeps(s: System)
    requires Shape(s) && Phases(s) && InOrder(s)
    ensures Invariant(Refresh(s))
  {
    RefreshFacts(s.pendings, s.queue, |s.queue|);
    var r := Refresh(s);
    forall p | 0 <= p < |r.pendings|
      ensures PendingOk(r.pendings[p], p in r.queue, IsHead(r, p), p in r.shown)
    {
      assert SameBut(r.pendings[p], s.pendings[p]);
    }
    forall k, x | 0 <= k < |r.queue| && StillWaiting(r, r.queue[k]) && x in r.shown
      ensures x < r.queue[k]
    {
      assert SameBut(r.pendings[r.queue[k]], s.pendings[s.queue[k]]);
      assert StillWaiting(s, s.queue[k]);
    }
  }

  lemma ArriveKeeps(s: System, request: Request)
    requires Invariant(s)
    ensures Invariant(Arrive(s, request))
  {
    var n := |s.pendings|;
    var s' := s.(pendings := s.pendings + [Pending(request, Waiting, [], 1, 0)], queue := s.queue + [n]);
    forall p: nat | p < |s'.pendings|
      ensures PendingOk(s'.pendings[p], p in s'.queue, IsHead(s', p), p in s'.shown)
    {
      ArrivedOk(s, s', p);
    }
    RefreshKeeps(s');
  }

  lemma ArrivedOk(s: System, s': System, p: nat)
    requires Shape(s) && Phases(s) && p < |s'.pendings| == |s.pendings| + 1 && s'.shown == s.shown
    requires s'.queue == s.queue + [|s.pendings|] && s'.pendings[..|s.pendings|] == s.pendings
    requires s'.pendings[|s.pendings|].phase == Waiting && s'.pendings[|s.pendings|].resolutions == []
    ensures PendingOk(s'.pendings[p], p in s'.queue, IsHead(s', p), p in s'.shown)
  {
    if p < |s.pendings| {
      assert s'.pendings[p] == s'.pendings[..|s.pendings|][p] == s.pendings[p];
      assert PendingOk(s.pendings[p], p in s.queue, IsHead(s, p), p in s.shown);
    }
  }

  /** Changing one request's record only. */
  lemma ChangeKeeps(s: System, p: nat, q: Pending)
    requires Invariant(s) && p < |s.pendings|
    requires q.position == s.pendings[p].position && q.waiting == s.pendings[p].waiting
    requires PendingOk(q, p in s.queue, IsHead(s, p), p in s.shown)
    requires q.phase.Waiting? ==> s.pendings[p].phase.Waiting?
    ensures Invariant(s.(pendings := s.pendings[p := q]))
  {
    var s' := s.(pendings := s.pendings[p := q]);
    forall i | 0 <= i < |s'.pendings|
      ensures PendingOk(s'.pendings[i], i in s'.queue, IsHead(s', i), i in s'.shown)
    {
      assert PendingOk(s.pendings[i], i in s.queue, IsHead(s, i), i in s.shown);
    }
  }

  lemma PresentKeeps(s: System, p: nat)
    requires Invariant(s) && p < |s.pendings| && s.pendings[p].phase.Waiting? && s.pendings[p].resolutions == []
    requires s.queue == [] || s.queue[0] == p
    ensures IsHead(s, p) && forall x :: x in s.shown ==> x < p
    ensures Invariant(SetPhase(s, p, Presented).(shown := s.shown + [p]))
  {
    assert PendingOk(s.pendings[p], p in s.queue, IsHead(s, p), p in s.shown);
    assert s.queue[0] == p && StillWaiting(s, s.queue[0]);
    var s' := SetPhase(s, p, Presented).(shown := s.shown + [p]);
    forall k | 0 <= k < |s.shown|
      ensures s.shown[k] < p
    {
      assert s.shown[k] in s.shown;
    }
    forall k, x | 0 <= k < |s'.queue| && StillWaiting(s', s'.queue[k]) && x in s'.shown
      ensures x < s'.queue[k]
    {
      assert StillWaiting(s, s.queue[k]);
    }
    forall i | 0 <= i < |s'.pendings|
      ensures PendingOk(s'.pendings[i], i in s'.queue, IsHead(s', i), i in s'.shown)
    {
      assert PendingOk(s.pendings[i], i in s.queue, IsHead(s, i), i in s.shown);
      assert i in s'.shown <==> i in s.shown || i == p;
    }
  }

  lemma DropKeeps(s: System, gone: set<nat>, d: Decision)
    requires Invariant(s)
    requires forall q :: q in gone ==> q in s.queue && q < |s.pendings| && Unattended(s.pendings[q].request, d)
    ensures Invariant(Drop(s, gone, d))
  {
    if gone != {} {
      WithoutIn(s.queue, gone);
      var s' := s.(queue := Without(s.queue, gone), pendings := ResolveAll(s.pendings, gone, d));
      forall p | 0 <= p < |s'.pendings|
        ensures PendingOk(s'.pendings[p], p in s'.queue, IsHead(s', p), p in s'.shown)
      {
        assert PendingOk(s.pendings[p], p in s.queue, IsHead(s, p), p in s.shown);
        if p !in gone && IsHead(s, p) {
          HeadStays(s.queue, gone);
        }
      }
      StillInOrder(s, s');
      RefreshKeeps(s');
    }
  }

  lemma StillInOrder(s: System, s': System)
    requires InOrder(s) && Shape(s) && |s'.pendings| == |s.pendings| && s'.shown == s.shown
    requires forall k :: 0 <= k < |s'.queue| ==> s'.queue[k] in s.queue
    requires forall p :: 0 <= p < |s.pendings| && s'.pendings[p].phase.Waiting? ==> s.pendings[p].phase.Waiting?
    ensures InOrder(s')
  {
  }

  lemma LeaveKeeps(s: System, p: nat)
    requires Invariant(s) && p < |s.pendings| && s.pendings[p].phase.Leaving?
    ensures Invariant(Leave(SetPhase(s, p, Returned(s.pendings[p].phase.outcome)), p))
  {
    WithoutIn(s.queue, {p});
    var m := SetPhase(s, p, Returned(s.pendings[p].phase.outcome));
    var s' := m.(queue := Without(s.queue, {p}));
    forall i | 0 <= i < |s'.pendings|
      ensures PendingOk(s'.pendings[i], i in s'.queue, IsHead(s', i), i in s'.shown)
    {
      assert PendingOk(s.pendings[i], i in s.queue, IsHead(s, i), i in s.shown);
      if i != p && IsHead(s, i) {
        HeadStays(s.queue, {p});
      }
    }
    StillInOrder(s, s');
    RefreshKeeps(s');
  }

  lemma GrantKeeps(s: System, p: nat, accepted: bool)
    requires Invariant(s) && p < |s.pendings| && s.pendings[p].phase.Granting?
    ensures Invariant(Granted(s, p, accepted))
  {
    var d := s.pendings[p].phase.decision;
    assert PendingOk(s.pendings[p], p in s.queue, IsHead(s, p), p in s.shown);
    if !accepted || !d.AllowSession? || d.grant == None {
      ChangeKeeps(s, p, s.pendings[p].(phase := Leaving(Decided(DenyOnce("session approval failed closed")))));
    } else {
      ChangeKeeps(s, p, s.pendings[p].(phase := Leaving(Decided(d))));
      var s' := SetPhase(s, p, Leaving(Decided(d)));
      DropKeeps(s', Selected(s', ReleasedBy(s.pendings[p].request, d.grant.value)), AllowSession(d.grant));
    }
  }

  lemma StepKeeps(s: System, step: Step)
    requires Invariant(s)
    ensures Invariant(Next(s, step))
  {
    if Enabled(s, step) {
      match step
      case Arrives(request) => ArriveKeeps(s, request);
      case Checks(p) =>
        assert PendingOk(s.pendings[p], p in s.queue, IsHead(s, p), p in s.shown);
        if s.pendings[p].resolutions != [] {
          ChangeKeeps(s, p, s.pendings[p].(phase := Returned(Decided(Last(s.pendings[p].resolutions)))));
        } else {
          PresentKeeps(s, p);
        }
      case Grants(p, accepted) => GrantKeeps(s, p, accepted);
      case Leaves(p) => LeaveKeeps(s, p);
      case Cancels(matches, reason) => DropKeeps(s, Selected(s, MatchedBy(matches)), DenyOnce(reason));
      case Resolves(p, d) => HandlerKeeps(s, step, p);
      case HandlerFails(p, _) => HandlerKeeps(s, step, p);
      case HandlerRaises(p) => HandlerKeeps(s, step, p);
      case Wakes(p) => HandlerKeeps(s, step, p);
      case TimesOut(p) => HandlerKeeps(s, step, p);
    }
  }

  lemma HandlerKeeps(s: System, step: Step, p: nat)
    requires Invariant(s) && Enabled(s, step) && p < |s.pendings|
    requires || (step.Resolves? && step.p == p) || (step.HandlerFails? && step.p == p)
             || (step.HandlerRaises? && step.p == p) || (step.Wakes? && step.p == p) || (step.TimesOut? && step.p == p)
    ensures Invariant(Next(s, step))
  {
    assert PendingOk(s.pendings[p], p in s.queue, IsHead(s, p), p in s.shown);
    ChangeKeeps(s, p, Next(s, step).pendings[p]);
  }

  lemma {:induction false} RunKeeps(steps: seq<Step>)
    ensures Invariant(Run(steps))
  {
    if steps != [] {
      RunKeeps(steps[..|steps| - 1]);
      StepKeeps(Run(steps[..|steps| - 1]), steps[|steps| - 1]);
    }
  }

  // ----- Consequences -----

  /** With its handler: presented and not returned yet. */
  predicate WithHandler(s: System, p: nat) {
    && p < |s.pendings|
    && (s.pendings[p].phase.Presented? || s.pendings[p].phase.Granting? || s.pendings[p].phase.Leaving?)
  }

  /** With its handler, but taken from the queue by a cancellation or a grant. */
  predicate Overtaken(s: System, p: nat) {
    WithHandler(s, p) && p !in s.queue
  }

  /**
    A request with its handler that is still queued is the head of the queue, whether it
    is resolved or not; any other request with its handler has left the queue, and with a
    resolution.
   */
  lemma OneFocus(steps: seq<Step>, p: nat)
    requires WithHandler(Run(steps), p)
    ensures IsHead(Run(steps), p) || (Overtaken(Run(steps), p) && Run(steps).pendings[p].resolutions != [])
    ensures forall q :: WithHandler(Run(steps), q) && q != p && IsHead(Run(steps), p) ==> Overtaken(Run(steps), q)
  {
    RunKeeps(steps);
    HandlerIsHead(Run(steps), p);
    forall q | WithHandler(Run(steps), q) && q != p && IsHead(Run(steps), p) ensures Overtaken(Run(steps), q) {
      HandlerIsHead(Run(steps), q);
    }
  }

  lemma HandlerIsHead(s: System, p: nat)
    requires Invariant(s) && WithHandler(s, p)
    ensures if p in s.queue then IsHead(s, p) else s.pendings[p].resolutions != []
  {
    assert PendingOk(s.pendings[p], p in s.queue, IsHead(s, p), p in s.shown);
  }

  // ----- When a second request is presented beside the first -----

  /** At most one request is with its handler. */
  ghost predicate Exclusive(s: System) {
    forall p, q :: WithHandler(s, p) && WithHandler(s, q) ==> p == q
  }

  ghost predicate NoneOvertaken(s: System) {
    forall q :: !Overtaken(s, q)
  }

  /** The step that presents a request. */
  predicate Presents(s: System, step: Step) {
    step.Checks? && InRange(s) && Enabled(s, step) && s.pendings[step.p].resolutions == []
  }

  lemma PresentExclusive(s: System, p: nat)
    requires Invariant(s) && Presents(s, Checks(p))
    ensures NoneOvertaken(s) <==> forall q :: !WithHandler(s, q)
    ensures WithHandler(Next(s, Checks(p)), p)
    ensures forall q :: q != p ==> (WithHandler(Next(s, Checks(p)), q) <==> WithHandler(s, q))
  {
    PresentKeeps(s, p);
    forall q | WithHandler(s, q) ensures Overtaken(s, q) {
      HandlerIsHead(s, q);
    }
  }

  /** Whatever else happens, nobody gets to a handler. */
  lemma OthersPresentNobody(s: System, step: Step, p: nat)
    requires Invariant(s) && !Presents(s, step) && WithHandler(Next(s, step), p)
    ensures WithHandler(s, p)
  {
    if Enabled(s, step) {
      match step
      case Arrives(request) => PhasesAfterArrive(s, request, p);
      case Grants(r, accepted) => PhasesAfterGrant(s, r, accepted, p);
      case Leaves(r) => PhasesAfterLeave(s, r, p);
      case Cancels(matches, reason) => PhasesAfterDrop(s, Selected(s, MatchedBy(matches)), DenyOnce(reason), p);
      case Checks(_) =>
      case _ =>
    }
  }

  lemma PhasesAfterArrive(s: System, request: Request, p: nat)
    requires Shape(s) && WithHandler(Arrive(s, request), p)
    ensures WithHandler(s, p)
  {
    var s' := s.(pendings := s.pendings + [Pending(request, Waiting, [], 1, 0)], queue := s.queue + [|s.pendings|]);
    UntouchedRefresh(s', p);
  }

  lemma PhasesAfterDrop(s: System, gone: set<nat>, d: Decision, p: nat)
    requires Shape(s) && WithHandler(Drop(s, gone, d), p)
    ensures WithHandler(s, p)
  {
    if gone != {} {
      WithoutIn(s.queue, gone);
      UntouchedRefresh(s.(queue := Without(s.queue, gone), pendings := ResolveAll(s.pendings, gone, d)), p);
    }
  }

  lemma PhasesAfterLeave(s: System, r: nat, p: nat)
    requires Shape(s) && r < |s.pendings| && s.pendings[r].phase.Leaving?
    requires WithHandler(Leave(SetPhase(s, r, Returned(s.pendings[r].phase.outcome)), r), p)
    ensures WithHandler(s, p)
  {
    WithoutIn(s.queue, {r});
    UntouchedRefresh(SetPhase(s, r, Returned(s.pendings[r].phase.outcome)).(queue := Without(s.queue, {r})), p);
  }

  lemma PhasesAfterGrant(s: System, r: nat, accepted: bool, p: nat)
    requires Shape(s) && r < |s.pendings| && s.pendings[r].phase.Granting? && WithHandler(Granted(s, r, accepted), p)
    ensures WithHandler(s, p)
  {
    var d := s.pendings[r].phase.decision;
    if accepted && d.AllowSession? && d.grant.Some? {
      var s' := SetPhase(s, r, Leaving(Decided(d)));
      PhasesAfterDrop(s', Selected(s', ReleasedBy(s.pendings[r].request, d.grant.value)), AllowSession(d.grant), p);
    }
  }

  lemma StepExclusive(s: System, step: Step)
    requires Invariant(s) && Exclusive(s)
    ensures Exclusive(Next(s, step)) <==> (Presents(s, step) ==> NoneOvertaken(s))
  {
    var s' := Next(s, step);
    if Presents(s, step) {
      PresentExclusive(s, step.p);
      if q :| Overtaken(s, q) {
        assert WithHandler(s', q) && WithHandler(s', step.p);
      }
    } else {
      forall p, q | WithHandler(s', p) && WithHandler(s', q) ensures p == q {
        OthersPresentNobody(s, step, p);
        OthersPresentNobody(s, step, q);
      }
    }
  }

  ghost predicate AlwaysExclusive(steps: seq<Step>) {
    steps == [] || (AlwaysExclusive(steps[..|steps| - 1]) && Exclusive(Run(steps)))
  }

  /** Every presentation of the run comes when no request with its handler has been taken from the queue. */
  ghost predicate PresentsAlone(steps: seq<Step>) {
    steps == [] ||
    var front := steps[..|steps| - 1];
    PresentsAlone(front) && (Presents(Run(front), steps[|steps| - 1]) ==> NoneOvertaken(Run(front)))
  }

  lemma {:induction false} ExclusiveNow(steps: seq<Step>)
    requires AlwaysExclusive(steps)
    ensures Exclusive(Run(steps))
  {
  }

  /** At most one request is ever with its handler iff nobody is presented while an overtaken one still is. */
  lemma {:induction false} AlwaysExclusiveIff(steps: seq<Step>)
    ensures AlwaysExclusive(steps) <==> PresentsAlone(steps)
  {
    if steps != [] {
      var front, last := steps[..|steps| - 1], steps[|steps| - 1];
      AlwaysExclusiveIff(front);
      if AlwaysExclusive(front) {
        ExclusiveNow(front);
        RunKeeps(front);
        StepExclusive(Run(front), last);
      }
    }
  }

  lemma SplitLast(steps: seq<Step>, more: seq<Step>)
    requires more != []
    ensures more[..|more| - 1] + [more[|more| - 1]] == more
    ensures steps + more[..|more| - 1] + [more[|more| - 1]] == steps + more
  {
  }

  lemma RunSnoc(steps: seq<Step>, step: Step)
    ensures Run(steps + [step]) == Next(Run(steps), step)
  {
    assert (steps + [step])[..|steps|] == steps;
  }

  /** Two requests, in the queue and otherwise as they came, the first one at the given phase. */
  predicate TwoQueued(s: System, a: Request, b: Request, phase: Phase) {
    && |s.pendings| == 2 && s.queue == [0, 1]
    && s.pendings[0].request == a && s.pendings[0].phase == phase && s.pendings[0].resolutions == []
    && s.pendings[1].request == b && s.pendings[1].phase == Waiting && s.pendings[1].resolutions == []
  }

  lemma OneArrives(a: Request)
    ensures var s := Run([Arrives(a)]);
      && |s.pendings| == 1 && s.queue == [0] && s.pendings[0].request == a
      && s.pendings[0].phase == Waiting && s.pendings[0].resolutions == []
  {
    RunSnoc([], Arrives(a));
    assert [] + [Arrives(a)] == [Arrives(a)];
    var raw := System([Pending(a, Waiting, [], 1, 0)], [0], []);
    assert [] + [Pending(a, Waiting, [], 1, 0)] == [Pending(a, Waiting, [], 1, 0)] && [] + [0] == [0];
    UntouchedRefresh(raw, 0);
  }

  lemma TwoArrive(a: Request, b: Request)
    ensures TwoQueued(Run([Arrives(a), Arrives(b)]), a, b, Waiting)
  {
    OneArrives(a);
    var s := Run([Arrives(a)]);
    RunSnoc([Arrives(a)], Arrives(b));
    assert [Arrives(a)] + [Arrives(b)] == [Arrives(a), Arrives(b)];
    var raw := s.(pendings := s.pendings + [Pending(b, Waiting, [], 1, 0)], queue := s.queue + [1]);
    UntouchedRefresh(raw, 0);
    UntouchedRefresh(raw, 1);
  }

  lemma FirstPresented(steps: seq<Step>, a: Request, b: Request)
    requires TwoQueued(Run(steps), a, b, Waiting)
    ensures TwoQueued(Run(steps + [Checks(0)]), a, b, Presented)
  {
    RunSnoc(steps, Checks(0));
  }

  /** The first request gone, the second one alone in the queue. */
  predicate FirstGone(s: System) {
    && |s.pendings| == 2 && s.queue == [1] && s.pendings[0].phase == Presented
    && s.pendings[1].phase == Waiting && s.pendings[1].resolutions == []
  }

  lemma FirstLeaves()
    ensures Without([0, 1], {0}) == [1]
  {
    assert KeptOf([0, 1], 0, {0}) == [];
    assert KeptOf([0, 1], 1, {0}) == [];
  }

  lemma DropFirst(s: System, a: Request, b: Request, d: Decision)
    requires TwoQueued(s, a, b, Presented) && InRange(s)
    ensures FirstGone(Drop(s, {0}, d))
  {
    FirstLeaves();
    var raw := s.(queue := [1], pendings := ResolveAll(s.pendings, {0}, d));
    assert Drop(s, {0}, d) == Refresh(raw);
    UntouchedRefresh(raw, 0);
    UntouchedRefresh(raw, 1);
  }

  lemma FirstCancelled(steps: seq<Step>, a: Request, b: Request, matches: Request -> bool, reason: string)
    requires TwoQueued(Run(steps), a, b, Presented) && matches(a) && !matches(b)
    ensures FirstGone(Run(steps + [Cancels(matches, reason)]))
  {
    SelectsFirst(Run(steps), a, b, matches);
    DropFirst(Run(steps), a, b, DenyOnce(reason));
    CancelDrops(steps, matches, reason);
  }

  lemma SelectsFirst(s: System, a: Request, b: Request, matches: Request -> bool)
    requires TwoQueued(s, a, b, Presented) && matches(a) && !matches(b)
    ensures InRange(s) && Selected(s, MatchedBy(matches)) == {0}
  {
  }

  lemma CancelDrops(steps: seq<Step>, matches: Request -> bool, reason: string)
    requires InRange(Run(steps))
    ensures Run(steps + [Cancels(matches, reason)])
            == Drop(Run(steps), Selected(Run(steps), MatchedBy(matches)), DenyOnce(reason))
  {
    RunSnoc(steps, Cancels(matches, reason));
  }

  /** Cancelling a request that is with its handler lets the next one be presented beside it. */
  lemma CancelledOverlaps(a: Request, b: Request, matches: Request -> bool, reason: string)
    requires matches(a) && !matches(b)
    ensures var s := Run([Arrives(a), Arrives(b), Checks(0), Cancels(matches, reason), Checks(1)]);
      WithHandler(s, 0) && WithHandler(s, 1) && Overtaken(s, 0)
  {
    var two := [Arrives(a), Arrives(b)];
    var three := two + [Checks(0)];
    var four := three + [Cancels(matches, reason)];
    TwoArrive(a, b);
    FirstPresented(two, a, b);
    FirstCancelled(three, a, b, matches, reason);
    RunSnoc(four, Checks(1));
    assert four + [Checks(1)] == [Arrives(a), Arrives(b), Checks(0), Cancels(matches, reason), Checks(1)];
  }

  /** Requests are presented in order of arrival. */
  lemma PresentedInArrivalOrder(steps: seq<Step>, i: nat, j: nat)
    requires i < j < |Run(steps).shown|
    ensures Run(steps).shown[i] < Run(steps).shown[j]
  {
    RunKeeps(steps);
  }

  /**
    A request that returns without having been presented got exactly one resolution,
    returns that one, and if it allows anything it is a session grant that covers
    the request.
   */
  lemma UnpresentedOutcome(steps: seq<Step>, p: nat)
    requires var s := Run(steps);
             p < |s.pendings| && s.pendings[p].phase.Returned? && p !in s.shown
    ensures var q := Run(steps).pendings[p];
            && |q.resolutions| == 1
            && q.phase.outcome == Decided(q.resolutions[0])
            && Unattended(q.request, q.resolutions[0])
  {
    RunKeeps(steps);
    var s := Run(steps);
    assert PendingOk(s.pendings[p], p in s.queue, IsHead(s, p), p in s.shown);
  }

  /** A request resolved while it waited is never presented afterwards. */
  lemma {:induction false} ResolvedWhileWaiting(steps: seq<Step>, more: seq<Step>, p: nat)
    requires var s := Run(steps);
             && p < |s.pendings| && s.pendings[p].resolutions != [] && p !in s.shown
    ensures var s, s' := Run(steps), Run(steps + more);
            && p < |s'.pendings| && s'.pendings[p].resolutions == s.pendings[p].resolutions && p !in s'.shown
    decreases |more|
  {
    if more == [] {
      assert steps + more == steps;
    } else {
      var front, last := more[..|more| - 1], more[|more| - 1];
      ResolvedWhileWaiting(steps, front, p);
      RunKeeps(steps + front);
      UntouchedStep(Run(steps + front), last, p);
      RunSnoc(steps + front, last);
      SplitLast(steps, more);
    }
  }

  lemma UntouchedStep(s: System, step: Step, p: nat)
    requires Invariant(s) && p < |s.pendings| && s.pendings[p].resolutions != [] && p !in s.shown
    ensures var s' := Next(s, step);
            && p < |s'.pendings| && s'.pendings[p].resolutions == s.pendings[p].resolutions && p !in s'.shown
  {
    assert PendingOk(s.pendings[p], p in s.queue, IsHead(s, p), p in s.shown);
    if Enabled(s, step) {
      match step
      case Arrives(request) => UntouchedArrive(s, request, p);
      case Grants(r, accepted) => UntouchedGrant(s, r, accepted, p);
      case Leaves(r) => UntouchedLeave(s, r, p);
      case Cancels(matches, reason) => UntouchedDrop(s, Selected(s, MatchedBy(matches)), DenyOnce(reason), p);
      case Checks(_) =>
      case _ =>
    }
  }

  lemma UntouchedArrive(s: System, request: Request, p: nat)
    requires Shape(s) && p < |s.pendings|
    ensures var s' := Arrive(s, request);
            p < |s'.pendings| && SameBut(s'.pendings[p], s.pendings[p]) && s'.shown == s.shown
  {
    UntouchedRefresh(s.(pendings := s.pendings + [Pending(request, Waiting, [], 1, 0)],
                        queue := s.queue + [|s.pendings|]), p);
  }

  lemma UntouchedLeave(s: System, r: nat, p: nat)
    requires Shape(s) && p < |s.pendings| && r < |s.pendings| && s.pendings[r].phase.Leaving?
    ensures var s' := Leave(SetPhase(s, r, Returned(s.pendings[r].phase.outcome)), r);
            && p < |s'.pendings| && s'.pendings[p].resolutions == s.pendings[p].resolutions && s'.shown == s.shown
  {
    WithoutIn(s.queue, {r});
    UntouchedRefresh(SetPhase(s, r, Returned(s.pendings[r].phase.outcome)).(queue := Without(s.queue, {r})), p);
  }

  lemma UntouchedRefresh(s: System, p: nat)
    requires InRange(s) && Sorted(s.queue) && p < |s.pendings|
    ensures SameBut(Refresh(s).pendings[p], s.pendings[p])
  {
    RefreshFacts(s.pendings, s.queue, |s.queue|);
  }

  lemma UntouchedDrop(s: System, gone: set<nat>, d: Decision, p: nat)
    requires Shape(s) && p < |s.pendings| && p !in gone
    ensures var s' := Drop(s, gone, d);
            |s'.pendings| == |s.pendings| && SameBut(s'.pendings[p], s.pendings[p]) && s'.shown == s.shown
  {
    if gone != {} {
      WithoutIn(s.queue, gone);
      var s' := s.(queue := Without(s.queue, gone), pendings := ResolveAll(s.pendings, gone, d));
      UntouchedRefresh(s', p);
    }
  }

  lemma UntouchedGrant(s: System, r: nat, accepted: bool, p: nat)
    requires Shape(s) && p < |s.pendings| && s.pendings[p].resolutions != []
    requires r < |s.pendings| && s.pendings[r].phase.Granting?
    ensures var s' := Granted(s, r, accepted);
            && |s'.pendings| == |s.pendings| && s'.pendings[p].resolutions == s.pendings[p].resolutions
            && s'.shown == s.shown
  {
    var d := s.pendings[r].phase.decision;
    if accepted && d.AllowSession? && d.grant.Some? {
      var s' := SetPhase(s, r, Leaving(Decided(d)));
      UntouchedDrop(s', Selected(s', ReleasedBy(s.pendings[r].request, d.grant.value)), AllowSession(d.grant), p);
    }
  }

  /** The coordinator never stalls: an unfinished request can move, or one that heads the queue before it can. */
  lemma NoStall(steps: seq<Step>, p: nat)
    requires var s := Run(steps); p < |s.pendings| && !s.pendings[p].phase.Returned?
    ensures var s := Run(steps);
            || (exists step :: Moves(step, p) && Enabled(s, step))
            || (s.queue != [] && s.queue[0] < p && !s.pendings[s.queue[0]].phase.Returned?
                && exists step :: Moves(step, s.queue[0]) && Enabled(s, step))
  {
    RunKeeps(steps);
    var s := Run(steps);
    assert PendingOk(s.pendings[p], p in s.queue, IsHead(s, p), p in s.shown);
    if s.pendings[p].phase.Waiting? && s.pendings[p].resolutions == [] && s.queue[0] != p {
      var k :| 0 <= k < |s.queue| && s.queue[k] == p;
      var h := s.queue[0];
      assert PendingOk(s.pendings[h], h in s.queue, IsHead(s, h), h in s.shown);
      var step := Progress(s, h);
    } else {
      var step := Progress(s, p);
    }
  }

  predicate Moves(step: Step, p: nat) {
    match step
    case Checks(q) => q == p
    case Wakes(q) => q == p
    case TimesOut(q) => q == p
    case Grants(q, _) => q == p
    case Leaves(q) => q == p
    case _ => false
  }

  lemma Progress(s: System, p: nat) returns (step: Step)
    requires p < |s.pendings| && !s.pendings[p].phase.Returned?
    requires s.pendings[p].phase.Waiting? ==> s.pendings[p].resolutions != [] || IsHead(s, p)
    ensures Moves(step, p) && Enabled(s, step)
  {
    match s.pendings[p].phase
    case Waiting => step := Checks(p);
    case Presented => step := if s.pendings[p].resolutions != [] then Wakes(p) else TimesOut(p);
    case Granting(_) => step := Grants(p, false);
    case Leaving(_) => step := Leaves(p);
  }

  // ----- What the log of a run says about a request -----

  /** The grant a step has the session accept. */
  function AcceptedGrant(s: System, step: Step): Option<Grant> {
    if step.Grants? && step.accepted && step.p < |s.pendings| then
      match s.pendings[step.p].phase
      case Granting(AllowSession(grant)) => grant
      case _ => None
    else None
  }

  /** The decision with which a step takes request `p` from the queue: a cancellation or a grant that covers it. */
  function TakenWith(s: System, step: Step, p: nat): Option<Decision>
    requires p < |s.pendings|
  {
    var q := s.pendings[p];
    if p !in s.queue then None
    else if step.Cancels? then
      if step.matches(q.request) then Some(DenyOnce(step.reason)) else None
    else if AcceptedGrant(s, step).Some? then
      var grant := AcceptedGrant(s, step).value;
      if q.request.id != s.pendings[step.p].request.id && q.resolutions == [] && Covers(grant, q.request.context)
      then Some(AllowSession(Some(grant))) else None
    else None
  }

  /** The decision a step gives to request `p`. */
  function Addressed(s: System, step: Step, p: nat): Option<Decision>
    requires p < |s.pendings|
  {
    if step.Resolves? then if step.p == p && p in s.shown then Some(step.decision) else None
    else TakenWith(s, step, p)
  }

  function AsSeq(d: Option<Decision>): seq<Decision> {
    if d.Some? then [d.value] else []
  }

  lemma DropTells(s: System, gone: set<nat>, d: Decision, p: nat)
    requires Shape(s) && p < |s.pendings|
    ensures var s' := Drop(s, gone, d);
      && p < |s'.pendings| && s'.shown == s.shown
      && s'.pendings[p].request == s.pendings[p].request && s'.pendings[p].phase == s.pendings[p].phase
      && s'.pendings[p].resolutions == s.pendings[p].resolutions + (if p in gone then [d] else [])
      && (p in s'.queue <==> p in s.queue && p !in gone)
  {
    if gone != {} {
      WithoutIn(s.queue, gone);
      UntouchedRefresh(s.(queue := Without(s.queue, gone), pendings := ResolveAll(s.pendings, gone, d)), p);
    }
  }

  /** How a session grant ends: with the decision if the session accepted its grant, else with a denial. */
  function GrantEnds(s: System, r: nat, accepted: bool): Phase
    requires r < |s.pendings| && s.pendings[r].phase.Granting?
  {
    Leaving(Decided(if AcceptedGrant(s, Grants(r, accepted)).Some? then s.pendings[r].phase.decision
                    else DenyOnce("session approval failed closed")))
  }

  /** The requests an accepted grant releases, written out. */
  lemma ReleasesCovered(s: System, r: nat, phase: Phase, grant: Grant, p: nat)
    requires Shape(s) && p < |s.pendings| && r < |s.pendings|
    ensures InRange(SetPhase(s, r, phase))
    ensures p in Selected(SetPhase(s, r, phase), ReleasedBy(s.pendings[r].request, grant)) <==>
      && p in s.queue && s.pendings[p].request.id != s.pendings[r].request.id && s.pendings[p].resolutions == []
      && Covers(grant, s.pendings[p].request.context)
  {
  }

  lemma GrantTells(s: System, r: nat, accepted: bool, p: nat)
    requires Shape(s) && p < |s.pendings| && Enabled(s, Grants(r, accepted))
    ensures var s', d := Granted(s, r, accepted), TakenWith(s, Grants(r, accepted), p);
      && p < |s'.pendings| && s'.shown == s.shown
      && s'.pendings[p].request == s.pendings[p].request
      && s'.pendings[p].phase == (if p == r then GrantEnds(s, r, accepted) else s.pendings[p].phase)
      && s'.pendings[p].resolutions == s.pendings[p].resolutions + AsSeq(d)
      && (p in s'.queue <==> p in s.queue && d.None?)
  {
    var d := s.pendings[r].phase.decision;
    var grant := AcceptedGrant(s, Grants(r, accepted));
    if grant.Some? {
      var s' := SetPhase(s, r, Leaving(Decided(d)));
      var gone := Selected(s', ReleasedBy(s.pendings[r].request, grant.value));
      ReleasesCovered(s, r, Leaving(Decided(d)), grant.value, p);
      GrantDrops(s, r, gone);
      DropTells(s', gone, d, p);
    }
  }

  lemma GrantDrops(s: System, r: nat, gone: set<nat>)
    requires Shape(s) && r < |s.pendings| && AcceptedGrant(s, Grants(r, true)).Some?
    requires var d := s.pendings[r].phase.decision;
      gone == Selected(SetPhase(s, r, Leaving(Decided(d))), ReleasedBy(s.pendings[r].request, d.grant.value))
    ensures var d := s.pendings[r].phase.decision;
      Granted(s, r, true) == Drop(SetPhase(s, r, Leaving(Decided(d))), gone, d)
  {
  }

  lemma LeaveTells(s: System, r: nat, p: nat)
    requires Shape(s) && p < |s.pendings| && Enabled(s, Leaves(r))
    ensures var s' := Next(s, Leaves(r));
      && p < |s'.pendings| && s'.shown == s.shown
      && s'.pendings[p].request == s.pendings[p].request
      && s'.pendings[p].phase == (if p == r then Returned(s.pendings[p].phase.outcome) else s.pendings[p].phase)
      && s'.pendings[p].resolutions == s.pendings[p].resolutions
      && (p in s'.queue <==> p in s.queue && p != r)
  {
    WithoutIn(s.queue, {r});
    UntouchedRefresh(SetPhase(s, r, Returned(s.pendings[r].phase.outcome)).(queue := Without(s.queue, {r})), p);
  }

  /** What a step does to a request, save for its phase. */
  ghost predicate Follows(s: System, step: Step, s': System, p: nat)
    requires p < |s.pendings|
  {
    && p < |s'.pendings| && s'.pendings[p].request == s.pendings[p].request
    && s'.pendings[p].resolutions == s.pendings[p].resolutions + AsSeq(Addressed(s, step, p))
    && (p in s'.queue <==> p in s.queue && TakenWith(s, step, p).None? && !(step == Leaves(p) && Enabled(s, step)))
    && (p in s'.shown <==> p in s.shown || (step == Checks(p) && Presents(s, step)))
  }

  lemma StepFollows(s: System, step: Step, p: nat)
    requires Shape(s) && p < |s.pendings|
    ensures Follows(s, step, Next(s, step), p)
  {
    if Enabled(s, step) {
      match step
      case Arrives(request) => ArriveFollows(s, request, p);
      case Grants(r, accepted) => GrantTells(s, r, accepted, p);
      case Leaves(r) => LeaveTells(s, r, p);
      case Cancels(matches, reason) => CancelFollows(s, matches, reason, p);
      case _ => HandlerFollows(s, step, p);
    }
  }

  lemma CancelFollows(s: System, matches: Request -> bool, reason: string, p: nat)
    requires Shape(s) && p < |s.pendings|
    ensures Follows(s, Cancels(matches, reason), Next(s, Cancels(matches, reason)), p)
  {
    DropTells(s, Selected(s, MatchedBy(matches)), DenyOnce(reason), p);
  }

  lemma HandlerFollows(s: System, step: Step, p: nat)
    requires Shape(s) && p < |s.pendings|
    requires !step.Arrives? && !step.Grants? && !step.Leaves? && !step.Cancels?
    ensures Follows(s, step, Next(s, step), p)
  {
  }

  lemma ArriveFollows(s: System, request: Request, p: nat)
    requires Shape(s) && p < |s.pendings|
    ensures Follows(s, Arrives(request), Arrive(s, request), p)
  {
    UntouchedArrive(s, request, p);
  }

  /** What the log tells of a request: the decisions given to it, the one its wait ended with, and its answer. */
  datatype Course = Course(told: seq<Decision>, woke: Option<Decision>, answer: Option<Outcome>)

  /** Presented, and its wait for a decision not over. */
  predicate AtHandler(s: System, p: nat, c: Course) {
    p in s.shown && c.woke.None? && c.answer.None?
  }

  /** The decision with which the wait of request `p` ends by this step: the last one given. */
  function WakesWith(s: System, step: Step, p: nat, c: Course): Option<Decision> {
    if step == Wakes(p) && AtHandler(s, p, c) && c.told != [] then Some(c.told[|c.told| - 1]) else None
  }

  /** The answer to request `p` that this step settles. */
  function Settles(s: System, step: Step, p: nat, c: Course): Option<Outcome> {
    var told := c.told;
    match step
    case Checks(q) =>
      if q == p && p < |s.pendings| && p !in s.shown && told != [] then Some(Decided(told[|told| - 1])) else None
    case HandlerFails(q, reason) => if q == p && AtHandler(s, p, c) then Some(Decided(DenyOnce(reason))) else None
    case HandlerRaises(q) => if q == p && AtHandler(s, p, c) then Some(Raised) else None
    case TimesOut(q) =>
      if q == p && AtHandler(s, p, c) && told == [] then Some(Decided(DenyOnce("approval timed out"))) else None
    case Wakes(q) =>
      if q == p && AtHandler(s, p, c) && told != [] && !told[|told| - 1].AllowSession?
      then Some(Decided(told[|told| - 1])) else None
    case Grants(q, accepted) =>
      if q != p || c.woke.None? then None
      else if accepted && c.woke.value.AllowSession? && c.woke.value.grant.Some? then Some(Decided(c.woke.value))
      else Some(Decided(DenyOnce("session approval failed closed")))
    case _ => None
  }

  function Onward(s: System, step: Step, p: nat, c: Course): Course {
    Course(c.told + (if p < |s.pendings| then AsSeq(Addressed(s, step, p)) else []),
           if c.woke.Some? then c.woke else WakesWith(s, step, p, c),
           if c.answer.Some? then c.answer else Settles(s, step, p, c))
  }

  function CourseOf(steps: seq<Step>, p: nat): Course {
    if steps == [] then Course([], None, None)
    else
      var front := steps[..|steps| - 1];
      Onward(Run(front), steps[|steps| - 1], p, CourseOf(front, p))
  }

  function Told(steps: seq<Step>, p: nat): seq<Decision> {
    CourseOf(steps, p).told
  }

  function Answer(steps: seq<Step>, p: nat): Option<Outcome> {
    CourseOf(steps, p).answer
  }

  predicate Standing(phase: Phase, shown: bool, c: Course) {
    match phase
    case Waiting => !shown && c.woke.None? && c.answer.None?
    case Presented => shown && c.woke.None? && c.answer.None?
    case Granting(d) => shown && c.woke == Some(d) && d.AllowSession? && c.answer.None?
    case Leaving(outcome) => c.answer == Some(outcome)
    case Returned(outcome) => c.answer == Some(outcome)
  }

  /** The records of request `p` are what the log tells. */
  ghost predicate Tells(s: System, p: nat, c: Course) {
    if p < |s.pendings| then s.pendings[p].resolutions == c.told && Standing(s.pendings[p].phase, p in s.shown, c)
    else c == Course([], None, None) && p !in s.shown
  }

  /** The phase of request `p` after a step. */
  function PhaseAfter(s: System, step: Step, p: nat): Phase
    requires p < |s.pendings|
  {
    var q := s.pendings[p];
    if !Enabled(s, step) then q.phase
    else match step
      case Checks(r) =>
        if r != p then q.phase
        else if q.resolutions == [] then Presented else Returned(Decided(Last(q.resolutions)))
      case HandlerFails(r, reason) => if r == p then Leaving(Decided(DenyOnce(reason))) else q.phase
      case HandlerRaises(r) => if r == p then Leaving(Raised) else q.phase
      case TimesOut(r) => if r == p then Leaving(Decided(DenyOnce("approval timed out"))) else q.phase
      case Wakes(r) =>
        if r != p then q.phase
        else if Last(q.resolutions).AllowSession? then Granting(Last(q.resolutions))
        else Leaving(Decided(Last(q.resolutions)))
      case Grants(r, accepted) => if r == p then GrantEnds(s, p, accepted) else q.phase
      case Leaves(r) => if r == p then Returned(q.phase.outcome) else q.phase
      case _ => q.phase
  }

  lemma StepPhase(s: System, step: Step, p: nat)
    requires Shape(s) && p < |s.pendings|
    ensures p < |Next(s, step).pendings| && Next(s, step).pendings[p].phase == PhaseAfter(s, step, p)
  {
    if Enabled(s, step) {
      match step
      case Arrives(request) => UntouchedArrive(s, request, p);
      case Grants(r, accepted) => GrantTells(s, r, accepted, p);
      case Leaves(r) => LeaveTells(s, r, p);
      case Cancels(matches, reason) => DropTells(s, Selected(s, MatchedBy(matches)), DenyOnce(reason), p);
      case _ =>
    }
  }

  lemma CourseSnoc(front: seq<Step>, last: Step, p: nat)
    ensures CourseOf(front + [last], p) == Onward(Run(front), last, p, CourseOf(front, p))
  {
    assert (front + [last])[..|front|] == front;
  }

  lemma StandingNext(s: System, step: Step, p: nat, c: Course)
    requires Invariant(s) && p < |s.pendings| && Tells(s, p, c)
    ensures Standing(PhaseAfter(s, step, p), p in s.shown || (step == Checks(p) && Presents(s, step)),
                     Onward(s, step, p, c))
  {
    assert PendingOk(s.pendings[p], p in s.queue, IsHead(s, p), p in s.shown);
  }

  lemma TellsNext(s: System, step: Step, p: nat, c: Course)
    requires Invariant(s) && Tells(s, p, c)
    ensures Tells(Next(s, step), p, Onward(s, step, p, c))
  {
    if p < |s.pendings| {
      StepFollows(s, step, p);
      StepPhase(s, step, p);
      StandingNext(s, step, p, c);
    } else {
      TellsNew(s, step, p);
    }
  }

  lemma SameNumber(s: System, step: Step)
    requires Invariant(s) && !step.Arrives?
    ensures |Next(s, step).pendings| == |s.pendings|
  {
  }

  lemma TellsNew(s: System, last: Step, p: nat)
    requires Invariant(s) && p >= |s.pendings|
    ensures var s' := Next(s, last);
      p !in s'.shown && (p < |s'.pendings| ==> s'.pendings[p].resolutions == [] && s'.pendings[p].phase.Waiting?)
  {
    if last.Arrives? {
      if p == |s.pendings| {
        UntouchedRefresh(s.(pendings := s.pendings + [Pending(last.request, Waiting, [], 1, 0)],
                            queue := s.queue + [p]), p);
      }
    } else {
      SameNumber(s, last);
    }
  }

  /** In every run a request has been told, and is answered, what the log of the run says. */
  lemma {:induction false} LogTells(steps: seq<Step>, p: nat)
    ensures Tells(Run(steps), p, CourseOf(steps, p))
  {
    if steps != [] {
      var front, last := steps[..|steps| - 1], steps[|steps| - 1];
      LogTells(front, p);
      RunKeeps(front);
      TellsNext(Run(front), last, p, CourseOf(front, p));
    }
  }

  /** Nothing that happens later changes a settled answer. */
  lemma {:induction false} AnswerStays(steps: seq<Step>, more: seq<Step>, p: nat)
    requires Answer(steps, p).Some?
    ensures Answer(steps + more, p) == Answer(steps, p)
    decreases |more|
  {
    if more == [] {
      assert steps + more == steps;
    } else {
      var front, last := more[..|more| - 1], more[|more| - 1];
      AnswerStays(steps, front, p);
      CourseSnoc(steps + front, last, p);
      SplitLast(steps, more);
    }
  }

  /** The answer to a session grant `d`: the grant itself, accepted, or a denial. */
  ghost predicate GrantAnswers(more: seq<Step>, p: nat, d: Decision, answer: Outcome) {
    answer.Decided? &&
    if answer.decision.DenyOnce? then true
    else answer.decision == d && d.AllowSession? && d.grant.Some? && Grants(p, true) in more
  }

  /** Woken with a session grant, and answered by the grant's own step if at all. */
  ghost predicate WokenWith(c: Course, more: seq<Step>, p: nat, d: Decision) {
    c.woke == Some(d) && (c.answer.None? || GrantAnswers(more, p, d, c.answer.value))
  }

  lemma WokenNext(s: System, c: Course, more: seq<Step>, step: Step, p: nat, d: Decision)
    requires WokenWith(c, more, p, d) && d.AllowSession? && Tells(s, p, c)
    ensures WokenWith(Onward(s, step, p, c), more + [step], p, d)
  {
  }

  lemma WokenOn(all: seq<Step>, more: seq<Step>, last: Step, p: nat, d: Decision)
    requires WokenWith(CourseOf(all, p), more, p, d) && d.AllowSession?
    ensures WokenWith(CourseOf(all + [last], p), more + [last], p, d)
  {
    LogTells(all, p);
    WokenNext(Run(all), CourseOf(all, p), more, last, p, d);
    CourseSnoc(all, last, p);
  }

  lemma {:induction false} WokeStays(steps: seq<Step>, more: seq<Step>, p: nat, d: Decision)
    requires WokenWith(CourseOf(steps, p), [], p, d) && d.AllowSession?
    ensures WokenWith(CourseOf(steps + more, p), more, p, d)
    decreases |more|
  {
    if more == [] {
      assert steps + more == steps;
    } else {
      var front, last := more[..|more| - 1], more[|more| - 1];
      WokeStays(steps, front, p, d);
      WokenOn(steps + front, front, last, p, d);
      SplitLast(steps, more);
    }
  }

  /** The end of a request's wait, in the log. */
  lemma WaitEnds(steps: seq<Step>, p: nat)
    requires Enabled(Run(steps), Wakes(p))
    ensures var told, c := Told(steps, p), CourseOf(steps + [Wakes(p)], p);
      && told != [] && told == Run(steps).pendings[p].resolutions
      && if told[|told| - 1].AllowSession? then WokenWith(c, [], p, told[|told| - 1])
         else c.answer == Some(Decided(told[|told| - 1]))
  {
    LogTells(steps, p);
    CourseSnoc(steps, Wakes(p), p);
  }

  /** What a request returns is its settled answer. */
  lemma ReturnsAnswer(steps: seq<Step>, p: nat)
    requires Answer(steps, p).Some? || CourseOf(steps, p).woke.Some?
    ensures var s := Run(steps);
      p < |s.pendings| && (s.pendings[p].phase.Returned? ==> Answer(steps, p) == Some(s.pendings[p].phase.outcome))
  {
    LogTells(steps, p);
  }

  lemma WokenLater(woken: seq<Step>, more: seq<Step>, p: nat, d: Decision)
    requires if d.AllowSession? then WokenWith(CourseOf(woken, p), [], p, d) else Answer(woken, p) == Some(Decided(d))
    ensures var s := Run(woken + more);
      && p < |s.pendings|
      && (s.pendings[p].phase.Returned? ==> ReturnsFor(more, p, d, s.pendings[p].phase.outcome))
  {
    if d.AllowSession? {
      WokeStays(woken, more, p, d);
    } else {
      AnswerStays(woken, more, p);
    }
    ReturnsAnswer(woken + more, p);
  }

  /** What a request returns whose wait ended with `d`. */
  ghost predicate ReturnsFor(more: seq<Step>, p: nat, d: Decision, outcome: Outcome) {
    if d.AllowSession? then GrantAnswers(more, p, d, outcome) else outcome == Decided(d)
  }

  /**
    What a presented request returns once its wait is over: the last decision it was given,
    unless that is a session grant; a session grant only if the session accepted it, and a
    denial otherwise. Whatever comes later changes nothing.
   */
  lemma WokenReturns(steps: seq<Step>, more: seq<Step>, p: nat)
    requires Enabled(Run(steps), Wakes(p))
    ensures var told, s := Told(steps, p), Run(steps + [Wakes(p)] + more);
      && told != [] && told == Run(steps).pendings[p].resolutions && p < |s.pendings|
      && (s.pendings[p].phase.Returned? ==> ReturnsFor(more, p, told[|told| - 1], s.pendings[p].phase.outcome))
  {
    WaitEnds(steps, p);
    WokenLater(steps + [Wakes(p)], more, p, Told(steps, p)[|Told(steps, p)| - 1]);
  }

  /** A request whose handler fails or that times out is denied, whatever comes later. */
  lemma FailureDenies(steps: seq<Step>, more: seq<Step>, p: nat, step: Step)
    requires step == TimesOut(p) || (step.HandlerFails? && step.p == p)
    requires Enabled(Run(steps), step)
    ensures var s := Run(steps + [step] + more);
      && p < |s.pendings|
      && (s.pendings[p].phase.Returned? ==>
            s.pendings[p].phase.outcome.Decided? && s.pendings[p].phase.outcome.decision.DenyOnce?)
  {
    LogTells(steps, p);
    CourseSnoc(steps, step, p);
    AnswerStays(steps + [step], more, p);
    ReturnsAnswer(steps + [step] + more, p);
  }

  /** An answer that allows was given to the request, and a session grant of its own was accepted. */
  ghost predicate Warranted(s: System, steps: seq<Step>, p: nat, c: Course) {
    && (c.woke.Some? ==> c.woke.value in c.told && p in s.shown)
    && (c.answer.Some? && c.answer.value.Decided? && !c.answer.value.decision.DenyOnce? ==>
          var d := c.answer.value.decision;
          d in c.told && (d.AllowSession? && p in s.shown ==> d.grant.Some? && Grants(p, true) in steps))
  }

  lemma WarrantedNext(s: System, steps: seq<Step>, step: Step, p: nat, c: Course)
    requires Invariant(s) && Tells(s, p, c) && Warranted(s, steps, p, c)
    ensures Warranted(Next(s, step), steps + [step], p, Onward(s, step, p, c))
  {
    if p < |s.pendings| {
      StepFollows(s, step, p);
    } else {
      TellsNew(s, step, p);
    }
  }

  /** No request is allowed anything it was not told, nor a session grant of its own that the session did not accept. */
  lemma {:induction false} AllowedWasTold(steps: seq<Step>, p: nat)
    ensures Warranted(Run(steps), steps, p, CourseOf(steps, p))
  {
    if steps != [] {
      var front, last := steps[..|steps| - 1], steps[|steps| - 1];
      assert steps == front + [last];
      AllowedWasTold(front, p);
      RunKeeps(front);
      LogTells(front, p);
      WarrantedNext(Run(front), front, last, p, CourseOf(front, p));
    }
  }

  /** The ids a release or a cancellation returns are those of the requests it took, one for each. */
  lemma {:induction false} TakenIds(pendings: seq<Pending>, queue: seq<nat>, test: Pending -> bool, n: nat, id: string)
    requires n <= |queue| && forall k :: 0 <= k < |queue| ==> queue[k] < |pendings|
    ensures id in SelectedIds(pendings, queue, test, n) <==>
      exists k :: 0 <= k < n && test(pendings[queue[k]]) && pendings[queue[k]].request.id == id
    ensures |SelectedIds(pendings, queue, test, n)| == |set k: nat | k < n && test(pendings[queue[k]])|
  {
    if n > 0 {
      TakenIds(pendings, queue, test, n - 1, id);
      var before := set k: nat | k < n - 1 && test(pendings[queue[k]]);
      var after := set k: nat | k < n && test(pendings[queue[k]]);
      assert after == if test(pendings[queue[n - 1]]) then before + {n - 1} else before;
    }
  }
}
