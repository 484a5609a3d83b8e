/**
  The session goal (reuleauxcoder/domain/goal.py:39-196) and its restoration from a
  snapshot and the ledger.

  `mono` is a reading of the monotonic clock and `wall` one of the wall clock. Goal ids
  are numbered in order of creation. A snapshot may be taken at any time, and a restart
  restores from any snapshot ever taken together with the whole ledger.
 */
module Goals {
  import opened Prelude
  import Plan

  datatype Status = Active | Paused | Blocked | UsageLimited | BudgetLimited | Complete

  datatype Goal = Goal(
    id: nat, objective: string, status: Status, budget: Option<int>,
    tokensUsed: nat, estimatedRequests: nat, timeUsed: real, createdAt: real, updatedAt: real)

  datatype Event = Changed(goal: Option<Goal>) | Reset | Other

  datatype Error = Unfinished | NoGoal | GoalChanged | AlreadyComplete | BadObjective | BadBudget

  datatype System = System(
    goal: Option<Goal>, clock: real, ledger: seq<Event>, nextId: nat, snapshots: seq<Option<Goal>>)

  const MAX_OBJECTIVE_CHARS := 4000

  // ----- Operations -----

  predicate ValidObjective(text: string) {
    0 < |Plan.Strip(text)| <= MAX_OBJECTIVE_CHARS
  }

  predicate ValidBudget(budget: Option<int>) {
    budget.Some? ==> budget.value > 0
  }

  /** `_with_elapsed`. */
  function Elapsed(g: Option<Goal>, clock: real, mono: real): Option<Goal> {
    if g.Some? && g.value.status.Active?
    then Some(g.value.(timeUsed := g.value.timeUsed + mono - clock)) else g
  }

  /** `_commit`. */
  function Commit(s: System, g: Option<Goal>, mono: real): System {
    s.(goal := g, clock := mono, ledger := s.ledger + [Changed(g)])
  }

  /** An active goal that has used up its budget is stopped. */
  function Limited(g: Goal): Goal {
    if g.status.Active? && g.budget.Some? && g.tokensUsed >= g.budget.value then g.(status := BudgetLimited) else g
  }

  function Create(s: System, objective: string, budget: Option<int>, mono: real, wall: real): (System, Option<Error>) {
    if !ValidObjective(objective) then (s, Some(BadObjective))
    else if !ValidBudget(budget) then (s, Some(BadBudget))
    else if s.goal.Some? && !s.goal.value.status.Complete? then (s, Some(Unfinished))
    else
      var g := Goal(s.nextId, Plan.Strip(objective), Active, budget, 0, 0, 0.0, wall, wall);
      (Commit(s, Some(g), mono).(nextId := s.nextId + 1), None)
  }

  /** The arguments of `update`; `budget` counts only with `changeBudget`. */
  datatype Edit = Edit(
    objective: Option<string>, status: Option<Status>, budget: Option<int>, changeBudget: bool,
    expected: Option<(nat, string)>)

  function Edited(g: Goal, e: Edit, wall: real): Goal {
    Limited(g.(
      objective := if e.objective.Some? then Plan.Strip(e.objective.value) else g.objective,
      status := if e.status.Some? then e.status.value else g.status,
      budget := if e.changeBudget then e.budget else g.budget,
      updatedAt := wall))
  }

  function Update(s: System, e: Edit, mono: real, wall: real): (System, Option<Error>) {
    if e.objective.Some? && !ValidObjective(e.objective.value) then (s, Some(BadObjective))
    else if e.changeBudget && !ValidBudget(e.budget) then (s, Some(BadBudget))
    else
      var g := Elapsed(s.goal, s.clock, mono);
      if g.None? then (s, Some(NoGoal))
      else if e.expected.Some? && (g.value.id, g.value.objective) != e.expected.value then (s, Some(GoalChanged))
      else if g.value.status.Complete? && (e.objective.Some? || (e.status.Some? && !e.status.value.Complete?)) then
        (s, Some(AlreadyComplete))
      else (Commit(s, Some(Edited(g.value, e, wall)), mono), None)
  }

  function Stop(s: System, status: Status, mono: real, wall: real): System {
    var g := Elapsed(s.goal, s.clock, mono);
    if g.None? || !g.value.status.Active? then s
    else Commit(s, Some(g.value.(status := status, updatedAt := wall)), mono)
  }

  datatype Usage = Usage(input: int, cached: int, output: nat, estimated: bool)

  function Tokens(u: Usage): nat {
    (if u.input > u.cached then u.input - u.cached else 0) + u.output
  }

  function Charged(g: Goal, u: Usage, wall: real): Goal {
    Limited(g.(
      tokensUsed := g.tokensUsed + Tokens(u),
      estimatedRequests := g.estimatedRequests + (if u.estimated then 1 else 0),
      updatedAt := wall))
  }

  function RecordUsage(s: System, id: nat, u: Usage, mono: real, wall: real): System {
    var g := Elapsed(s.goal, s.clock, mono);
    if g.None? || g.value.id != id then s else Commit(s, Some(Charged(g.value, u, wall)), mono)
  }

  /** The last event that settles the goal among the first `n`; -1 when there is none. */
  function Latest(ledger: seq<Event>, n: nat): (k: int)
    requires n <= |ledger|
    ensures -1 <= k < n && (k >= 0 ==> !ledger[k].Other?)
    ensures forall i :: k < i < n ==> ledger[i].Other?
  {
    if n == 0 then -1 else if !ledger[n - 1].Other? then n - 1 else Latest(ledger, n - 1)
  }

  predicate SameStamp(a: Option<Goal>, b: Option<Goal>) {
    a.Some? && b.Some? && a.value.id == b.value.id && a.value.updatedAt == b.value.updatedAt
  }

  /** What `restore` makes of a snapshot. */
  function Restored(snapshot: Option<Goal>, ledger: seq<Event>): Option<Goal> {
    var k := Latest(ledger, |ledger|);
    if k < 0 then snapshot
    else if ledger[k].Reset? then None
    else if SameStamp(snapshot, ledger[k].goal) then snapshot
    else ledger[k].goal
  }

  // ----- The controller itself -----

  class GoalController {
    var goal: Option<Goal>
    var clock: real
    var ledger: seq<Event>
    var nextId: nat
    ghost var snapshots: seq<Option<Goal>>

    ghost function View(): System
      reads this
    {
      System(goal, clock, ledger, nextId, snapshots)
    }

    constructor (mono: real)
      ensures View() == System(None, mono, [], 0, [])
    {
      goal, clock, ledger, nextId, snapshots := None, mono, [], 0, [];
    }

    method CommitGoal(g: Option<Goal>, mono: real)
      modifies this`goal, this`clock, this`ledger
      ensures View() == Commit(old(View()), g, mono)
    {
      ledger := ledger + [Changed(g)];
      goal := g;
      clock := mono;
    }

    method CreateGoal(objective: string, budget: Option<int>, mono: real, wall: real) returns (error: Option<Error>)
      modifies this
      ensures (View(), error) == Create(old(View()), objective, budget, mono, wall)
      ensures Invariant(old(View())) ==> Invariant(View())
    {
      ghost var before := View();
      if Invariant(before) {
        CreateKeeps(before, objective, budget, mono, wall);
      }
      var text := Plan.Strip(objective);
      if text == "" || |text| > MAX_OBJECTIVE_CHARS {
        return Some(BadObjective);
      }
      if budget.Some? && budget.value <= 0 {
        return Some(BadBudget);
      }
      if goal.Some? && !goal.value.status.Complete? {
        return Some(Unfinished);
      }
      CommitGoal(Some(Goal(nextId, text, Active, budget, 0, 0, 0.0, wall, wall)), mono);
      nextId := nextId + 1;
      error := None;
    }

    method StopGoal(status: Status, mono: real, wall: real)
      modifies this
      ensures View() == Stop(old(View()), status, mono, wall)
      ensures Invariant(old(View())) ==> Invariant(View())
    {
      ghost var before := View();
      if Invariant(before) {
        StopKeeps(before, status, mono, wall);
      }
      var g := Elapsed(goal, clock, mono);
      if g.None? || !g.value.status.Active? {
        return;
      }
      CommitGoal(Some(g.value.(status := status, updatedAt := wall)), mono);
    }

    method Charge(id: nat, u: Usage, mono: real, wall: real)
      modifies this
      ensures View() == RecordUsage(old(View()), id, u, mono, wall)
      ensures Invariant(old(View())) ==> Invariant(View())
    {
      ghost var before := View();
      if Invariant(before) {
        UseKeeps(before, id, u, mono, wall);
      }
      var g := Elapsed(goal, clock, mono);
      if g.None? || g.value.id != id {
        return;
      }
      var used := g.value.(
        tokensUsed := g.value.tokensUsed + Tokens(u),
        estimatedRequests := g.value.estimatedRequests + (if u.estimated then 1 else 0),
        updatedAt := wall);
      if used.status.Active? && used.budget.Some? && used.tokensUsed >= used.budget.value {
        used := used.(status := BudgetLimited);
      }
      CommitGoal(Some(used), mono);
    }

    method UpdateGoal(e: Edit, mono: real, wall: real) returns (error: Option<Error>)
      modifies this
      ensures (View(), error) == Update(old(View()), e, mono, wall)
      ensures Invariant(old(View())) ==> Invariant(View())
    {
      ghost var before := View();
      if Invariant(before) {
        UpdateKeeps(before, e, mono, wall);
      }
      if e.objective.Some? && !ValidObjective(e.objective.value) {
        return Some(BadObjective);
      }
      if e.changeBudget && !ValidBudget(e.budget) {
        return Some(BadBudget);
      }
      var g := Elapsed(goal, clock, mono);
      if g.None? {
        return Some(NoGoal);
      }
      if e.expected.Some? && (g.value.id, g.value.objective) != e.expected.value {
        return Some(GoalChanged);
      }
      if g.value.status.Complete? && (e.objective.Some? || (e.status.Some? && !e.status.value.Complete?)) {
        return Some(AlreadyComplete);
      }
      var edited := g.value.(updatedAt := wall);
      if e.objective.Some? {
        edited := edited.(objective := Plan.Strip(e.objective.value));
      }
      if e.status.Some? {
        edited := edited.(status := e.status.value);
      }
      if e.changeBudget {
        edited := edited.(budget := e.budget);
      }
      if edited.status.Active? && edited.budget.Some? && edited.tokensUsed >= edited.budget.value {
        edited := edited.(status := BudgetLimited);
      }
      CommitGoal(Some(edited), mono);
      error := None;
    }

    /** `restore`: the events from the last one backwards. */
    method Restore(snapshot: Option<Goal>, mono: real)
      modifies this`goal, this`clock
      ensures goal == Restored(snapshot, ledger) && clock == mono
    {
      var chosen := snapshot;
      var i := |ledger|;
      while i > 0
        invariant 0 <= i <= |ledger| && chosen == snapshot
        invariant Latest(ledger, |ledger|) == Latest(ledger, i)
      {
        i := i - 1;
        if ledger[i].Reset? {
          chosen := None;
          break;
        }
        if ledger[i].Changed? {
          if !SameStamp(chosen, ledger[i].goal) {
            chosen := ledger[i].goal;
          }
          break;
        }
      }
      goal := chosen;
      clock := mono;
    }
  }

  // ----- All runs -----

  datatype Step =
    | Creates(objective: string, budget: Option<int>, mono: real, wall: real)
    | Updates(edit: Edit, mono: real, wall: real)
    | Stops(status: Status, mono: real, wall: real)
    | Uses(id: nat, usage: Usage, mono: real, wall: real)
    | Clears(mono: real)
    | Resets(mono: real)
    | Logs
    | Snapshots(mono: real)
    | Restarts(k: nat, mono: real)

  /** The monotonic clock does not run backwards; a restart may begin a new one. */
  predicate Enabled(s: System, step: Step) {
    match step
    case Restarts(k, _) => k < |s.snapshots|
    case Logs => true
    case _ => step.mono >= s.clock
  }

  function Next(s: System, step: Step): System {
    if !Enabled(s, step) then s
    else match step
      case Creates(objective, budget, mono, wall) => Create(s, objective, budget, mono, wall).0
      case Updates(edit, mono, wall) => Update(s, edit, mono, wall).0
      case Stops(status, mono, wall) => Stop(s, status, mono, wall)
      case Uses(id, usage, mono, wall) => RecordUsage(s, id, usage, mono, wall)
      case Clears(mono) => Commit(s, None, mono)
      case Resets(mono) => s.(goal := None, clock := mono, ledger := s.ledger + [Reset])
      case Logs => s.(ledger := s.ledger + [Other])
      case Snapshots(mono) => s.(snapshots := s.snapshots + [Elapsed(s.goal, s.clock, mono)])
      case Restarts(k, mono) => s.(goal := Restored(s.snapshots[k], s.ledger), clock := mono)
  }

  function Run(start: real, steps: seq<Step>): System {
    if steps == [] then System(None, start, [], 0, [])
    else Next(Run(start, steps[..|steps| - 1]), steps[|steps| - 1])
  }

  /** The goal as it was committed, perhaps with more active time. */
  predicate Aged(g: Option<Goal>, committed: Option<Goal>) {
    if committed.None? then g.None?
    else g.Some? && g.value.timeUsed >= committed.value.timeUsed
         && g.value == committed.value.(timeUsed := g.value.timeUsed)
  }

  /** The goal of the last commit or reset. */
  function LastGoal(ledger: seq<Event>): Option<Goal> {
    var k := Latest(ledger, |ledger|);
    if k < 0 || ledger[k].Reset? then None else ledger[k].goal
  }

  predicate Names(e: Event) {
    e.Changed? && e.goal.Some?
  }

  /** No two commits of a goal carry the same time stamp. */
  predicate DistinctStamps(ledger: seq<Event>) {
    forall i, j :: 0 <= i < j < |ledger| && Names(ledger[i]) && Names(ledger[j]) ==>
      !(ledger[i].goal.value.id == ledger[j].goal.value.id
        && ledger[i].goal.value.updatedAt == ledger[j].goal.value.updatedAt)
  }

  /** A snapshot shows some commit. */
  ghost predicate Taken(ledger: seq<Event>, snapshot: Option<Goal>) {
    snapshot.Some? ==> exists k :: 0 <= k < |ledger| && Names(ledger[k]) && Aged(snapshot, ledger[k].goal)
  }

  predicate UnderBudget(g: Goal) {
    g.status.Active? && g.budget.Some? ==> g.tokensUsed < g.budget.value
  }

  /** The second event records no less usage, if both are of one goal. */
  predicate NoLess(a: Event, b: Event) {
    Names(a) && Names(b) && a.goal.value.id == b.goal.value.id ==> a.goal.value.tokensUsed <= b.goal.value.tokensUsed
  }

  /** Goals in the ledger have ids given out and hold their budgets, and usage of an id only grows. */
  ghost predicate Recorded(s: System) {
    && (forall i :: 0 <= i < |s.ledger| && Names(s.ledger[i]) ==>
          s.ledger[i].goal.value.id < s.nextId && UnderBudget(s.ledger[i].goal.value))
    && (forall i, j :: 0 <= i < j < |s.ledger| ==> NoLess(s.ledger[i], s.ledger[j]))
  }

  /** The live goal is the one last committed. */
  predicate Live(s: System) {
    Aged(s.goal, LastGoal(s.ledger))
  }

  ghost predicate Invariant(s: System) {
    Recorded(s) && Live(s) && forall k :: 0 <= k < |s.snapshots| ==> Taken(s.ledger, s.snapshots[k])
  }

  // ----- What every step keeps -----

  lemma LatestSnoc(ledger: seq<Event>, e: Event)
    ensures Latest(ledger + [e], |ledger| + 1) == if e.Other? then Latest(ledger, |ledger|) else |ledger|
  {
    LatestPrefix(ledger, e, |ledger|);
  }

  lemma {:induction false} LatestPrefix(ledger: seq<Event>, e: Event, n: nat)
    requires n <= |ledger|
    ensures Latest(ledger + [e], n) == Latest(ledger, n)
  {
    if n > 0 {
      LatestPrefix(ledger, e, n - 1);
    }
  }

  lemma LastGoalSnoc(ledger: seq<Event>, e: Event)
    ensures LastGoal(ledger + [e])
            == match e case Changed(g) => g case Reset => None case Other => LastGoal(ledger)
  {
    LatestSnoc(ledger, e);
  }

  lemma TakenSnoc(ledger: seq<Event>, e: Event, snapshot: Option<Goal>)
    requires Taken(ledger, snapshot)
    ensures Taken(ledger + [e], snapshot)
  {
    if snapshot.Some? {
      var k :| 0 <= k < |ledger| && Names(ledger[k]) && Aged(snapshot, ledger[k].goal);
      assert (ledger + [e])[k] == ledger[k];
    }
  }

  /** One more event: it records no less than the live goal had used. */
  lemma EventKeeps(s: System, t: System, e: Event)
    requires Invariant(s) && t.ledger == s.ledger + [e] && t.nextId >= s.nextId && t.snapshots == s.snapshots
    requires Live(t)
    requires Names(e) ==> e.goal.value.id < t.nextId && UnderBudget(e.goal.value)
    requires forall i :: 0 <= i < |s.ledger| ==> NoLess(s.ledger[i], e)
    ensures Invariant(t)
  {
    forall k | 0 <= k < |t.snapshots| ensures Taken(t.ledger, t.snapshots[k]) {
      assert Taken(s.ledger, s.snapshots[k]);
      TakenSnoc(s.ledger, e, s.snapshots[k]);
    }
    forall i, j | 0 <= i < j < |t.ledger| ensures NoLess(t.ledger[i], t.ledger[j]) {
      if j < |s.ledger| {
        assert NoLess(s.ledger[i], s.ledger[j]);
      }
    }
  }

  /** The live goal has used all that was ever recorded for it. */
  lemma LiveIsLargest(s: System, i: nat)
    requires Invariant(s) && i < |s.ledger| && s.goal.Some?
    ensures NoLess(s.ledger[i], Changed(s.goal))
  {
    var k := Latest(s.ledger, |s.ledger|);
    assert Names(s.ledger[k]);
    if i < k {
      assert NoLess(s.ledger[i], s.ledger[k]);
    }
  }

  /** Committing a later state of the live goal. */
  lemma CommitKeeps(s: System, g: Goal, mono: real)
    requires Invariant(s) && s.goal.Some?
    requires g.id == s.goal.value.id && g.tokensUsed >= s.goal.value.tokensUsed && UnderBudget(g)
    ensures Invariant(Commit(s, Some(g), mono))
  {
    var e := Changed(Some(g));
    var k := Latest(s.ledger, |s.ledger|);
    assert Names(s.ledger[k]);
    LastGoalSnoc(s.ledger, e);
    forall i | 0 <= i < |s.ledger| ensures NoLess(s.ledger[i], e) {
      LiveIsLargest(s, i);
    }
    EventKeeps(s, Commit(s, Some(g), mono), e);
  }

  lemma CreateKeeps(s: System, objective: string, budget: Option<int>, mono: real, wall: real)
    requires Invariant(s)
    ensures Invariant(Create(s, objective, budget, mono, wall).0)
  {
    var (t, error) := Create(s, objective, budget, mono, wall);
    if error.None? {
      var e := Changed(t.goal);
      LastGoalSnoc(s.ledger, e);
      EventKeeps(s, t, e);
    }
  }

  lemma SilentKeeps(s: System, t: System, e: Event)
    requires Invariant(s) && !Names(e) && t == s.(ledger := s.ledger + [e], goal := t.goal, clock := t.clock)
    requires t.goal == if e.Other? then s.goal else None
    ensures Invariant(t)
  {
    LastGoalSnoc(s.ledger, e);
    EventKeeps(s, t, e);
  }

  lemma SnapshotKeeps(s: System, mono: real)
    requires Invariant(s) && mono >= s.clock
    ensures Invariant(Next(s, Snapshots(mono)))
  {
    var t := Next(s, Snapshots(mono));
    forall k | 0 <= k < |t.snapshots| ensures Taken(t.ledger, t.snapshots[k]) {
      if k < |s.snapshots| {
        assert Taken(s.ledger, s.snapshots[k]);
      } else if s.goal.Some? {
        var at := Latest(s.ledger, |s.ledger|);
        assert Names(s.ledger[at]) && Aged(t.snapshots[k], s.ledger[at].goal);
      }
    }
  }

  /** A commit with the stamp of the last one is told apart from it by nothing but less active time. */
  predicate StampsTell(ledger: seq<Event>) {
    var last := LastGoal(ledger);
    forall j :: 0 <= j < |ledger| && Names(ledger[j]) && last.Some? ==>
      var (g, h) := (ledger[j].goal.value, last.value);
      g.id == h.id && g.updatedAt == h.updatedAt ==> Aged(Some(g), last)
  }

  /** With stamps that tell, restoring from any snapshot ever taken gives the goal last committed. */
  lemma RestoreFindsLast(ledger: seq<Event>, snapshot: Option<Goal>)
    requires Taken(ledger, snapshot) && StampsTell(ledger)
    ensures Aged(Restored(snapshot, ledger), LastGoal(ledger))
  {
    if snapshot.Some? {
      var j :| 0 <= j < |ledger| && Names(ledger[j]) && Aged(snapshot, ledger[j].goal);
      if SameStamp(snapshot, LastGoal(ledger)) {
        assert SameStamp(ledger[j].goal, LastGoal(ledger));
      }
    }
  }

  /** Restoration is right for every snapshot that can have been taken if and only if the stamps tell. */
  lemma RestoreExactIff(ledger: seq<Event>)
    ensures (forall snapshot :: Taken(ledger, snapshot) ==> Aged(Restored(snapshot, ledger), LastGoal(ledger)))
            <==> StampsTell(ledger)
  {
    var last := LastGoal(ledger);
    if StampsTell(ledger) {
      forall snapshot | Taken(ledger, snapshot) ensures Aged(Restored(snapshot, ledger), last) {
        RestoreFindsLast(ledger, snapshot);
      }
    } else {
      var j :| 0 <= j < |ledger| && Names(ledger[j]) && SameStamp(ledger[j].goal, last) && !Aged(ledger[j].goal, last);
      var snapshot := ledger[j].goal;
      assert Taken(ledger, snapshot);
      assert Restored(snapshot, ledger) == snapshot;
    }
  }

  /** Distinct stamps tell. */
  lemma DistinctTell(ledger: seq<Event>)
    requires DistinctStamps(ledger)
    ensures StampsTell(ledger)
  {
    var k := Latest(ledger, |ledger|);
    forall j | 0 <= j < |ledger| && Names(ledger[j]) && SameStamp(ledger[j].goal, LastGoal(ledger))
      ensures Aged(ledger[j].goal, LastGoal(ledger))
    {
      assert j == k;
    }
  }

  /** A restart may rely on its snapshot, whichever it is. */
  predicate SafeStep(s: System, step: Step) {
    step.Restarts? ==> StampsTell(s.ledger)
  }

  lemma UpdateKeeps(s: System, e: Edit, mono: real, wall: real)
    requires Invariant(s)
    ensures Invariant(Update(s, e, mono, wall).0)
  {
    if Update(s, e, mono, wall).1.None? {
      CommitKeeps(s, Edited(Elapsed(s.goal, s.clock, mono).value, e, wall), mono);
    }
  }

  lemma StopKeeps(s: System, status: Status, mono: real, wall: real)
    requires Invariant(s)
    ensures Invariant(Stop(s, status, mono, wall))
  {
    if s.goal.Some? && s.goal.value.status.Active? {
      LiveUnderBudget(s);
      CommitKeeps(s, Elapsed(s.goal, s.clock, mono).value.(status := status, updatedAt := wall), mono);
    }
  }

  lemma UseKeeps(s: System, id: nat, u: Usage, mono: real, wall: real)
    requires Invariant(s)
    ensures Invariant(RecordUsage(s, id, u, mono, wall))
  {
    if s.goal.Some? && s.goal.value.id == id {
      CommitKeeps(s, Charged(Elapsed(s.goal, s.clock, mono).value, u, wall), mono);
    }
  }

  lemma StepKeeps(s: System, step: Step)
    requires Invariant(s) && SafeStep(s, step)
    ensures Invariant(Next(s, step))
  {
    if Enabled(s, step) {
      match step
      case Creates(objective, budget, mono, wall) => CreateKeeps(s, objective, budget, mono, wall);
      case Updates(edit, mono, wall) => UpdateKeeps(s, edit, mono, wall);
      case Stops(status, mono, wall) => StopKeeps(s, status, mono, wall);
      case Uses(id, usage, mono, wall) => UseKeeps(s, id, usage, mono, wall);
      case Clears(mono) => SilentKeeps(s, Next(s, step), Changed(None));
      case Resets(mono) => SilentKeeps(s, Next(s, step), Reset);
      case Logs => SilentKeeps(s, Next(s, step), Other);
      case Snapshots(mono) => SnapshotKeeps(s, mono);
      case Restarts(k, mono) => RestoreFindsLast(s.ledger, s.snapshots[k]);
    }
  }

  /** An active goal is strictly under its budget. */
  lemma LiveUnderBudget(s: System)
    requires Invariant(s) && s.goal.Some?
    ensures UnderBudget(s.goal.value) && s.goal.value.id < s.nextId
  {
    assert Names(s.ledger[Latest(s.ledger, |s.ledger|)]);
  }

  lemma LedgerGrows(s: System, step: Step)
    ensures s.ledger <= Next(s, step).ledger
  {
  }

  /** Every restart of the run comes at a ledger whose stamps tell. */
  predicate SafeRestarts(start: real, steps: seq<Step>) {
    steps == [] ||
    var front := steps[..|steps| - 1];
    SafeRestarts(start, front) && SafeStep(Run(start, front), steps[|steps| - 1])
  }

  /** So every run without a restart is safe, whatever its stamps. */
  lemma {:induction false} NoRestartIsSafe(start: real, steps: seq<Step>)
    requires forall i :: 0 <= i < |steps| ==> !steps[i].Restarts?
    ensures SafeRestarts(start, steps)
  {
    if steps != [] {
      NoRestartIsSafe(start, steps[..|steps| - 1]);
    }
  }

  /** And so is every run whose commits have distinct stamps. */
  lemma {:induction false} DistinctIsSafe(start: real, steps: seq<Step>)
    requires DistinctStamps(Run(start, steps).ledger)
    ensures SafeRestarts(start, steps)
  {
    if steps != [] {
      var s := Run(start, steps[..|steps| - 1]);
      LedgerGrows(s, steps[|steps| - 1]);
      DistinctIsSafe(start, steps[..|steps| - 1]);
      DistinctTell(s.ledger);
    }
  }

  lemma {:induction false} RunKeeps(start: real, steps: seq<Step>)
    requires SafeRestarts(start, steps)
    ensures Invariant(Run(start, steps))
  {
    if steps != [] {
      RunKeeps(start, steps[..|steps| - 1]);
      StepKeeps(Run(start, steps[..|steps| - 1]), steps[|steps| - 1]);
    }
  }

  // ----- Budgets, in every run -----

  predicate Spares(g: Option<Goal>) {
    g.Some? ==> UnderBudget(g.value)
  }

  /** No goal anywhere is active at or over its budget. */
  ghost predicate WithinBudgets(s: System) {
    && Spares(s.goal)
    && (forall i :: 0 <= i < |s.ledger| && s.ledger[i].Changed? ==> Spares(s.ledger[i].goal))
    && (forall k :: 0 <= k < |s.snapshots| ==> Spares(s.snapshots[k]))
  }

  lemma StepSpares(s: System, step: Step)
    requires WithinBudgets(s)
    ensures WithinBudgets(Next(s, step))
  {
  }

  /** An active goal is strictly under its budget in every run: equal stamps and any restarts included. */
  lemma {:induction false} ActiveUnderBudget(start: real, steps: seq<Step>)
    ensures WithinBudgets(Run(start, steps))
  {
    if steps != [] {
      ActiveUnderBudget(start, steps[..|steps| - 1]);
      StepSpares(Run(start, steps[..|steps| - 1]), steps[|steps| - 1]);
    }
  }

  // ----- What follows -----

  /** The live goal is the one last committed, and every snapshot restores to it where the stamps tell. */
  lemma GoalIsLastCommitted(start: real, steps: seq<Step>)
    requires SafeRestarts(start, steps)
    ensures var s := Run(start, steps);
      && Aged(s.goal, LastGoal(s.ledger))
      && (StampsTell(s.ledger) ==>
            forall k :: 0 <= k < |s.snapshots| ==> Aged(Restored(s.snapshots[k], s.ledger), LastGoal(s.ledger)))
  {
    var s := Run(start, steps);
    RunKeeps(start, steps);
    if StampsTell(s.ledger) {
      forall k | 0 <= k < |s.snapshots| ensures Aged(Restored(s.snapshots[k], s.ledger), LastGoal(s.ledger)) {
        RestoreFindsLast(s.ledger, s.snapshots[k]);
      }
    }
  }

  predicate IsComplete(s: System, id: nat) {
    s.goal.Some? && s.goal.value.id == id && s.goal.value.status.Complete?
  }

  /** A complete goal stays complete until a new one is created, it is cleared or the session is reset. */
  lemma CompleteStays(start: real, steps: seq<Step>, step: Step, id: nat)
    requires SafeRestarts(start, steps) && IsComplete(Run(start, steps), id)
    requires SafeStep(Run(start, steps), step)
    requires !step.Creates? && !step.Clears? && !step.Resets?
    ensures IsComplete(Next(Run(start, steps), step), id)
  {
    var s := Run(start, steps);
    RunKeeps(start, steps);
    if step.Restarts? && Enabled(s, step) {
      RestoreFindsLast(s.ledger, s.snapshots[step.k]);
    }
  }

  lemma {:induction false} LedgerPrefix(start: real, steps: seq<Step>, k: nat)
    requires k <= |steps|
    ensures Run(start, steps[..k]).ledger <= Run(start, steps).ledger
    decreases |steps|
  {
    assert steps[..|steps|] == steps;
    if k < |steps| {
      var shorter := steps[..|steps| - 1];
      assert shorter[..k] == steps[..k];
      LedgerPrefix(start, shorter, k);
      LedgerGrows(Run(start, shorter), steps[|steps| - 1]);
    }
  }

  lemma {:induction false} SafePrefix(start: real, steps: seq<Step>, k: nat)
    requires k <= |steps| && SafeRestarts(start, steps)
    ensures SafeRestarts(start, steps[..k])
    decreases |steps|
  {
    assert steps[..|steps|] == steps;
    if k < |steps| {
      var shorter := steps[..|steps| - 1];
      assert shorter[..k] == steps[..k];
      SafePrefix(start, shorter, k);
    }
  }

  /** Between any two points of a run, the usage of one goal does not go down. */
  lemma UsageNeverDecreases(start: real, steps: seq<Step>, k: nat)
    requires k <= |steps| && SafeRestarts(start, steps)
    ensures NoLess(Changed(Run(start, steps[..k]).goal), Changed(Run(start, steps).goal))
  {
    var a, b := Run(start, steps[..k]), Run(start, steps);
    LedgerPrefix(start, steps, k);
    SafePrefix(start, steps, k);
    RunKeeps(start, steps[..k]);
    RunKeeps(start, steps);
    if a.goal.Some? && b.goal.Some? {
      var at := Latest(a.ledger, |a.ledger|);
      assert Names(a.ledger[at]) && b.ledger[at] == a.ledger[at];
      LiveIsLargest(b, at);
    }
  }

  /** Usage committed with the stamp of the commit before it is lost to a snapshot of that one. */
  lemma EqualStampsLoseUsage(s: System, u: Usage, mono: real)
    requires s.goal.Some? && Tokens(u) > 0
    ensures var g := s.goal.value;
      var t := RecordUsage(s, g.id, u, mono, g.updatedAt);
      !Aged(Restored(Elapsed(s.goal, s.clock, mono), t.ledger), LastGoal(t.ledger))
  {
    var g := s.goal.value;
    var t := RecordUsage(s, g.id, u, mono, g.updatedAt);
    LatestSnoc(s.ledger, Changed(t.goal));
  }

  // ----- What the operations do to a goal, and exact accounts -----

  /** The time an active goal has run since the last commit. */
  function RunTime(s: System, mono: real): real {
    if s.goal.Some? && s.goal.value.status.Active? then mono - s.clock else 0.0
  }

  /** An update asks for something a goal can have. */
  predicate Sensible(e: Edit) {
    && (e.objective.Some? ==> Plan.Strip(e.objective.value) != "" && |Plan.Strip(e.objective.value)| <= 4000)
    && (e.changeBudget && e.budget.Some? ==> e.budget.value > 0)
  }

  /** It may be made of this goal: the one expected, and not complete unless it leaves objective and status alone. */
  predicate Fits(g: Goal, e: Edit) {
    && (e.expected.Some? ==> g.id == e.expected.value.0 && g.objective == e.expected.value.1)
    && (g.status == Complete ==> e.objective.None? && (e.status.None? || e.status == Some(Complete)))
  }

  /** The goal after an update that was accepted. */
  predicate GivesAsked(g: Goal, e: Edit, h: Goal, time: real, wall: real) {
    var asked := if e.status.Some? then e.status.value else g.status;
    && h.objective == (if e.objective.Some? then Plan.Strip(e.objective.value) else g.objective)
    && h.budget == (if e.changeBudget then e.budget else g.budget)
    && h.status == (if asked == Active && h.budget.Some? && g.tokensUsed >= h.budget.value
                    then BudgetLimited else asked)
    && h.id == g.id && h.tokensUsed == g.tokensUsed && h.estimatedRequests == g.estimatedRequests
    && h.timeUsed == g.timeUsed + time && h.createdAt == g.createdAt && h.updatedAt == wall
  }

  lemma UpdateAcceptedIff(s: System, e: Edit, mono: real, wall: real)
    ensures Update(s, e, mono, wall).1.None? <==> Sensible(e) && s.goal.Some? && Fits(s.goal.value, e)
    ensures Update(s, e, mono, wall).1.Some? ==> Update(s, e, mono, wall).0 == s
  {
  }

  /**
    An update is accepted iff it is sensible and fits the goal. It then gives the goal the
    objective, budget and status asked for, keeps what is not asked for, and stops the goal
    at once if that leaves it active with its budget used up.
   */
  lemma UpdateGivesAsked(s: System, e: Edit, mono: real, wall: real)
    ensures var (t, error) := Update(s, e, mono, wall);
      if Sensible(e) && s.goal.Some? && Fits(s.goal.value, e) then
        && error.None? && t.goal.Some? && GivesAsked(s.goal.value, e, t.goal.value, RunTime(s, mono), wall)
        && t == s.(goal := t.goal, clock := mono, ledger := s.ledger + [Changed(t.goal)])
      else error.Some? && t == s
  {
    UpdateAcceptedIff(s, e, mono, wall);
  }

  /** A goal is created iff it has an objective and a positive budget or none, and no unfinished goal is in its way. */
  lemma CreateGivesGoal(s: System, objective: string, budget: Option<int>, mono: real, wall: real)
    ensures var (t, error) := Create(s, objective, budget, mono, wall);
      && (error.None? <==>
            && Plan.Strip(objective) != "" && |Plan.Strip(objective)| <= 4000
            && (budget.Some? ==> budget.value > 0)
            && (s.goal.Some? ==> s.goal.value.status == Complete))
      && (error.Some? ==> t == s)
      && (error.None? ==>
            && t.goal == Some(Goal(s.nextId, Plan.Strip(objective), Active, budget, 0, 0, 0.0, wall, wall))
            && t.ledger == s.ledger + [Changed(t.goal)] && t.nextId > s.nextId)
  {
  }

  /** What one request costs: its input that was not cached, and its output. */
  function Price(u: Usage): nat {
    if u.input <= u.cached then u.output else u.input - u.cached + u.output
  }

  /** The step charges the goal `id`. */
  predicate Charges(s: System, step: Step, id: nat) {
    step.Uses? && step.mono >= s.clock && step.id == id && s.goal.Some? && s.goal.value.id == id
  }

  /** All that was ever charged to the goal `id`. */
  function Spent(start: real, steps: seq<Step>, id: nat): nat {
    if steps == [] then 0
    else
      var front, last := steps[..|steps| - 1], steps[|steps| - 1];
      Spent(start, front, id) + if Charges(Run(start, front), last, id) then Price(last.usage) else 0
  }

  /** How many of the requests charged to it had estimated usage. */
  function Estimates(start: real, steps: seq<Step>, id: nat): nat {
    if steps == [] then 0
    else
      var front, last := steps[..|steps| - 1], steps[|steps| - 1];
      Estimates(start, front, id)
      + if Charges(Run(start, front), last, id) && last.usage.estimated then 1 else 0
  }

  lemma StepCharges(s: System, step: Step)
    requires Invariant(s) && SafeStep(s, step) && Next(s, step).goal.Some?
    ensures var g := Next(s, step).goal.value;
      if s.goal.Some? && s.goal.value.id == g.id then
        && g.tokensUsed == s.goal.value.tokensUsed + (if Charges(s, step, g.id) then Price(step.usage) else 0)
        && g.estimatedRequests
           == s.goal.value.estimatedRequests + (if Charges(s, step, g.id) && step.usage.estimated then 1 else 0)
      else step.Creates? && g.id == s.nextId && g.tokensUsed == 0 && g.estimatedRequests == 0
  {
    if Enabled(s, step) {
      match step
      case Restarts(k, mono) => RestoreFindsLast(s.ledger, s.snapshots[k]);
      case _ =>
    }
    if s.goal.Some? {
      LiveUnderBudget(s);
    }
  }

  lemma {:induction false} NothingSpentAhead(start: real, steps: seq<Step>, id: nat)
    requires SafeRestarts(start, steps) && id >= Run(start, steps).nextId
    ensures Spent(start, steps, id) == 0 && Estimates(start, steps, id) == 0
  {
    if steps != [] {
      var front, last := steps[..|steps| - 1], steps[|steps| - 1];
      RunKeeps(start, front);
      if Run(start, front).goal.Some? {
        LiveUnderBudget(Run(start, front));
      }
      NextIdGrows(Run(start, front), last);
      NothingSpentAhead(start, front, id);
    }
  }

  lemma NextIdGrows(s: System, step: Step)
    ensures s.nextId <= Next(s, step).nextId
  {
  }

  /**
    A goal has used exactly what was charged to it: nothing is lost by edits, stops or safe
    restarts, and nothing is counted twice.
   */
  lemma {:induction false} UsageIsSpent(start: real, steps: seq<Step>)
    requires SafeRestarts(start, steps) && Run(start, steps).goal.Some?
    ensures var g := Run(start, steps).goal.value;
      g.tokensUsed == Spent(start, steps, g.id) && g.estimatedRequests == Estimates(start, steps, g.id)
  {
    if steps != [] {
      var front, last := steps[..|steps| - 1], steps[|steps| - 1];
      var s := Run(start, front);
      RunKeeps(start, front);
      StepCharges(s, last);
      var id := Next(s, last).goal.value.id;
      if s.goal.Some? && s.goal.value.id == id {
        UsageIsSpent(start, front);
      } else {
        NothingSpentAhead(start, front, id);
      }
    }
  }

  /** Only an active goal is stopped, and it keeps all but its status. */
  lemma StopGivesStatus(s: System, status: Status, mono: real, wall: real)
    ensures var t := Stop(s, status, mono, wall);
      if s.goal.Some? && s.goal.value.status == Active then
        && t.goal == Some(s.goal.value.(status := status, updatedAt := wall,
                                        timeUsed := s.goal.value.timeUsed + (mono - s.clock)))
        && t.ledger == s.ledger + [Changed(t.goal)]
      else t == s
  {
  }

  /** The time the present goal was active, up to the last commit: the intervals between commits, each once. */
  function Worked(start: real, steps: seq<Step>): real {
    if steps == [] then 0.0
    else
      var front, last := steps[..|steps| - 1], steps[|steps| - 1];
      var (s, t) := (Run(start, front), Run(start, steps));
      if last.Creates? && t.ledger != s.ledger then 0.0 else Worked(start, front) + RunTime(s, t.clock)
  }

  lemma StepWorks(s: System, step: Step)
    requires !step.Restarts? && Next(s, step).goal.Some?
    ensures var t := Next(s, step);
      if step.Creates? && t.ledger != s.ledger then t.goal.value.timeUsed == 0.0
      else s.goal.Some? && t.goal.value.timeUsed == s.goal.value.timeUsed + RunTime(s, t.clock)
  {
  }

  /** In every run without a restart a goal's time is exactly the time it was active. */
  lemma {:induction false} TimeIsWorked(start: real, steps: seq<Step>)
    requires forall i :: 0 <= i < |steps| ==> !steps[i].Restarts?
    requires Run(start, steps).goal.Some?
    ensures Run(start, steps).goal.value.timeUsed == Worked(start, steps)
  {
    if steps != [] {
      var front, last := steps[..|steps| - 1], steps[|steps| - 1];
      StepWorks(Run(start, front), last);
      if !(last.Creates? && Run(start, steps).ledger != Run(start, front).ledger) {
        TimeIsWorked(start, front);
      }
    }
  }

  // ----- Goals that are gone -----

  lemma NothingComesBack(s: System, step: Step)
    requires Invariant(s) && s.goal.None? && SafeStep(s, step) && !step.Creates?
    ensures Next(s, step).goal.None?
  {
    if step.Restarts? && Enabled(s, step) {
      RestoreFindsLast(s.ledger, s.snapshots[step.k]);
    }
  }

  /** A goal that was cleared or reset stays gone, whatever snapshots are restored, until one is created. */
  lemma {:induction false} GoneUntilCreated(start: real, steps: seq<Step>, k: nat)
    requires k < |steps| && SafeRestarts(start, steps)
    requires steps[k].Clears? || steps[k].Resets?
    requires steps[k].mono >= Run(start, steps[..k]).clock
    requires forall i :: k < i < |steps| ==> !steps[i].Creates?
    ensures Run(start, steps).goal.None?
    decreases |steps|
  {
    var front, last := steps[..|steps| - 1], steps[|steps| - 1];
    if k < |steps| - 1 {
      assert front[..k] == steps[..k];
      GoneUntilCreated(start, front, k);
      RunKeeps(start, front);
      NothingComesBack(Run(start, front), last);
    }
  }
}
