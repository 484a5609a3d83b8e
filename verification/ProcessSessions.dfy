/**
  The session-level process manager (reuleauxcoder/domain/process_manager.py:157-340,
  748-762, 895-957 and 1083-1131): capacity, port reference counts, expiry and
  completion events.

  A session is numbered by the `start` call that creates it. A `Step` is one section
  that runs under the manager's lock; processes, ports and clocks act arbitrarily.
 */
module ProcessSessions {
  import opened Prelude

  datatype State = Running | Exited | Unknown

  /** Where the `start` call stands; `handle` says whether the port had returned one when it failed. */
  datatype Stage = Reserved | Failed(handle: bool) | Registered | Settled

  datatype Watcher = NotStarted | Watching | Ended

  datatype Session = Session(
    port: nat, stage: Stage, id: string, state: State,
    published: bool, observed: bool, abandoned: bool, completed: bool, watcher: Watcher)

  /** `entries` maps a session id to its session; `emitted` logs the COMPLETED events. */
  datatype System = System(
    maxSessions: nat,
    sessions: seq<Session>,
    entries: map<string, nat>,
    ports: set<nat>,
    startingPorts: map<nat, nat>,
    starting: int,
    closing: bool,
    cleared: bool,
    emitted: seq<nat>)

  // ----- The locked sections, on values -----

  predicate InRange(s: System) {
    forall id :: id in s.entries ==> s.entries[id] < |s.sessions|
  }

  function Set(s: System, i: nat, x: Session): System
    requires i < |s.sessions|
  {
    s.(sessions := s.sessions[i := x])
  }

  /** `_cleanup_expired_locked`: of the sessions that are due, those seen exited leave. */
  function Expire(s: System, due: set<string>): System
    requires InRange(s)
  {
    s.(entries := map id | id in s.entries && !(id in due && s.sessions[s.entries[id]].state.Exited?) :: s.entries[id])
  }

  function Count(m: map<nat, nat>, port: nat): nat {
    if port in m then m[port] else 0
  }

  predicate PortInUse(s: System, port: nat)
    requires InRange(s)
  {
    exists id :: id in s.entries && s.sessions[s.entries[id]].port == port
  }

  /** `_drop_idle_port_locked`. */
  function DropIdle(s: System, port: nat): System
    requires InRange(s)
  {
    if Count(s.startingPorts, port) > 0 || PortInUse(s, port) then s else s.(ports := s.ports - {port})
  }

  /** What a granted reservation adds. */
  function Granted(s: System, port: nat): System {
    s.(sessions := s.sessions + [Session(port, Reserved, "", Running, false, false, false, false, NotStarted)],
       ports := s.ports + {port},
       startingPorts := s.startingPorts[port := Count(s.startingPorts, port) + 1],
       starting := s.starting + 1)
  }

  /** The first locked section of `start`; a refusal leaves only the expiry behind. */
  function Reserve(s: System, port: nat, due: set<string>): System
    requires InRange(s)
  {
    if s.closing then s
    else
      var e := Expire(s, due);
      if |e.entries| + e.starting >= e.maxSessions then e
      else Granted(e, port)
  }

  /** The second locked section of `start`, once the port has returned a handle and a first snapshot. */
  function Register(s: System, i: nat, id: string, state: State): System
    requires i < |s.sessions|
  {
    if s.closing || id in s.entries then Set(s, i, s.sessions[i].(stage := Failed(true)))
    else Set(s, i, s.sessions[i].(stage := Registered, id := id, state := state)).(entries := s.entries[id := i])
  }

  /** The handler of an interrupt between registration and return. */
  function Unregister(s: System, i: nat): System
    requires i < |s.sessions|
  {
    Set(s, i, s.sessions[i].(stage := Failed(true))).(entries := s.entries - {s.sessions[i].id})
  }

  /** The counters after a start has ended. */
  function Landed(s: System, i: nat): System
    requires i < |s.sessions|
  {
    var port := s.sessions[i].port;
    var remaining := Count(s.startingPorts, port) - 1;
    Set(s, i, s.sessions[i].(stage := Settled)).(
      starting := s.starting - 1,
      startingPorts := if remaining > 0 then s.startingPorts[port := remaining] else s.startingPorts - {port})
  }

  /** The `finally` section of `start`. */
  function Settle(s: System, i: nat): System
    requires InRange(s) && i < |s.sessions|
  {
    var x := s.sessions[i];
    var t := Landed(s, i);
    if Count(s.startingPorts, x.port) > 1 || x.stage == Failed(true) then t else DropIdle(t, x.port)
  }

  function StartWatcher(x: Session): Session {
    if x.watcher.NotStarted? then x.(watcher := Watching) else x
  }

  /** The first locked section of `publish`; the last one is `Launches`. */
  function Publish(s: System, i: nat, observed: bool): System
    requires i < |s.sessions|
  {
    var x := s.sessions[i];
    var exited := x.state.Exited?;
    var emit := exited && !x.completed;
    var x' := x.(published := true, observed := x.observed || (observed && exited), completed := x.completed || emit);
    Set(s, i, x').(emitted := if emit then s.emitted + [i] else s.emitted)
  }

  function Abandon(s: System, i: nat): System
    requires i < |s.sessions|
  {
    var x := s.sessions[i];
    if x.published then s
    else if x.state.Exited? then Set(s, i, x.(abandoned := true)).(entries := s.entries - {x.id})
    else Set(s, i, StartWatcher(x.(abandoned := true)))
  }

  /** A consumer's poll stores what it saw. */
  function Observe(s: System, i: nat, state: State, mark: bool): System
    requires i < |s.sessions|
  {
    var x := s.sessions[i];
    Set(s, i, x.(state := state, observed := x.observed || (mark && state.Exited?)))
  }

  /** One locked round of `_watch` for a session that is still an entry. */
  function Watch(s: System, i: nat, state: State): System
    requires i < |s.sessions|
  {
    var x := s.sessions[i];
    var exited := state.Exited?;
    var emit := x.published && exited && !x.completed;
    var x' := x.(state := state, completed := x.completed || emit, watcher := if exited then Ended else x.watcher);
    Set(s, i, x').(
      entries := if x.abandoned && exited then s.entries - {x.id} else s.entries,
      emitted := if emit && !x.abandoned then s.emitted + [i] else s.emitted)
  }

  /** `shutdown` starts the watcher of every entry once it has stopped waiting for the starts. */
  function WakeAll(s: System): System {
    s.(sessions := seq(|s.sessions|, i requires 0 <= i < |s.sessions| =>
         if s.sessions[i].id in s.entries && s.entries[s.sessions[i].id] == i
         then StartWatcher(s.sessions[i]) else s.sessions[i]))
  }

  function Clear(s: System): System {
    s.(entries := map[], ports := {}, cleared := true)
  }

  // ----- The manager itself -----

  class ProcessManager {
    const maxSessions: nat
    var sessions: seq<Session>
    var entries: map<string, nat>
    var ports: set<nat>
    var startingPorts: map<nat, nat>
    var starting: int
    var closing: bool
    var cleared: bool
    var emitted: seq<nat>

    function View(): System
      reads this
    {
      System(maxSessions, sessions, entries, ports, startingPorts, starting, closing, cleared, emitted)
    }

    constructor (limit: nat)
      ensures View() == Initial(limit)
    {
      maxSessions := limit;
      sessions, entries, ports, startingPorts, starting, closing, cleared, emitted :=
        [], map[], {}, map[], 0, false, false, [];
    }

    /** `_cleanup_expired_locked`: one pass collects the expired entries, a second one drops them. */
    method CleanupExpired(due: set<string>)
      requires InRange(View())
      modifies this`entries
      ensures View() == Expire(old(View()), due)
    {
      ghost var before := View();
      var expired: set<string> := {};
      var todo := entries.Keys;
      while todo != {}
        invariant todo <= entries.Keys && expired <= entries.Keys
        invariant forall id :: id in entries && id !in todo ==>
          (id in expired <==> id in due && sessions[entries[id]].state.Exited?)
        invariant expired !! todo
        decreases todo
      {
        var id :| id in todo;
        todo := todo - {id};
        if sessions[entries[id]].state.Exited? && id in due {
          expired := expired + {id};
        }
      }
      entries := entries - expired;
      assert entries == Expire(before, due).entries;
    }

    /** `_drop_idle_port_locked`. */
    method DropIdlePort(port: nat)
      requires InRange(View())
      modifies this`ports
      ensures View() == DropIdle(old(View()), port)
    {
      if port in startingPorts && startingPorts[port] > 0 {
        return;
      }
      var todo := entries.Keys;
      while todo != {}
        invariant todo <= entries.Keys
        invariant forall id :: id in entries && id !in todo ==> sessions[entries[id]].port != port
        decreases todo
      {
        var id :| id in todo;
        todo := todo - {id};
        if sessions[entries[id]].port == port {
          return;
        }
      }
      ports := ports - {port};
    }

    /** The first locked section of `start`; the number of the new session unless it is refused. */
    method BeginStart(port: nat, due: set<string>) returns (granted: bool, i: nat)
      requires InRange(View())
      modifies this
      ensures View() == Reserve(old(View()), port, due)
      ensures granted ==> i == |old(sessions)| == |sessions| - 1
      ensures !granted ==> sessions == old(sessions)
    {
      if closing {
        return false, 0;
      }
      CleanupExpired(due);
      if |entries| + starting >= maxSessions {
        return false, 0;
      }
      ports := ports + {port};
      startingPorts := startingPorts[port := Count(startingPorts, port) + 1];
      starting := starting + 1;
      i := |sessions|;
      sessions := sessions + [Session(port, Reserved, "", Running, false, false, false, false, NotStarted)];
      granted := true;
    }

    /** The second locked section of `start`. */
    method RegisterEntry(i: nat, id: string, state: State) returns (registered: bool)
      requires i < |sessions|
      modifies this
      ensures View() == Register(old(View()), i, id, state)
      ensures registered <==> !old(closing) && id !in old(entries)
      ensures Invariant(old(View())) && old(sessions)[i].stage.Reserved? ==> Invariant(View())
    {
      ghost var before := View();
      if Invariant(before) && sessions[i].stage.Reserved? {
        RegisterKeeps(before, i, id, state);
      }
      if closing || id in entries {
        sessions := sessions[i := sessions[i].(stage := Failed(true))];
        return false;
      }
      sessions := sessions[i := sessions[i].(stage := Registered, id := id, state := state)];
      entries := entries[id := i];
      return true;
    }

    /** The `finally` section of `start`; a port is kept when a handle exists that was not registered. */
    method FinishStart(i: nat)
      requires i < |sessions| && InRange(View())
      modifies this
      ensures View() == Settle(old(View()), i)
      ensures Invariant(old(View())) && InFlight(old(View()), i) ==> Invariant(View())
    {
      ghost var before := View();
      if Invariant(before) && InFlight(before, i) {
        SettleKeeps(before, i);
      }
      var port := sessions[i].port;
      var undone := sessions[i].stage == Failed(true);
      starting := starting - 1;
      var remaining := Count(startingPorts, port) - 1;
      sessions := sessions[i := sessions[i].(stage := Settled)];
      if remaining > 0 {
        startingPorts := startingPorts[port := remaining];
      } else {
        startingPorts := startingPorts - {port};
        if !undone {
          DropIdlePort(port);
        }
      }
    }

    /** The first locked section of `publish`. */
    method PublishEntry(id: string, observed: bool)
      requires InRange(View()) && id in entries
      modifies this`sessions, this`emitted
      ensures View() == Publish(old(View()), old(entries[id]), observed)
      ensures Invariant(old(View())) ==> Invariant(View())
    {
      ghost var before := View();
      if Invariant(before) {
        PublishKeeps(before, entries[id], observed);
      }
      var i := entries[id];
      var x := sessions[i].(published := true);
      if observed && x.state.Exited? {
        x := x.(observed := true);
      }
      if x.state.Exited? && !x.completed {
        x := x.(completed := true);
        emitted := emitted + [i];
      }
      sessions := sessions[i := x];
    }

    /** The locked section of `abandon`. */
    method AbandonEntry(id: string)
      requires InRange(View()) && id in entries && sessions[entries[id]].id == id
      modifies this`sessions, this`entries
      ensures View() == Abandon(old(View()), old(entries[id]))
      ensures Invariant(old(View())) ==> Invariant(View())
    {
      ghost var before := View();
      if Invariant(before) {
        AbandonKeeps(before, entries[id]);
      }
      var i := entries[id];
      var x := sessions[i];
      if x.published {
        return;
      }
      sessions := sessions[i := x.(abandoned := true)];
      if x.state.Exited? {
        entries := entries - {id};
      } else {
        sessions := sessions[i := StartWatcher(sessions[i])];
      }
    }

    /** The locked section of one round of `_watch`, and the event that follows it. */
    method WatchRound(i: nat, state: State)
      requires Current(View(), i)
      modifies this`sessions, this`entries, this`emitted
      ensures View() == Watch(old(View()), i, state)
      ensures Invariant(old(View())) ==> Invariant(View())
    {
      ghost var before := View();
      if Invariant(before) {
        WatchKeeps(before, i, state);
      }
      var x := sessions[i].(state := state);
      var emit := x.published && state.Exited? && !x.completed;
      if emit {
        x := x.(completed := true);
      }
      if x.abandoned && state.Exited? {
        entries := entries - {x.id};
      }
      if state.Exited? {
        x := x.(watcher := Ended);
      }
      if emit && !x.abandoned {
        emitted := emitted + [i];
      }
      sessions := sessions[i := x];
    }
  }

  // ----- All interleavings -----

  datatype Step =
    | Begins(port: nat, due: set<string>)
    | Fails(i: nat, handle: bool)
    | Registers(i: nat, id: string, state: State)
    | Interrupts(i: nat)
    | Settles(i: nat)
    | Publishes(id: string, observed: bool)
    | Abandons(id: string)
    | Polls(id: string, state: State, mark: bool)
    | Watches(i: nat, state: State)
    | Launches(i: nat)
    | Lists(due: set<string>)
    | Drops(port: nat)
    | Shuts
    | Wakes
    | Clears

  /** Session `i` is the entry filed under its id. */
  predicate Current(s: System, i: nat) {
    i < |s.sessions| && s.sessions[i].id in s.entries && s.entries[s.sessions[i].id] == i
  }

  predicate InFlight(s: System, i: nat) {
    i < |s.sessions| && !s.sessions[i].stage.Settled?
  }

  predicate Enabled(s: System, step: Step) {
    match step
    case Begins(_, _) => true
    case Fails(i, _) => i < |s.sessions| && s.sessions[i].stage.Reserved?
    case Registers(i, _, _) => i < |s.sessions| && s.sessions[i].stage.Reserved?
    case Interrupts(i) => i < |s.sessions| && s.sessions[i].stage.Registered?
    case Settles(i) => InFlight(s, i) && !s.sessions[i].stage.Reserved?
    case Publishes(id, _) => id in s.entries
    case Abandons(id) => id in s.entries
    case Polls(id, _, _) => id in s.entries
    case Watches(i, _) => Current(s, i) && s.sessions[i].watcher.Watching?
    case Launches(i) => i < |s.sessions| && s.sessions[i].published
    case Lists(_) => true
    case Drops(_) => true
    case Shuts => true
    case Wakes => s.closing
    case Clears => s.closing
  }

  function Next(s: System, step: Step): System {
    if !InRange(s) || !Enabled(s, step) then s
    else match step
      case Begins(port, due) => Reserve(s, port, due)
      case Fails(i, handle) => Set(s, i, s.sessions[i].(stage := Failed(handle)))
      case Registers(i, id, state) => Register(s, i, id, state)
      case Interrupts(i) => Unregister(s, i)
      case Settles(i) => Settle(s, i)
      case Publishes(id, observed) => Publish(s, s.entries[id], observed)
      case Abandons(id) => Abandon(s, s.entries[id])
      case Polls(id, state, mark) => Observe(s, s.entries[id], state, mark)
      case Watches(i, state) => Watch(s, i, state)
      case Launches(i) => Set(s, i, StartWatcher(s.sessions[i]))
      case Lists(due) => Expire(s, due)
      case Drops(port) => DropIdle(s, port)
      case Shuts => s.(closing := true)
      case Wakes => WakeAll(s)
      case Clears => Clear(s)
  }

  function Initial(maxSessions: nat): System {
    System(maxSessions, [], map[], {}, map[], 0, false, false, [])
  }

  function Run(maxSessions: nat, steps: seq<Step>): System {
    if steps == [] then Initial(maxSessions)
    else Next(Run(maxSessions, steps[..|steps| - 1]), steps[|steps| - 1])
  }

  // ----- What every step keeps -----

  ghost function Flying(s: System): set<nat> {
    set i: nat | i < |s.sessions| && InFlight(s, i)
  }

  ghost function FlyingOn(s: System, port: nat): set<nat> {
    set i: nat | i < |s.sessions| && InFlight(s, i) && s.sessions[i].port == port
  }

  /** Sessions that take up capacity: an entry, or a start under way. */
  ghost function Occupied(s: System): set<nat> {
    set i: nat | i < |s.sessions| && (InFlight(s, i) || Current(s, i))
  }

  ghost predicate Keyed(s: System) {
    forall id :: id in s.entries ==>
      && s.entries[id] < |s.sessions|
      && s.sessions[s.entries[id]].id == id
      && (s.sessions[s.entries[id]].stage.Registered? || s.sessions[s.entries[id]].stage.Settled?)
  }

  ghost predicate Counted(s: System) {
    && s.starting == |Flying(s)|
    && (forall port :: Tallied(s, port))
    && Summed(s.startingPorts, s.starting)
  }

  ghost predicate Tallied(s: System, port: nat) {
    Count(s.startingPorts, port) == |FlyingOn(s, port)|
  }

  ghost predicate Summed(counts: map<nat, nat>, total: int) {
    Sum(counts) == total && forall port :: port in counts ==> counts[port] > 0
  }

  ghost predicate WithinCapacity(s: System) {
    |Occupied(s)| <= s.maxSessions
  }

  ghost predicate PortsKnown(s: System) {
    !s.cleared ==>
      forall i :: 0 <= i < |s.sessions| && (InFlight(s, i) || Current(s, i)) ==> s.sessions[i].port in s.ports
  }

  ghost predicate Once(s: System) {
    && (forall j, k :: 0 <= j < k < |s.emitted| ==> s.emitted[j] != s.emitted[k])
    && (forall k :: 0 <= k < |s.emitted| ==>
          s.emitted[k] < |s.sessions| && s.sessions[s.emitted[k]].completed && s.sessions[s.emitted[k]].published)
  }

  /** Only a session that was abandoned can complete unreported. */
  ghost predicate Reported(s: System) {
    forall i :: 0 <= i < |s.sessions| && s.sessions[i].completed && !s.sessions[i].abandoned ==> i in s.emitted
  }

  ghost predicate Invariant(s: System) {
    Keyed(s) && Counted(s) && WithinCapacity(s) && PortsKnown(s) && Once(s) && Reported(s)
  }

  // ----- Sums and sizes -----

  ghost function Sum(m: map<nat, nat>): nat {
    if m == map[] then 0 else var k :| k in m; m[k] + Sum(m - {k})
  }

  lemma {:induction false} SumTake(m: map<nat, nat>, k: nat)
    requires k in m
    ensures Sum(m) == m[k] + Sum(m - {k})
    decreases |m|
  {
    var j :| j in m && Sum(m) == m[j] + Sum(m - {j});
    if j != k {
      SumTake(m - {j}, k);
      SumTake(m - {k}, j);
      assert (m - {j}) - {k} == (m - {k}) - {j};
    }
  }

  lemma SumPut(m: map<nat, nat>, k: nat, v: nat)
    ensures Sum(m[k := v]) == v + Sum(m - {k})
    ensures Sum(m) == Count(m, k) + Sum(m - {k})
  {
    SumTake(m[k := v], k);
    assert m[k := v] - {k} == m - {k};
    if k in m {
      SumTake(m, k);
    } else {
      assert m - {k} == m;
    }
  }

  /** Entries and the sessions filed there are equally many. */
  lemma {:induction false} EntrySize(s: System, a: set<nat>, ids: set<string>)
    requires Keyed(s)
    requires forall i :: i in a ==> Current(s, i) && s.sessions[i].id in ids
    requires forall id :: id in ids ==> id in s.entries && s.entries[id] in a
    ensures |a| == |ids|
    decreases |a|
  {
    if a == {} {
      assert ids == {} by {
        if id :| id in ids {
          assert s.entries[id] in a;
        }
      }
    } else {
      var i :| i in a;
      EntrySize(s, a - {i}, ids - {s.sessions[i].id});
    }
  }

  ghost function CurrentSet(s: System): set<nat> {
    set i: nat | i < |s.sessions| && Current(s, i)
  }

  lemma CurrentSize(s: System)
    requires Keyed(s)
    ensures |CurrentSet(s)| == |s.entries|
  {
    EntrySize(s, CurrentSet(s), s.entries.Keys);
    assert |s.entries| == |s.entries.Keys|;
  }

  // ----- Steps that move no start and add no entry -----

  /** The starts under way and the ports are untouched, and entries can only leave. */
  ghost predicate Quiet(s: System, t: System) {
    && |t.sessions| == |s.sessions|
    && (forall i :: 0 <= i < |s.sessions| ==>
          && t.sessions[i].port == s.sessions[i].port
          && t.sessions[i].stage == s.sessions[i].stage
          && t.sessions[i].id == s.sessions[i].id)
    && (forall id :: id in t.entries ==> id in s.entries && t.entries[id] == s.entries[id])
    && t.maxSessions == s.maxSessions && t.startingPorts == s.startingPorts && t.starting == s.starting
  }

  lemma SameFlights(s: System, t: System)
    requires |t.sessions| == |s.sessions|
    requires forall i :: 0 <= i < |s.sessions| ==>
      t.sessions[i].port == s.sessions[i].port && t.sessions[i].stage.Settled? == s.sessions[i].stage.Settled?
    ensures Flying(t) == Flying(s)
    ensures forall port :: FlyingOn(t, port) == FlyingOn(s, port)
  {
  }

  lemma SameCounted(s: System, t: System)
    requires Counted(s)
    requires |t.sessions| == |s.sessions| && t.starting == s.starting && t.startingPorts == s.startingPorts
    requires forall i :: 0 <= i < |s.sessions| ==>
      t.sessions[i].port == s.sessions[i].port && t.sessions[i].stage.Settled? == s.sessions[i].stage.Settled?
    ensures Counted(t)
  {
    SameFlights(s, t);
    forall port ensures Tallied(t, port) {
      assert Tallied(s, port);
    }
  }

  lemma QuietKeeps(s: System, t: System)
    requires Keyed(s) && Counted(s) && WithinCapacity(s)
    requires Quiet(s, t)
    ensures Keyed(t) && Counted(t) && WithinCapacity(t)
  {
    SameCounted(s, t);
    SubsetSize(Occupied(t), Occupied(s));
  }

  lemma QuietKeepsPorts(s: System, t: System)
    requires PortsKnown(s) && Quiet(s, t)
    requires t.cleared || (t.cleared == s.cleared && t.ports == s.ports)
    ensures PortsKnown(t)
  {
  }

  lemma OnceKept(s: System, t: System)
    requires Once(s) && Reported(s) && t.emitted == s.emitted && |s.sessions| <= |t.sessions|
    requires forall i :: 0 <= i < |s.sessions| && s.sessions[i].completed && s.sessions[i].published ==>
      t.sessions[i].completed && t.sessions[i].published
    requires forall i :: 0 <= i < |t.sessions| && t.sessions[i].completed && !t.sessions[i].abandoned ==>
      i < |s.sessions| && s.sessions[i].completed && !s.sessions[i].abandoned
    ensures Once(t) && Reported(t)
  {
  }

  lemma OnceEmitted(s: System, t: System, i: nat)
    requires Once(s) && Reported(s) && i < |s.sessions| && !s.sessions[i].completed
    requires t.emitted == s.emitted + [i] && |t.sessions| == |s.sessions|
    requires t.sessions[i].completed && t.sessions[i].published
    requires forall j :: 0 <= j < |s.sessions| && j != i ==> t.sessions[j] == s.sessions[j]
    ensures Once(t) && Reported(t)
  {
  }

  lemma ExpireQuiet(s: System, due: set<string>)
    requires InRange(s)
    ensures Quiet(s, Expire(s, due)) && Expire(s, due).sessions == s.sessions
    ensures Expire(s, due).ports == s.ports && Expire(s, due).cleared == s.cleared
    ensures Expire(s, due).emitted == s.emitted
  {
  }

  // ----- Reservation -----

  lemma GrantedFlights(s: System, port: nat)
    ensures Flying(Granted(s, port)) == Flying(s) + {|s.sessions|}
    ensures FlyingOn(Granted(s, port), port) == FlyingOn(s, port) + {|s.sessions|}
    ensures forall p :: p != port ==> FlyingOn(Granted(s, port), p) == FlyingOn(s, p)
  {
    var t := Granted(s, port);
    assert forall i :: 0 <= i < |s.sessions| ==> t.sessions[i] == s.sessions[i];
  }

  lemma AddedSize(a: set<nat>, x: nat)
    requires x !in a
    ensures |a + {x}| == |a| + 1
  {
  }

  lemma GrantedTallied(s: System, port: nat, p: nat)
    requires Tallied(s, p)
    ensures Tallied(Granted(s, port), p)
  {
    GrantedFlights(s, port);
    if p == port {
      AddedSize(FlyingOn(s, port), |s.sessions|);
    }
  }

  lemma GrantedFlying(s: System, port: nat)
    ensures |Flying(Granted(s, port))| == |Flying(s)| + 1
  {
    GrantedFlights(s, port);
    AddedSize(Flying(s), |s.sessions|);
  }

  lemma GrantedCounted(s: System, port: nat)
    requires Counted(s)
    ensures Counted(Granted(s, port))
  {
    GrantedFlying(s, port);
    forall p ensures Tallied(Granted(s, port), p) {
      GrantedTallied(s, port, p);
    }
    SumPut(s.startingPorts, port, Count(s.startingPorts, port) + 1);
  }

  lemma OccupiedBound(s: System)
    requires Keyed(s) && Counted(s)
    ensures |Occupied(s)| <= |s.entries| + s.starting
  {
    CurrentSize(s);
    assert Occupied(s) == Flying(s) + CurrentSet(s);
  }

  lemma GrantedKeyed(s: System, port: nat)
    requires Keyed(s)
    ensures Keyed(Granted(s, port))
  {
    var t := Granted(s, port);
    assert forall i :: 0 <= i < |s.sessions| ==> t.sessions[i] == s.sessions[i];
  }

  lemma GrantedOccupies(s: System, port: nat)
    requires Keyed(s)
    ensures Occupied(Granted(s, port)) <= Occupied(s) + {|s.sessions|}
  {
    var t := Granted(s, port);
    forall i: nat | i in Occupied(t) && i != |s.sessions| ensures i in Occupied(s) {
      assert t.sessions[i] == s.sessions[i];
    }
  }

  lemma GrantedRoom(s: System, port: nat)
    requires Keyed(s) && Counted(s)
    requires |s.entries| + s.starting < s.maxSessions
    ensures WithinCapacity(Granted(s, port))
  {
    OccupiedBound(s);
    GrantedOccupies(s, port);
    SubsetSize(Occupied(Granted(s, port)), Occupied(s) + {|s.sessions|});
  }

  lemma GrantedPorts(s: System, port: nat)
    requires Keyed(s) && PortsKnown(s)
    ensures PortsKnown(Granted(s, port))
  {
    var t := Granted(s, port);
    assert forall i :: 0 <= i < |s.sessions| ==> t.sessions[i] == s.sessions[i];
  }

  lemma GrantedKeeps(s: System, port: nat)
    requires Invariant(s) && |s.entries| + s.starting < s.maxSessions
    ensures Invariant(Granted(s, port))
  {
    GrantedCounted(s, port);
    GrantedKeyed(s, port);
    GrantedRoom(s, port);
    GrantedPorts(s, port);
    OnceKept(s, Granted(s, port));
  }

  lemma ExpireKeeps(s: System, due: set<string>)
    requires Invariant(s)
    ensures Invariant(Expire(s, due))
  {
    var e := Expire(s, due);
    ExpireQuiet(s, due);
    QuietKeeps(s, e);
    QuietKeepsPorts(s, e);
    OnceKept(s, e);
  }

  lemma ReserveKeeps(s: System, port: nat, due: set<string>)
    requires Invariant(s)
    ensures Invariant(Reserve(s, port, due))
  {
    if !s.closing {
      var e := Expire(s, due);
      ExpireKeeps(s, due);
      if |e.entries| + e.starting < e.maxSessions {
        GrantedKeeps(e, port);
      }
    }
  }

  // ----- Registration and failure -----

  /** A start changes stage without leaving flight. */
  lemma StageKeeps(s: System, t: System, i: nat, x: Session)
    requires Invariant(s) && InFlight(s, i)
    requires x.port == s.sessions[i].port && !x.stage.Settled?
    requires x.completed == s.sessions[i].completed && x.published == s.sessions[i].published
    requires x.abandoned == s.sessions[i].abandoned
    requires t == Set(s, i, x).(entries := t.entries)
    ensures Counted(t) && Once(t) && Reported(t)
  {
    SameCounted(s, t);
    OnceKept(s, t);
  }

  lemma FailKeeps(s: System, i: nat, handle: bool)
    requires Invariant(s) && i < |s.sessions| && s.sessions[i].stage.Reserved?
    ensures Invariant(Set(s, i, s.sessions[i].(stage := Failed(handle))))
  {
    var x := s.sessions[i].(stage := Failed(handle));
    var t := Set(s, i, x);
    StageKeeps(s, t, i, x);
    assert Occupied(t) == Occupied(s);
    assert Keyed(t) by {
      forall id | id in t.entries ensures t.entries[id] != i { }
    }
  }

  lemma RegisterKeeps(s: System, i: nat, id: string, state: State)
    requires Invariant(s) && i < |s.sessions| && s.sessions[i].stage.Reserved?
    ensures Invariant(Register(s, i, id, state))
  {
    if s.closing || id in s.entries {
      FailKeeps(s, i, true);
    } else {
      var x := s.sessions[i].(stage := Registered, id := id, state := state);
      var t := Register(s, i, id, state);
      StageKeeps(s, t, i, x);
      forall j | 0 <= j < |s.sessions| && (InFlight(t, j) || Current(t, j))
        ensures InFlight(s, j) || Current(s, j)
      {
      }
      assert Occupied(t) <= Occupied(s);
      SubsetSize(Occupied(t), Occupied(s));
    }
  }

  lemma UnregisterKeeps(s: System, i: nat)
    requires Invariant(s) && i < |s.sessions| && s.sessions[i].stage.Registered?
    ensures Invariant(Unregister(s, i))
  {
    var x := s.sessions[i].(stage := Failed(true));
    var t := Unregister(s, i);
    StageKeeps(s, t, i, x);
    forall j | 0 <= j < |s.sessions| && (InFlight(t, j) || Current(t, j))
      ensures InFlight(s, j) || Current(s, j)
    {
    }
    assert Occupied(t) <= Occupied(s);
    SubsetSize(Occupied(t), Occupied(s));
  }

  // ----- The end of a start -----

  lemma SettleFlights(s: System, t: System, i: nat)
    requires InFlight(s, i) && |t.sessions| == |s.sessions|
    requires t.sessions == s.sessions[i := s.sessions[i].(stage := Settled)]
    ensures i in Flying(s) && Flying(t) == Flying(s) - {i}
    ensures i in FlyingOn(s, s.sessions[i].port)
    ensures FlyingOn(t, s.sessions[i].port) == FlyingOn(s, s.sessions[i].port) - {i}
    ensures forall p :: p != s.sessions[i].port ==> FlyingOn(t, p) == FlyingOn(s, p)
  {
    assert forall j :: 0 <= j < |s.sessions| && j != i ==> t.sessions[j] == s.sessions[j];
  }

  lemma TakenSize(a: set<nat>, x: nat)
    requires x in a
    ensures |a - {x}| == |a| - 1
  {
  }

  lemma LandedTallied(s: System, i: nat, p: nat)
    requires InFlight(s, i) && Tallied(s, p)
    ensures Tallied(Landed(s, i), p)
  {
    SettleFlights(s, Landed(s, i), i);
    if p == s.sessions[i].port {
      TakenSize(FlyingOn(s, p), i);
    }
  }

  lemma LandedSummed(s: System, i: nat)
    requires Counted(s) && InFlight(s, i)
    ensures Summed(Landed(s, i).startingPorts, s.starting - 1)
  {
    var port := s.sessions[i].port;
    var count := Count(s.startingPorts, port);
    SettleFlights(s, Landed(s, i), i);
    TakenSize(FlyingOn(s, port), i);
    assert Tallied(s, port);
    SumPut(s.startingPorts, port, count - 1);
  }

  lemma LandedCounted(s: System, i: nat)
    requires Counted(s) && InFlight(s, i)
    ensures Counted(Landed(s, i))
  {
    var t := Landed(s, i);
    SettleFlights(s, t, i);
    TakenSize(Flying(s), i);
    LandedSummed(s, i);
    forall p ensures Tallied(t, p) {
      LandedTallied(s, i, p);
    }
  }

  lemma LandedKeeps(s: System, i: nat)
    requires Invariant(s) && InFlight(s, i)
    ensures Invariant(Landed(s, i))
  {
    var t := Landed(s, i);
    LandedCounted(s, i);
    OnceKept(s, t);
    forall j | 0 <= j < |s.sessions| && (InFlight(t, j) || Current(t, j))
      ensures InFlight(s, j) || Current(s, j)
    {
    }
    assert Occupied(t) <= Occupied(s);
    SubsetSize(Occupied(t), Occupied(s));
  }

  lemma NoneStarting(s: System, port: nat)
    requires Tallied(s, port) && Count(s.startingPorts, port) == 0
    ensures forall i :: 0 <= i < |s.sessions| && InFlight(s, i) ==> s.sessions[i].port != port
  {
    forall i | 0 <= i < |s.sessions| && InFlight(s, i) ensures s.sessions[i].port != port {
      assert i !in FlyingOn(s, port);
    }
  }

  lemma DropIdlePorts(s: System, port: nat)
    requires Invariant(s)
    ensures PortsKnown(DropIdle(s, port))
  {
    if Count(s.startingPorts, port) == 0 {
      assert Tallied(s, port);
      NoneStarting(s, port);
    }
  }

  lemma DropIdleKeeps(s: System, port: nat)
    requires Invariant(s)
    ensures Invariant(DropIdle(s, port))
  {
    QuietKeeps(s, DropIdle(s, port));
    OnceKept(s, DropIdle(s, port));
    DropIdlePorts(s, port);
  }

  lemma SettleKeeps(s: System, i: nat)
    requires Invariant(s) && InFlight(s, i)
    ensures Invariant(Settle(s, i))
  {
    var t := Landed(s, i);
    LandedKeeps(s, i);
    DropIdleKeeps(t, s.sessions[i].port);
  }

  // ----- Publication, abandonment, observation and watching -----

  /** A session changes, and perhaps reports its completion, while the tables only shrink. */
  lemma TouchKeeps(s: System, t: System, i: nat, x: Session)
    requires Invariant(s) && i < |s.sessions|
    requires x.port == s.sessions[i].port && x.stage == s.sessions[i].stage && x.id == s.sessions[i].id
    requires s.sessions[i].completed ==> x.completed
    requires s.sessions[i].published ==> x.published
    requires s.sessions[i].abandoned ==> x.abandoned
    requires t == Set(s, i, x).(entries := t.entries, emitted := t.emitted)
    requires forall id :: id in t.entries ==> id in s.entries && t.entries[id] == s.entries[id]
    requires (t.emitted == s.emitted && (x.completed ==> s.sessions[i].completed || x.abandoned))
             || (t.emitted == s.emitted + [i] && x.completed && x.published && !s.sessions[i].completed)
    ensures Invariant(t)
  {
    QuietKeeps(s, t);
    QuietKeepsPorts(s, t);
    if t.emitted == s.emitted {
      OnceKept(s, t);
    } else {
      OnceEmitted(s, t, i);
    }
  }

  lemma PublishKeeps(s: System, i: nat, observed: bool)
    requires Invariant(s) && i < |s.sessions|
    ensures Invariant(Publish(s, i, observed))
  {
    TouchKeeps(s, Publish(s, i, observed), i, Publish(s, i, observed).sessions[i]);
  }

  lemma AbandonKeeps(s: System, i: nat)
    requires Invariant(s) && i < |s.sessions|
    ensures Invariant(Abandon(s, i))
  {
    var x := s.sessions[i];
    var left := x.(abandoned := true);
    if x.published {
    } else if x.state.Exited? {
      TouchKeeps(s, Abandon(s, i), i, left);
    } else {
      TouchKeeps(s, Abandon(s, i), i, StartWatcher(left));
    }
  }

  lemma ObserveKeeps(s: System, i: nat, state: State, mark: bool)
    requires Invariant(s) && i < |s.sessions|
    ensures Invariant(Observe(s, i, state, mark))
  {
    TouchKeeps(s, Observe(s, i, state, mark), i, Observe(s, i, state, mark).sessions[i]);
  }

  lemma WatchKeeps(s: System, i: nat, state: State)
    requires Invariant(s) && i < |s.sessions|
    ensures Invariant(Watch(s, i, state))
  {
    TouchKeeps(s, Watch(s, i, state), i, Watch(s, i, state).sessions[i]);
  }

  lemma ShutKeeps(s: System, t: System)
    requires Invariant(s) && (t == s.(closing := true) || t == Clear(s))
    ensures Invariant(t)
  {
    QuietKeeps(s, t);
    QuietKeepsPorts(s, t);
    OnceKept(s, t);
  }

  lemma WakeKeeps(s: System)
    requires Invariant(s)
    ensures Invariant(WakeAll(s))
  {
    var t := WakeAll(s);
    QuietKeeps(s, t);
    QuietKeepsPorts(s, t);
    OnceKept(s, t);
  }

  lemma StepKeeps(s: System, step: Step)
    requires Invariant(s)
    ensures Invariant(Next(s, step))
  {
    if Enabled(s, step) {
      match step
      case Begins(port, due) => ReserveKeeps(s, port, due);
      case Fails(i, handle) => FailKeeps(s, i, handle);
      case Registers(i, id, state) => RegisterKeeps(s, i, id, state);
      case Interrupts(i) => UnregisterKeeps(s, i);
      case Settles(i) => SettleKeeps(s, i);
      case Lists(due) => ExpireKeeps(s, due);
      case Drops(port) => DropIdleKeeps(s, port);
      case _ => EntryStepKeeps(s, step);
    }
  }

  /** Steps on entries, and those of shutdown. */
  lemma EntryStepKeeps(s: System, step: Step)
    requires Invariant(s) && Enabled(s, step)
    requires !step.Begins? && !step.Fails? && !step.Registers? && !step.Interrupts? && !step.Settles?
    requires !step.Lists? && !step.Drops?
    ensures Invariant(Next(s, step))
  {
    match step
    case Publishes(id, observed) => PublishKeeps(s, s.entries[id], observed);
    case Abandons(id) => AbandonKeeps(s, s.entries[id]);
    case Polls(id, state, mark) => ObserveKeeps(s, s.entries[id], state, mark);
    case Watches(i, state) => WatchKeeps(s, i, state);
    case Launches(i) => TouchKeeps(s, Next(s, step), i, StartWatcher(s.sessions[i]));
    case Shuts => ShutKeeps(s, Next(s, step));
    case Wakes => WakeKeeps(s);
    case Clears => ShutKeeps(s, Next(s, step));
  }

  lemma {:induction false} RunKeeps(maxSessions: nat, steps: seq<Step>)
    ensures Invariant(Run(maxSessions, steps))
  {
    if steps == [] {
      assert Flying(Initial(maxSessions)) == {};
      assert Occupied(Initial(maxSessions)) == {};
      forall p ensures Tallied(Initial(maxSessions), p) {
        assert FlyingOn(Initial(maxSessions), p) == {};
      }
    } else {
      RunKeeps(maxSessions, steps[..|steps| - 1]);
      StepKeeps(Run(maxSessions, steps[..|steps| - 1]), steps[|steps| - 1]);
    }
  }

  // ----- What follows for every run -----

  /** Starts under way that hold no entry. */
  ghost function Unregistered(s: System): set<nat> {
    set i: nat | i < |s.sessions| && InFlight(s, i) && !Current(s, i)
  }

  lemma OccupiedSize(s: System)
    requires Keyed(s)
    ensures |Occupied(s)| == |s.entries| + |Unregistered(s)|
  {
    CurrentSize(s);
    assert Occupied(s) == CurrentSet(s) + Unregistered(s);
    assert CurrentSet(s) !! Unregistered(s);
  }

  /** Capacity and the two start counters, in every reachable state. */
  lemma CapacityHolds(maxSessions: nat, steps: seq<Step>)
    ensures var s := Run(maxSessions, steps);
      && |s.entries| + |Unregistered(s)| <= s.maxSessions
      && s.starting == Sum(s.startingPorts) == |Flying(s)|
  {
    var s := Run(maxSessions, steps);
    RunKeeps(maxSessions, steps);
    OccupiedSize(s);
  }

  /** Until shutdown clears the tables, no entry and no start loses its port. */
  lemma PortsHeld(maxSessions: nat, steps: seq<Step>)
    requires !Run(maxSessions, steps).cleared
    ensures var s := Run(maxSessions, steps);
      && (forall id :: id in s.entries ==> s.entries[id] < |s.sessions| && s.sessions[s.entries[id]].port in s.ports)
      && (forall port :: port in s.startingPorts ==> port in s.ports)
  {
    var s := Run(maxSessions, steps);
    RunKeeps(maxSessions, steps);
    forall id | id in s.entries ensures s.entries[id] < |s.sessions| && s.sessions[s.entries[id]].port in s.ports {
      assert Current(s, s.entries[id]);
    }
    forall port | port in s.startingPorts ensures port in s.ports {
      assert Tallied(s, port);
      var i :| i in FlyingOn(s, port);
    }
  }

  /** Steps that end an entry whatever its state: undoing a start under that id, and shutdown. */
  predicate Ends(s: System, step: Step, id: string) {
    step.Clears? || (step.Interrupts? && step.i < |s.sessions| && s.sessions[step.i].id == id)
  }

  predicate Filed(s: System, id: string, i: nat) {
    id in s.entries && s.entries[id] == i
  }

  lemma ExpireSparesLive(s: System, due: set<string>, id: string)
    requires Keyed(s) && id in s.entries && !s.sessions[s.entries[id]].state.Exited?
    ensures Filed(Expire(s, due), id, s.entries[id])
  {
  }

  /** Sections that take no entry but one seen exited. */
  lemma SectionSparesLive(s: System, i: nat, id: string, state: State)
    requires Keyed(s) && id in s.entries && i < |s.sessions| && Current(s, i)
    ensures Filed(Abandon(s, i), id, s.entries[id]) || s.sessions[s.entries[id]].state.Exited?
    ensures Filed(Watch(s, i, state), id, s.entries[id]) || Watch(s, i, state).sessions[s.entries[id]].state.Exited?
  {
  }

  predicate LastSeenExited(s: System, i: nat) {
    i < |s.sessions| && s.sessions[i].state.Exited?
  }

  lemma EntryLeavesExited(s: System, step: Step, id: string)
    requires Keyed(s) && id in s.entries && !Ends(s, step, id)
    ensures Filed(Next(s, step), id, s.entries[id])
            || LastSeenExited(s, s.entries[id]) || LastSeenExited(Next(s, step), s.entries[id])
  {
    if Enabled(s, step) && !LastSeenExited(s, s.entries[id]) {
      match step
      case Begins(_, due) => ExpireSparesLive(s, due, id);
      case Lists(due) => ExpireSparesLive(s, due, id);
      case Abandons(other) => SectionSparesLive(s, s.entries[other], id, Running);
      case Watches(i, state) => SectionSparesLive(s, i, id, state);
      case Registers(_, _, _) =>
      case Interrupts(_) =>
      case _ => OthersKeepEntries(s, step);
    }
  }

  /** Sections that neither file nor drop an entry. */
  lemma OthersKeepEntries(s: System, step: Step)
    requires !step.Begins? && !step.Lists? && !step.Abandons? && !step.Watches?
    requires !step.Registers? && !step.Interrupts? && !step.Clears?
    ensures Next(s, step).entries == s.entries
  {
  }

  lemma FiledOn(maxSessions: nat, steps: seq<Step>, step: Step, id: string, i: nat)
    requires Filed(Run(maxSessions, steps), id, i) && !Ends(Run(maxSessions, steps), step, id)
    requires !LastSeenExited(Run(maxSessions, steps), i) && !LastSeenExited(Run(maxSessions, steps + [step]), i)
    ensures Filed(Run(maxSessions, steps + [step]), id, i)
  {
    assert (steps + [step])[..|steps|] == steps;
    RunKeeps(maxSessions, steps);
    EntryLeavesExited(Run(maxSessions, steps), step, id);
  }

  /** Over any stretch of a run, an entry that is never seen exited stays filed. */
  lemma {:induction false} LiveEntriesStay(maxSessions: nat, steps: seq<Step>, from: nat, id: string, i: nat)
    requires from <= |steps| && Filed(Run(maxSessions, steps[..from]), id, i)
    requires forall k :: from <= k < |steps| ==> !Ends(Run(maxSessions, steps[..k]), steps[k], id)
    requires forall k :: from <= k <= |steps| ==> !LastSeenExited(Run(maxSessions, steps[..k]), i)
    ensures Filed(Run(maxSessions, steps), id, i)
    decreases |steps|
  {
    assert steps[..|steps|] == steps;
    if from < |steps| {
      var last := |steps| - 1;
      var shorter := steps[..last];
      assert Filed(Run(maxSessions, shorter), id, i) by {
        assert forall k :: from <= k <= last ==> shorter[..k] == steps[..k];
        LiveEntriesStay(maxSessions, shorter, from, id, i);
      }
      assert steps == shorter + [steps[last]];
      assert !LastSeenExited(Run(maxSessions, shorter), i) && !LastSeenExited(Run(maxSessions, steps), i);
      FiledOn(maxSessions, shorter, steps[last], id, i);
    }
  }

  /**
    Undoing a start drops the entry filed under its id, and so only its own one, exactly
    while its own one is filed there or none is.
   */
  lemma UndoDropsOwnIff(s: System, i: nat)
    requires Keyed(s) && i < |s.sessions| && s.sessions[i].stage.Registered?
    ensures (forall j :: 0 <= j < |s.sessions| && j != i && Current(s, j) ==> Current(Unregister(s, i), j)) <==>
      Current(s, i) || s.sessions[i].id !in s.entries
  {
    var t, id := Unregister(s, i), s.sessions[i].id;
    if id in s.entries && s.entries[id] != i {
      var j := s.entries[id];
      assert Current(s, j) && !Current(t, j);
    }
  }

  lemma RunSnoc(maxSessions: nat, steps: seq<Step>, step: Step)
    ensures Run(maxSessions, steps + [step]) == Next(Run(maxSessions, steps), step)
  {
    assert (steps + [step])[..|steps|] == steps;
  }

  /** Two starts on one port; `entries` are the entries. */
  predicate TwoStarts(s: System, first: Stage, second: Stage, entries: map<string, nat>) {
    && |s.sessions| == 2 && s.sessions[0].stage == first && s.sessions[1].stage == second
    && (first.Registered? ==> s.sessions[0].id == "x" && s.sessions[0].state == Exited)
    && (second.Registered? ==> s.sessions[1].state == Running)
    && s.entries == entries && !s.closing
  }

  lemma FirstBegins(maxSessions: nat)
    requires maxSessions >= 2
    ensures var s := Run(maxSessions, [Begins(0, {})]);
      && |s.sessions| == 1 && s.sessions[0].stage == Reserved && s.entries == map[] && !s.closing
      && s.starting == 1 && s.maxSessions == maxSessions
  {
    RunSnoc(maxSessions, [], Begins(0, {}));
    assert [] + [Begins(0, {})] == [Begins(0, {})];
    assert Expire(Initial(maxSessions), {}).entries == map[];
  }

  lemma SecondBegins(maxSessions: nat)
    requires maxSessions >= 2
    ensures TwoStarts(Run(maxSessions, [Begins(0, {}), Begins(0, {})]), Reserved, Reserved, map[])
  {
    FirstBegins(maxSessions);
    RunSnoc(maxSessions, [Begins(0, {})], Begins(0, {}));
    assert [Begins(0, {})] + [Begins(0, {})] == [Begins(0, {}), Begins(0, {})];
    assert Expire(Run(maxSessions, [Begins(0, {})]), {}).entries == map[];
  }

  lemma FirstRegisters(maxSessions: nat, steps: seq<Step>)
    requires TwoStarts(Run(maxSessions, steps), Reserved, Reserved, map[])
    ensures TwoStarts(Run(maxSessions, steps + [Registers(0, "x", Exited)]), Registered, Reserved, map["x" := 0])
  {
    RunSnoc(maxSessions, steps, Registers(0, "x", Exited));
  }

  lemma FirstExpires(maxSessions: nat, steps: seq<Step>)
    requires TwoStarts(Run(maxSessions, steps), Registered, Reserved, map["x" := 0])
    ensures TwoStarts(Run(maxSessions, steps + [Lists({"x"})]), Registered, Reserved, map[])
  {
    RunSnoc(maxSessions, steps, Lists({"x"}));
  }

  lemma SecondRegisters(maxSessions: nat, steps: seq<Step>)
    requires TwoStarts(Run(maxSessions, steps), Registered, Reserved, map[])
    ensures TwoStarts(Run(maxSessions, steps + [Registers(1, "x", Running)]), Registered, Registered, map["x" := 1])
  {
    RunSnoc(maxSessions, steps, Registers(1, "x", Running));
  }

  lemma FirstUndone(maxSessions: nat, steps: seq<Step>)
    requires TwoStarts(Run(maxSessions, steps), Registered, Registered, map["x" := 1])
    ensures TwoStarts(Run(maxSessions, steps + [Interrupts(0)]), Failed(true), Registered, map[])
  {
    RunSnoc(maxSessions, steps, Interrupts(0));
  }

  /** A start undone after its entry expired takes the running entry of another start that got the same id. */
  lemma UndoDropsAnother(maxSessions: nat)
    requires maxSessions >= 2
    ensures TwoStarts(
      Run(maxSessions, [Begins(0, {}), Begins(0, {}), Registers(0, "x", Exited), Lists({"x"}),
                        Registers(1, "x", Running), Interrupts(0)]),
      Failed(true), Registered, map[])
  {
    var a := [Begins(0, {}), Begins(0, {})];
    var b := a + [Registers(0, "x", Exited)];
    var c := b + [Lists({"x"})];
    var d := c + [Registers(1, "x", Running)];
    SecondBegins(maxSessions);
    FirstRegisters(maxSessions, a);
    FirstExpires(maxSessions, b);
    SecondRegisters(maxSessions, c);
    FirstUndone(maxSessions, d);
    assert d + [Interrupts(0)]
        == [Begins(0, {}), Begins(0, {}), Registers(0, "x", Exited), Lists({"x"}),
            Registers(1, "x", Running), Interrupts(0)];
  }

  ghost function Reports(emitted: seq<nat>, i: nat): nat {
    multiset(emitted)[i]
  }

  lemma {:induction false} DistinctCount(emitted: seq<nat>, i: nat)
    requires forall j, k :: 0 <= j < k < |emitted| ==> emitted[j] != emitted[k]
    ensures Reports(emitted, i) == if i in emitted then 1 else 0
  {
    if emitted != [] {
      var last := |emitted| - 1;
      DistinctCount(emitted[..last], i);
      assert emitted == emitted[..last] + [emitted[last]];
    }
  }

  /** COMPLETED goes out at most once for each session, and exactly once if it completed unabandoned. */
  lemma CompletedOnce(maxSessions: nat, steps: seq<Step>, i: nat)
    requires i < |Run(maxSessions, steps).sessions|
    ensures var s := Run(maxSessions, steps);
      && Reports(s.emitted, i) <= 1
      && (Reports(s.emitted, i) == 1 ==> s.sessions[i].completed && s.sessions[i].published)
      && (s.sessions[i].completed && !s.sessions[i].abandoned ==> Reports(s.emitted, i) == 1)
  {
    RunKeeps(maxSessions, steps);
    DistinctCount(Run(maxSessions, steps).emitted, i);
  }

  /** The exit of a published session is reported by whoever sees it first: `publish` or the watcher. */
  lemma ExitIsReported(maxSessions: nat, steps: seq<Step>, i: nat)
    requires var s := Run(maxSessions, steps); Current(s, i) && s.sessions[i].watcher.Watching?
    requires var x := Run(maxSessions, steps).sessions[i]; x.published && !x.abandoned
    ensures Reports(Run(maxSessions, steps + [Watches(i, Exited)]).emitted, i) == 1
  {
    var longer := steps + [Watches(i, Exited)];
    assert longer[..|longer| - 1] == steps;
    RunKeeps(maxSessions, steps);
    CompletedOnce(maxSessions, longer, i);
  }

  // ----- What the log of a run says about a session -----

  /** Session `i` was published: a publish came while it was filed under the id. */
  predicate PublishedIn(maxSessions: nat, steps: seq<Step>, i: nat) {
    steps != [] &&
    var front, last := steps[..|steps| - 1], steps[|steps| - 1];
    || PublishedIn(maxSessions, front, i)
    || (last.Publishes? && Filed(Run(maxSessions, front), last.id, i))
  }

  /** Session `i` was abandoned: an abandon came while it was filed under the id and not published. */
  predicate AbandonedIn(maxSessions: nat, steps: seq<Step>, i: nat) {
    steps != [] &&
    var front, last := steps[..|steps| - 1], steps[|steps| - 1];
    || AbandonedIn(maxSessions, front, i)
    || (last.Abandons? && Filed(Run(maxSessions, front), last.id, i) && !PublishedIn(maxSessions, front, i))
  }

  /** The step shows this state of session `i`: its registration, a poll or a round of its watcher. */
  predicate Shows(s: System, step: Step, i: nat, state: State) {
    match step
    case Registers(j, id, seen) =>
      j == i && seen == state && i < |s.sessions| && s.sessions[i].stage.Reserved? && !s.closing && id !in s.entries
    case Polls(id, seen, _) => Filed(s, id, i) && seen == state
    case Watches(j, seen) => j == i && seen == state && Current(s, i) && s.sessions[i].watcher.Watching?
    case _ => false
  }

  /** The state last shown of session `i`. */
  function SeenIn(maxSessions: nat, steps: seq<Step>, i: nat): State {
    if steps == [] then Running
    else
      var front, last := steps[..|steps| - 1], steps[|steps| - 1];
      if Shows(Run(maxSessions, front), last, i, Exited) then Exited
      else if Shows(Run(maxSessions, front), last, i, Unknown) then Unknown
      else if Shows(Run(maxSessions, front), last, i, Running) then Running
      else SeenIn(maxSessions, front, i)
  }

  /** COMPLETED of session `i` is due: a publish that finds it exited, or a watcher that sees a published one exit. */
  predicate Completes(maxSessions: nat, front: seq<Step>, last: Step, i: nat) {
    || (last.Publishes? && Filed(Run(maxSessions, front), last.id, i) && SeenIn(maxSessions, front, i) == Exited)
    || (&& Shows(Run(maxSessions, front), last, i, Exited) && last.Watches?
        && PublishedIn(maxSessions, front, i) && !AbandonedIn(maxSessions, front, i))
  }

  predicate ReportDue(maxSessions: nat, steps: seq<Step>, i: nat) {
    steps != [] &&
    var front, last := steps[..|steps| - 1], steps[|steps| - 1];
    ReportDue(maxSessions, front, i) || Completes(maxSessions, front, last, i)
  }

  /** Session `i` after a step. */
  function Record(s: System, step: Step, i: nat): Session
    requires Keyed(s) && i < |s.sessions|
  {
    var x := s.sessions[i];
    var exited := x.state.Exited?;
    if !Enabled(s, step) then x
    else match step
      case Fails(j, handle) => if j == i then x.(stage := Failed(handle)) else x
      case Registers(j, id, state) =>
        if j != i then x
        else if s.closing || id in s.entries then x.(stage := Failed(true))
        else x.(stage := Registered, id := id, state := state)
      case Interrupts(j) => if j == i then x.(stage := Failed(true)) else x
      case Settles(j) => if j == i then x.(stage := Settled) else x
      case Publishes(id, observed) =>
        if s.entries[id] != i then x
        else x.(published := true, observed := x.observed || (observed && exited), completed := x.completed || exited)
      case Abandons(id) =>
        if s.entries[id] != i || x.published then x
        else x.(abandoned := true, watcher := if exited || !x.watcher.NotStarted? then x.watcher else Watching)
      case Polls(id, state, mark) =>
        if s.entries[id] != i then x
        else x.(state := state, observed := x.observed || (mark && state.Exited?))
      case Watches(j, state) =>
        if j != i then x
        else x.(state := state, completed := x.completed || (x.published && state.Exited?),
                watcher := if state.Exited? then Ended else x.watcher)
      case Launches(j) => if j == i then x.(watcher := StartWatcher(x).watcher) else x
      case Wakes => if Current(s, i) then x.(watcher := StartWatcher(x).watcher) else x
      case _ => x
  }

  lemma SettleRecord(s: System, j: nat, i: nat)
    requires InRange(s) && i < |s.sessions| && j < |s.sessions|
    ensures Settle(s, j).sessions == s.sessions[j := s.sessions[j].(stage := Settled)]
  {
  }

  lemma ReserveRecord(s: System, port: nat, due: set<string>, i: nat)
    requires InRange(s) && i < |s.sessions|
    ensures i < |Reserve(s, port, due).sessions| && Reserve(s, port, due).sessions[i] == s.sessions[i]
  {
  }

  predicate StartStep(step: Step) {
    step.Begins? || step.Fails? || step.Registers? || step.Interrupts? || step.Settles?
  }

  lemma StartRecord(s: System, step: Step, i: nat)
    requires Keyed(s) && i < |s.sessions| && StartStep(step)
    ensures i < |Next(s, step).sessions| && Next(s, step).sessions[i] == Record(s, step, i)
  {
    if Enabled(s, step) {
      match step
      case Begins(port, due) => ReserveRecord(s, port, due, i);
      case Settles(j) => SettleRecord(s, j, i);
      case _ =>
    }
  }

  lemma PublishRecord(s: System, id: string, observed: bool, i: nat)
    requires Keyed(s) && i < |s.sessions| && id in s.entries
    ensures var t := Publish(s, s.entries[id], observed);
      i < |t.sessions| && t.sessions[i] == Record(s, Publishes(id, observed), i)
  {
  }

  lemma AbandonRecord(s: System, id: string, i: nat)
    requires Keyed(s) && i < |s.sessions| && id in s.entries
    ensures var t := Abandon(s, s.entries[id]); i < |t.sessions| && t.sessions[i] == Record(s, Abandons(id), i)
  {
  }

  lemma WatchRecord(s: System, j: nat, state: State, i: nat)
    requires Keyed(s) && i < |s.sessions| && Enabled(s, Watches(j, state))
    ensures var t := Watch(s, j, state); i < |t.sessions| && t.sessions[i] == Record(s, Watches(j, state), i)
  {
  }

  lemma EntryRecord(s: System, step: Step, i: nat)
    requires Keyed(s) && i < |s.sessions| && !StartStep(step)
    ensures i < |Next(s, step).sessions| && Next(s, step).sessions[i] == Record(s, step, i)
  {
    if Enabled(s, step) {
      match step
      case Publishes(id, observed) => PublishRecord(s, id, observed, i);
      case Abandons(id) => AbandonRecord(s, id, i);
      case Watches(j, state) => WatchRecord(s, j, state, i);
      case _ =>
    }
  }

  lemma StepRecord(s: System, step: Step, i: nat)
    requires Keyed(s) && i < |s.sessions|
    ensures i < |Next(s, step).sessions| && Next(s, step).sessions[i] == Record(s, step, i)
  {
    if StartStep(step) {
      StartRecord(s, step, i);
    } else {
      EntryRecord(s, step, i);
    }
  }

  /** A new session has no past. */
  lemma NewRecord(s: System, step: Step, i: nat)
    requires Keyed(s) && |s.sessions| <= i < |Next(s, step).sessions|
    ensures i == |s.sessions| && step.Begins?
    ensures Next(s, step).sessions[i]
         == Session(step.port, Reserved, "", Running, false, false, false, false, NotStarted)
    ensures Next(s, step).emitted == s.emitted
  {
  }

  /** The step takes the entry `id` of session `i`. */
  predicate Takes(s: System, step: Step, id: string, i: nat)
    requires i < |s.sessions|
  {
    var x := s.sessions[i];
    match step
    case Begins(_, due) => !s.closing && id in due && x.state.Exited?
    case Lists(due) => id in due && x.state.Exited?
    case Interrupts(j) => j < |s.sessions| && s.sessions[j].stage.Registered? && s.sessions[j].id == id
    case Abandons(other) => other == id && !x.published && x.state.Exited?
    case Watches(j, state) => j == i && x.watcher.Watching? && state.Exited? && x.abandoned
    case Clears => s.closing
    case _ => false
  }

  /** The step files session `i` under `id`. */
  predicate Files(s: System, step: Step, id: string, i: nat) {
    && step.Registers? && step.i == i && step.id == id
    && i < |s.sessions| && s.sessions[i].stage.Reserved? && !s.closing && id !in s.entries
  }

  lemma ReserveEntries(s: System, port: nat, due: set<string>)
    requires InRange(s)
    ensures Reserve(s, port, due).entries == if s.closing then s.entries else Expire(s, due).entries
  {
  }

  lemma StartFiles(s: System, step: Step, id: string, i: nat)
    requires Keyed(s) && StartStep(step)
    ensures Filed(Next(s, step), id, i) <==> (Filed(s, id, i) && !Takes(s, step, id, i)) || Files(s, step, id, i)
  {
    if Enabled(s, step) {
      match step
      case Begins(port, due) => ReserveEntries(s, port, due);
      case Settles(j) => assert Next(s, step).entries == s.entries;
      case _ =>
    }
  }

  lemma EntryFiles(s: System, step: Step, id: string, i: nat)
    requires Keyed(s) && !StartStep(step)
    ensures Filed(Next(s, step), id, i) <==> Filed(s, id, i) && !Takes(s, step, id, i)
  {
    if Enabled(s, step) {
      match step
      case Publishes(other, observed) => assert Next(s, step) == Publish(s, s.entries[other], observed);
      case Abandons(other) => assert Next(s, step) == Abandon(s, s.entries[other]);
      case Watches(j, state) => assert Next(s, step) == Watch(s, j, state);
      case _ =>
    }
  }

  /** The step emits COMPLETED of session `i`. */
  predicate Emits(s: System, step: Step, i: nat)
    requires i < |s.sessions|
  {
    var x := s.sessions[i];
    match step
    case Publishes(id, _) => Filed(s, id, i) && x.state.Exited? && !x.completed
    case Watches(j, state) =>
      && j == i && Current(s, i) && x.watcher.Watching?
      && state.Exited? && x.published && !x.completed && !x.abandoned
    case _ => false
  }

  lemma StepEmits(s: System, step: Step, i: nat)
    requires Keyed(s) && i < |s.sessions|
    ensures i in Next(s, step).emitted <==> i in s.emitted || Emits(s, step, i)
  {
    if Enabled(s, step) {
      match step
      case Publishes(id, observed) => assert Next(s, step) == Publish(s, s.entries[id], observed);
      case Watches(j, state) => assert Next(s, step) == Watch(s, j, state);
      case _ => assert Next(s, step).emitted == s.emitted;
    }
  }

  /** A session that completed unreported has left the entries for good. */
  predicate Finished(s: System, i: nat)
    requires i < |s.sessions|
  {
    s.sessions[i].completed ==> !s.sessions[i].stage.Reserved? && (i in s.emitted || !Current(s, i))
  }

  lemma StepFinished(s: System, step: Step, i: nat)
    requires Keyed(s) && i < |s.sessions| && Finished(s, i)
    ensures i < |Next(s, step).sessions| && Finished(Next(s, step), i)
  {
    StepRecord(s, step, i);
    StepEmits(s, step, i);
    var x' := Next(s, step).sessions[i];
    if x'.completed && i !in Next(s, step).emitted {
      if StartStep(step) {
        StartFiles(s, step, x'.id, i);
      } else {
        EntryFiles(s, step, x'.id, i);
      }
    }
  }

  /** The records tell what happened to session `i`. */
  predicate Tells(maxSessions: nat, steps: seq<Step>, i: nat) {
    var s := Run(maxSessions, steps);
    if i < |s.sessions| then
      && (s.sessions[i].published <==> PublishedIn(maxSessions, steps, i))
      && (s.sessions[i].abandoned <==> AbandonedIn(maxSessions, steps, i))
      && s.sessions[i].state == SeenIn(maxSessions, steps, i)
      && (i in s.emitted <==> ReportDue(maxSessions, steps, i))
      && Finished(s, i)
    else
      && !PublishedIn(maxSessions, steps, i) && !AbandonedIn(maxSessions, steps, i)
      && SeenIn(maxSessions, steps, i) == Running && !ReportDue(maxSessions, steps, i)
  }

  /** Sessions keep their numbers, and a step names no session that does not exist. */
  lemma UnknownUntouched(s: System, step: Step, i: nat)
    requires Keyed(s) && i >= |s.sessions|
    ensures forall state :: !Shows(s, step, i, state)
    ensures forall id :: !Filed(s, id, i)
  {
  }

  lemma RecordSays(s: System, step: Step, i: nat)
    requires Keyed(s) && i < |s.sessions|
    ensures var x, x' := s.sessions[i], Record(s, step, i);
      && (x'.published <==> x.published || (step.Publishes? && Filed(s, step.id, i)))
      && (x'.abandoned <==> x.abandoned || (step.Abandons? && Filed(s, step.id, i) && !x.published))
  {
  }

  lemma RecordShows(s: System, step: Step, i: nat)
    requires Keyed(s) && i < |s.sessions|
    ensures var x, x' := s.sessions[i], Record(s, step, i);
      Shows(s, step, i, x'.state) || (x'.state == x.state && forall state :: !Shows(s, step, i, state))
  {
  }

  /** The log functions after one more step. */
  lemma LogSnoc(maxSessions: nat, front: seq<Step>, last: Step, i: nat)
    ensures var s, steps := Run(maxSessions, front), front + [last];
      && (PublishedIn(maxSessions, steps, i) <==>
            PublishedIn(maxSessions, front, i) || (last.Publishes? && Filed(s, last.id, i)))
      && (AbandonedIn(maxSessions, steps, i) <==>
            || AbandonedIn(maxSessions, front, i)
            || (last.Abandons? && Filed(s, last.id, i) && !PublishedIn(maxSessions, front, i)))
      && (ReportDue(maxSessions, steps, i) <==>
            ReportDue(maxSessions, front, i) || Completes(maxSessions, front, last, i))
  {
    assert (front + [last])[..|front|] == front;
  }

  lemma SeenSnoc(maxSessions: nat, front: seq<Step>, last: Step, i: nat)
    ensures var s, steps := Run(maxSessions, front), front + [last];
      SeenIn(maxSessions, steps, i) ==
        if Shows(s, last, i, Exited) then Exited
        else if Shows(s, last, i, Unknown) then Unknown
        else if Shows(s, last, i, Running) then Running
        else SeenIn(maxSessions, front, i)
  {
    assert (front + [last])[..|front|] == front;
  }

  /** A report is due exactly when one goes out, or one has gone out before. */
  lemma DueIsEmitted(maxSessions: nat, front: seq<Step>, last: Step, i: nat)
    requires Invariant(Run(maxSessions, front)) && Tells(maxSessions, front, i)
    requires i < |Run(maxSessions, front).sessions|
    ensures var s := Run(maxSessions, front);
      i in s.emitted || Emits(s, last, i) <==> i in s.emitted || Completes(maxSessions, front, last, i)
  {
  }

  lemma TellsNext(maxSessions: nat, front: seq<Step>, last: Step, i: nat)
    requires Invariant(Run(maxSessions, front)) && Tells(maxSessions, front, i)
    requires i < |Run(maxSessions, front).sessions|
    ensures Tells(maxSessions, front + [last], i)
  {
    var s := Run(maxSessions, front);
    RunSnoc(maxSessions, front, last);
    StepRecord(s, last, i);
    RecordSays(s, last, i);
    RecordShows(s, last, i);
    LogSnoc(maxSessions, front, last, i);
    SeenSnoc(maxSessions, front, last, i);
    StepEmits(s, last, i);
    DueIsEmitted(maxSessions, front, last, i);
    StepFinished(s, last, i);
  }

  lemma TellsNew(maxSessions: nat, front: seq<Step>, last: Step, i: nat)
    requires Invariant(Run(maxSessions, front)) && Tells(maxSessions, front, i)
    requires i >= |Run(maxSessions, front).sessions|
    ensures Tells(maxSessions, front + [last], i)
  {
    var s := Run(maxSessions, front);
    RunSnoc(maxSessions, front, last);
    UnknownUntouched(s, last, i);
    LogSnoc(maxSessions, front, last, i);
    SeenSnoc(maxSessions, front, last, i);
    if i < |Next(s, last).sessions| {
      NewRecord(s, last, i);
    }
  }

  /**
    In every run the records of a session are what the log says: it counts as published
    once a publish came for it, as abandoned once an abandon came for it before any
    publish, its state is the last one shown, and COMPLETED has gone out exactly if a
    publish found it exited or its watcher saw it exit published and unabandoned.
   */
  lemma {:induction false} HistoryTells(maxSessions: nat, steps: seq<Step>, i: nat)
    ensures Tells(maxSessions, steps, i)
  {
    if steps != [] {
      var front, last := steps[..|steps| - 1], steps[|steps| - 1];
      assert steps == front + [last];
      HistoryTells(maxSessions, front, i);
      RunKeeps(maxSessions, front);
      if i < |Run(maxSessions, front).sessions| {
        TellsNext(maxSessions, front, last, i);
      } else {
        TellsNew(maxSessions, front, last, i);
      }
    }
  }

  /** A session published once and never abandoned before: its watcher's first sight of the exit leaves one event. */
  lemma PublishedExitReported(maxSessions: nat, steps: seq<Step>, i: nat)
    requires PublishedIn(maxSessions, steps, i) && !AbandonedIn(maxSessions, steps, i)
    requires Enabled(Run(maxSessions, steps), Watches(i, Exited))
    ensures Reports(Run(maxSessions, steps + [Watches(i, Exited)]).emitted, i) == 1
  {
    HistoryTells(maxSessions, steps, i);
    ExitIsReported(maxSessions, steps, i);
  }

  /** COMPLETED has gone out once if it was due, and not at all otherwise. */
  lemma ReportedIffDue(maxSessions: nat, steps: seq<Step>, i: nat)
    ensures Reports(Run(maxSessions, steps).emitted, i) == if ReportDue(maxSessions, steps, i) then 1 else 0
  {
    RunKeeps(maxSessions, steps);
    HistoryTells(maxSessions, steps, i);
    DistinctCount(Run(maxSessions, steps).emitted, i);
  }

  /** In every run an entry is filed by its registration only, and leaves only by the steps named. */
  lemma FiledIff(maxSessions: nat, steps: seq<Step>, step: Step, id: string, i: nat)
    ensures var s := Run(maxSessions, steps);
      && (Filed(s, id, i) ==> i < |s.sessions|)
      && (Filed(Run(maxSessions, steps + [step]), id, i) <==>
            (Filed(s, id, i) && !Takes(s, step, id, i)) || Files(s, step, id, i))
  {
    RunKeeps(maxSessions, steps);
    RunSnoc(maxSessions, steps, step);
    if StartStep(step) {
      StartFiles(Run(maxSessions, steps), step, id, i);
    } else {
      EntryFiles(Run(maxSessions, steps), step, id, i);
    }
  }

  /** No abandon drops a session that was published. */
  lemma PublishedNotDropped(maxSessions: nat, steps: seq<Step>, other: string, id: string, i: nat)
    requires PublishedIn(maxSessions, steps, i) && Filed(Run(maxSessions, steps), id, i)
    ensures Filed(Run(maxSessions, steps + [Abandons(other)]), id, i)
  {
    HistoryTells(maxSessions, steps, i);
    FiledIff(maxSessions, steps, Abandons(other), id, i);
  }

  // ----- Who is watched and what was observed -----

  /** A watcher was started: after a publish, for an abandoned session not seen exited, or at shutdown. */
  predicate WatchStarts(maxSessions: nat, front: seq<Step>, last: Step, i: nat) {
    var s := Run(maxSessions, front);
    || (last == Launches(i) && PublishedIn(maxSessions, front, i))
    || (&& last.Abandons? && Filed(s, last.id, i)
        && !PublishedIn(maxSessions, front, i) && SeenIn(maxSessions, front, i) != Exited)
    || (last.Wakes? && s.closing && Current(s, i))
  }

  function WatcherIn(maxSessions: nat, steps: seq<Step>, i: nat): Watcher {
    if steps == [] then NotStarted
    else
      var front, last := steps[..|steps| - 1], steps[|steps| - 1];
      var before := WatcherIn(maxSessions, front, i);
      if before == NotStarted && WatchStarts(maxSessions, front, last, i) then Watching
      else if last == Watches(i, Exited) && before == Watching && Current(Run(maxSessions, front), i) then Ended
      else before
  }

  /** A consumer has seen the exit: in a publish or poll that says so. */
  predicate ObservedIn(maxSessions: nat, steps: seq<Step>, i: nat) {
    steps != [] &&
    var front, last := steps[..|steps| - 1], steps[|steps| - 1];
    || ObservedIn(maxSessions, front, i)
    || (&& last.Publishes? && last.observed && Filed(Run(maxSessions, front), last.id, i)
        && SeenIn(maxSessions, front, i) == Exited)
    || (last.Polls? && last.mark && last.state.Exited? && Filed(Run(maxSessions, front), last.id, i))
  }

  predicate Watched(maxSessions: nat, steps: seq<Step>, i: nat) {
    var s := Run(maxSessions, steps);
    if i < |s.sessions| then
      && s.sessions[i].watcher == WatcherIn(maxSessions, steps, i)
      && (s.sessions[i].observed <==> ObservedIn(maxSessions, steps, i))
    else WatcherIn(maxSessions, steps, i) == NotStarted && !ObservedIn(maxSessions, steps, i)
  }

  lemma WatchSnoc(maxSessions: nat, front: seq<Step>, last: Step, i: nat)
    ensures var s, steps, before := Run(maxSessions, front), front + [last], WatcherIn(maxSessions, front, i);
      && WatcherIn(maxSessions, steps, i) ==
         (if before == NotStarted && WatchStarts(maxSessions, front, last, i) then Watching
          else if last == Watches(i, Exited) && before == Watching && Current(s, i) then Ended
          else before)
      && (ObservedIn(maxSessions, steps, i) <==>
            || ObservedIn(maxSessions, front, i)
            || (last.Publishes? && last.observed && Filed(s, last.id, i) && SeenIn(maxSessions, front, i) == Exited)
            || (last.Polls? && last.mark && last.state.Exited? && Filed(s, last.id, i)))
  {
    assert (front + [last])[..|front|] == front;
  }

  lemma RecordWatches(s: System, step: Step, i: nat)
    requires Keyed(s) && i < |s.sessions|
    ensures var x, x' := s.sessions[i], Record(s, step, i);
      var starts := || (step == Launches(i) && x.published)
                    || (step.Abandons? && Filed(s, step.id, i) && !x.published && x.state != Exited)
                    || (step.Wakes? && s.closing && Current(s, i));
      && x'.watcher ==
         (if x.watcher == NotStarted && starts then Watching
          else if step == Watches(i, Exited) && x.watcher == Watching && Current(s, i) then Ended
          else x.watcher)
      && (x'.observed <==>
            || x.observed
            || (step.Publishes? && step.observed && Filed(s, step.id, i) && x.state == Exited)
            || (step.Polls? && step.mark && step.state.Exited? && Filed(s, step.id, i)))
  {
  }

  lemma WatchedNext(maxSessions: nat, front: seq<Step>, last: Step, i: nat)
    requires Keyed(Run(maxSessions, front)) && Tells(maxSessions, front, i) && Watched(maxSessions, front, i)
    requires i < |Run(maxSessions, front).sessions|
    ensures Watched(maxSessions, front + [last], i)
  {
    RunSnoc(maxSessions, front, last);
    WatchSnoc(maxSessions, front, last, i);
    StepRecord(Run(maxSessions, front), last, i);
    RecordWatches(Run(maxSessions, front), last, i);
  }

  lemma WatchedNew(maxSessions: nat, front: seq<Step>, last: Step, i: nat)
    requires Keyed(Run(maxSessions, front)) && Tells(maxSessions, front, i) && Watched(maxSessions, front, i)
    requires i >= |Run(maxSessions, front).sessions|
    ensures Watched(maxSessions, front + [last], i)
  {
    var s := Run(maxSessions, front);
    RunSnoc(maxSessions, front, last);
    WatchSnoc(maxSessions, front, last, i);
    UnknownUntouched(s, last, i);
    if i < |Next(s, last).sessions| {
      NewRecord(s, last, i);
    }
  }

  /**
    In every run a session is watched from its first launch after a publish, from an abandon
    that finds it running, or from shutdown on, until its watcher sees it exit; and it counts
    as observed once a consumer was shown the exit.
   */
  lemma {:induction false} WatcherTells(maxSessions: nat, steps: seq<Step>, i: nat)
    ensures Watched(maxSessions, steps, i)
  {
    if steps != [] {
      var front, last := steps[..|steps| - 1], steps[|steps| - 1];
      assert steps == front + [last];
      WatcherTells(maxSessions, front, i);
      HistoryTells(maxSessions, front, i);
      RunKeeps(maxSessions, front);
      if i < |Run(maxSessions, front).sessions| {
        WatchedNext(maxSessions, front, last, i);
      } else {
        WatchedNew(maxSessions, front, last, i);
      }
    }
  }

  // ----- Who is granted a start, and which ports are known -----

  /** The entries an expiry leaves. */
  function Retained(s: System, due: set<string>): set<string>
    requires InRange(s)
  {
    set id | id in s.entries && !(id in due && s.sessions[s.entries[id]].state.Exited?)
  }

  /** The first section of `start` grants a session. */
  ghost predicate Grants(s: System, due: set<string>)
    requires InRange(s)
  {
    !s.closing && |Retained(s, due)| + |Flying(s)| < s.maxSessions
  }

  lemma ReserveGrants(s: System, port: nat, due: set<string>)
    requires InRange(s) && s.starting == |Flying(s)|
    ensures Reserve(s, port, due).sessions == s.sessions
      + (if Grants(s, due)
         then [Session(port, Reserved, "", Running, false, false, false, false, NotStarted)] else [])
    ensures Reserve(s, port, due).ports == s.ports + (if Grants(s, due) then {port} else {})
  {
    assert Expire(s, due).entries.Keys == Retained(s, due);
  }

  /** A start is granted iff the manager is open and holds fewer than its limit of entries and starts, after expiry. */
  lemma StartGrantedIff(maxSessions: nat, steps: seq<Step>, port: nat, due: set<string>)
    ensures var s, s' := Run(maxSessions, steps), Run(maxSessions, steps + [Begins(port, due)]);
      && InRange(s)
      && s'.sessions == s.sessions
           + (if Grants(s, due)
              then [Session(port, Reserved, "", Running, false, false, false, false, NotStarted)] else [])
  {
    RunKeeps(maxSessions, steps);
    RunSnoc(maxSessions, steps, Begins(port, due));
    ReserveGrants(Run(maxSessions, steps), port, due);
  }

  /** Some entry or some other start under way is on the port. */
  ghost predicate Needed(s: System, port: nat, but: Option<nat>) {
    exists i :: 0 <= i < |s.sessions| && s.sessions[i].port == port
                && (Current(s, i) || (InFlight(s, i) && Some(i) != but))
  }

  /** The step forgets a port it knew. */
  ghost predicate Forgets(s: System, step: Step, port: nat) {
    match step
    case Settles(i) =>
      && Enabled(s, step) && s.sessions[i].port == port && s.sessions[i].stage != Failed(true)
      && !Needed(s, port, Some(i))
    case Drops(p) => p == port && !Needed(s, port, None)
    case Clears => s.closing
    case _ => false
  }

  lemma UsedByEntry(s: System, port: nat)
    requires Keyed(s)
    ensures PortInUse(s, port) <==> exists i :: 0 <= i < |s.sessions| && s.sessions[i].port == port && Current(s, i)
  {
    if PortInUse(s, port) {
      var id :| id in s.entries && s.sessions[s.entries[id]].port == port;
      assert Current(s, s.entries[id]);
    }
  }

  lemma CountedByStart(s: System, port: nat, but: Option<nat>)
    requires Counted(s) && (but.Some? ==> but.value in FlyingOn(s, port))
    ensures Count(s.startingPorts, port) > (if but.Some? then 1 else 0) <==>
      exists i :: 0 <= i < |s.sessions| && s.sessions[i].port == port && InFlight(s, i) && Some(i) != but
  {
    assert Tallied(s, port);
    var all := FlyingOn(s, port);
    if but.Some? {
      var rest := all - {but.value};
      assert |rest| == |all| - 1;
      if |rest| > 0 {
        var i :| i in rest;
        assert 0 <= i < |s.sessions| && s.sessions[i].port == port && InFlight(s, i) && Some(i) != but;
      }
      if i :| 0 <= i < |s.sessions| && s.sessions[i].port == port && InFlight(s, i) && Some(i) != but {
        assert i in rest;
      }
    } else {
      if |all| > 0 {
        var i :| i in all;
        assert 0 <= i < |s.sessions| && s.sessions[i].port == port && InFlight(s, i) && Some(i) != but;
      }
      if i :| 0 <= i < |s.sessions| && s.sessions[i].port == port && InFlight(s, i) && Some(i) != but {
        assert i in all;
      }
    }
  }

  lemma NeededSplit(s: System, port: nat, but: Option<nat>)
    requires Keyed(s) && Counted(s) && (but.Some? ==> but.value in FlyingOn(s, port))
    ensures Needed(s, port, but) <==>
      PortInUse(s, port) || Count(s.startingPorts, port) > (if but.Some? then 1 else 0)
  {
    UsedByEntry(s, port);
    CountedByStart(s, port, but);
  }

  lemma SettlePorts(s: System, i: nat)
    requires Keyed(s) && Counted(s) && Enabled(s, Settles(i))
    ensures var port := s.sessions[i].port;
      Settle(s, i).ports == s.ports - (if Forgets(s, Settles(i), port) then {port} else {})
  {
    var port := s.sessions[i].port;
    NeededSplit(s, port, Some(i));
    var t := Landed(s, i);
    assert PortInUse(t, port) <==> PortInUse(s, port) by {
      forall id | id in s.entries ensures t.sessions[s.entries[id]].port == s.sessions[s.entries[id]].port {
      }
    }
  }

  lemma OthersKeepPorts(s: System, step: Step)
    requires !step.Begins? && !step.Settles? && !step.Drops? && !step.Clears?
    ensures Next(s, step).ports == s.ports
  {
  }

  lemma DropPorts(s: System, port: nat)
    requires Keyed(s) && Counted(s)
    ensures DropIdle(s, port).ports == s.ports - (if Needed(s, port, None) then {} else {port})
  {
    NeededSplit(s, port, None);
  }

  lemma StepPorts(s: System, step: Step, port: nat)
    requires Keyed(s) && Counted(s)
    ensures port in Next(s, step).ports <==>
      || (port in s.ports && !Forgets(s, step, port))
      || (step.Begins? && step.port == port && Grants(s, step.due))
  {
    match step
    case Begins(p, due) => ReserveGrants(s, p, due);
    case Settles(i) =>
      if Enabled(s, step) {
        SettlePorts(s, i);
      }
    case Drops(p) => DropPorts(s, p);
    case Clears =>
    case _ => OthersKeepPorts(s, step);
  }

  /**
    In every run a port becomes known by a granted start and is forgotten only at shutdown,
    or when a start ends or a release drops it and no entry and no other start is on it.
   */
  lemma PortKnownIff(maxSessions: nat, steps: seq<Step>, step: Step, port: nat)
    ensures var s := Run(maxSessions, steps);
      && InRange(s)
      && (port in Run(maxSessions, steps + [step]).ports <==>
            || (port in s.ports && !Forgets(s, step, port))
            || (step.Begins? && step.port == port && Grants(s, step.due)))
  {
    RunKeeps(maxSessions, steps);
    RunSnoc(maxSessions, steps, step);
    StepPorts(Run(maxSessions, steps), step, port);
  }

  lemma StepCloses(s: System, step: Step)
    requires InRange(s)
    ensures Next(s, step).closing == (s.closing || step.Shuts?)
  {
  }

  /** The manager is closing exactly since shutdown began. */
  lemma {:induction false} ClosingIff(maxSessions: nat, steps: seq<Step>)
    ensures Run(maxSessions, steps).closing <==> exists k :: 0 <= k < |steps| && steps[k].Shuts?
  {
    if steps != [] {
      var front := steps[..|steps| - 1];
      ClosingIff(maxSessions, front);
      RunKeeps(maxSessions, front);
      StepCloses(Run(maxSessions, front), steps[|steps| - 1]);
      assert forall k :: 0 <= k < |front| ==> front[k] == steps[k];
    }
  }

  /** No start is granted and nothing is filed once shutdown has begun. */
  lemma NothingAfterShutdown(maxSessions: nat, steps: seq<Step>, k: nat, step: Step, id: string, i: nat)
    requires k < |steps| && steps[k].Shuts?
    ensures |Run(maxSessions, steps + [step]).sessions| == |Run(maxSessions, steps).sessions|
    ensures Filed(Run(maxSessions, steps + [step]), id, i) ==> Filed(Run(maxSessions, steps), id, i)
  {
    var s := Run(maxSessions, steps);
    ClosingIff(maxSessions, steps);
    RunKeeps(maxSessions, steps);
    RunSnoc(maxSessions, steps, step);
    FiledIff(maxSessions, steps, step, id, i);
    SameSessions(s, step);
  }

  lemma SameSessions(s: System, step: Step)
    requires InRange(s) && s.closing
    ensures |Next(s, step).sessions| == |s.sessions|
  {
  }
}
