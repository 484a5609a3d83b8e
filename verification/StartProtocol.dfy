/**
  The peer's process-start reservation protocol
  (reuleauxcoder-agent/internal/process/manager.go:158-378 and 636-675).

  `Manager` holds the tables and its methods are the sections that run under the
  manager's mutex. `System` adds the start calls between those sections; a `Step`
  is one atomic section, so a run of steps is an interleaving of calls.
 */
module StartProtocol {
  import opened Prelude

  const MAX_SESSIONS := 64

  /** A registered process; `token` identifies the `*state` object. */
  datatype Process = Process(id: string, key: string, token: nat)

  /** What `m.mu` protects. `starting` maps a key to its reservation. */
  datatype Tables = Tables(
    states: map<string, Process>,
    idempotent: map<string, string>,
    starting: map<string, nat>,
    startingIds: set<string>,
    closing: bool)

  datatype Error = BadRequest | NoTerminal | ShuttingDown | NotUnique | Exhausted | LaunchFailed(code: string)

  datatype Result = Ok(id: string, reused: bool) | Err(error: Error)

  /** How the first locked section of a start answers. */
  datatype Admission = Refused | Reuse(id: string) | Join(reservation: nat) | Rejected(error: Error) | Admitted

  // ----- The locked sections, on values -----

  /** Drops the processes in `gone` together with their keys. */
  function Without(t: Tables, gone: set<string>): Tables {
    t.(states := t.states - gone,
       idempotent := map key | key in t.idempotent && t.idempotent[key] !in gone :: t.idempotent[key])
  }

  /** `cleanupTerminalLocked`, for the processes whose retention has expired. */
  function Expire(t: Tables, expired: set<nat>): Tables {
    Without(t, set id | id in t.states && t.states[id].token in expired)
  }

  function Admit(t: Tables, id: string, key: string): Admission {
    if t.closing then Refused
    else if key in t.idempotent then Reuse(t.idempotent[key])
    else if key in t.starting then Join(t.starting[key])
    else if id in t.states || id in t.startingIds then Rejected(NotUnique)
    else if |t.states| + |t.starting| >= MAX_SESSIONS then Rejected(Exhausted)
    else Admitted
  }

  /** The first locked section: expiry, then admission; `reservation` is the new reservation. */
  function ReserveIn(t: Tables, id: string, key: string, expired: set<nat>, reservation: nat): (Tables, Admission) {
    if t.closing then (t, Refused)
    else
      var t' := Expire(t, expired);
      var a := Admit(t', id, key);
      (if a.Admitted?
       then t'.(starting := t'.starting[key := reservation], startingIds := t'.startingIds + {id})
       else t', a)
  }

  /** The second locked section: registration after the process was launched. */
  function RegisterIn(t: Tables, p: Process): (Tables, Admission) {
    if t.closing then (t, Refused)
    else if p.id in t.states then (t, Rejected(NotUnique))
    else if p.key in t.idempotent then (t, Reuse(t.idempotent[p.key]))
    else (t.(states := t.states[p.id := p], idempotent := t.idempotent[p.key := p.id]), Admitted)
  }

  /** The deferred section that drops the reservation. */
  function SettleIn(t: Tables, id: string, key: string): Tables {
    t.(starting := t.starting - {key}, startingIds := t.startingIds - {id})
  }

  function RemoveFrom(t: Tables, p: Process): Tables {
    if p.id in t.states && t.states[p.id] == p
    then t.(states := t.states - {p.id}, idempotent := t.idempotent - {p.key})
    else t
  }

  /** Each registered process is filed under its id, and exactly under its key. */
  ghost predicate Inverse(t: Tables) {
    && (forall id :: id in t.states ==>
          && t.states[id].id == id
          && t.states[id].key in t.idempotent
          && t.idempotent[t.states[id].key] == id)
    && (forall key :: key in t.idempotent ==>
          t.idempotent[key] in t.states && t.states[t.idempotent[key]].key == key)
  }

  // ----- The manager object -----

  class Manager {
    var states: map<string, Process>
    var idempotent: map<string, string>
    var starting: map<string, nat>
    var startingIds: set<string>
    var closing: bool

    function View(): Tables
      reads this
    {
      Tables(states, idempotent, starting, startingIds, closing)
    }

    constructor ()
      ensures View() == Tables(map[], map[], map[], {}, false)
    {
      states, idempotent, starting, startingIds, closing := map[], map[], map[], {}, false;
    }

    /** The loop over all processes that drops the expired ones. */
    method CleanupTerminal(expired: set<nat>)
      modifies this
      requires Inverse(View())
      ensures View() == Expire(old(View()), expired) && Inverse(View())
    {
      var todo := states.Keys;
      ghost var gone: set<string> := {};
      ghost var before := View();
      assert Without(before, {}) == before;
      while todo != {}
        invariant todo <= before.states.Keys && todo !! gone && gone <= before.states.Keys
        invariant View() == Without(before, gone)
        invariant forall id :: id in before.states && id !in todo ==>
                    (id in gone <==> before.states[id].token in expired)
        decreases todo
      {
        var id :| id in todo;
        todo := todo - {id};
        var p := states[id];
        if p.token in expired {
          DropOne(before, gone, id);
          gone := gone + {id};
          states := states - {p.id};
          idempotent := idempotent - {p.key};
        }
      }
      assert gone == set id | id in before.states && before.states[id].token in expired;
    }

    /** The first locked section of `start`. */
    method Reserve(id: string, key: string, expired: set<nat>, reservation: nat) returns (a: Admission)
      requires Inverse(View())
      modifies this
      ensures (View(), a) == ReserveIn(old(View()), id, key, expired, reservation)
      ensures Inverse(View())
    {
      if closing {
        return Refused;
      }
      CleanupTerminal(expired);
      if key in idempotent {
        return Reuse(idempotent[key]);
      }
      if key in starting {
        return Join(starting[key]);
      }
      if id in states {
        return Rejected(NotUnique);
      }
      if id in startingIds {
        return Rejected(NotUnique);
      }
      if |states| + |starting| >= MAX_SESSIONS {
        return Rejected(Exhausted);
      }
      starting := starting[key := reservation];
      startingIds := startingIds + {id};
      return Admitted;
    }

    /** The second locked section of `start`. */
    method Register(p: Process) returns (a: Admission)
      modifies this
      ensures (View(), a) == RegisterIn(old(View()), p)
      ensures Inverse(old(View())) ==> Inverse(View())
    {
      if closing {
        return Refused;
      }
      if p.id in states {
        return Rejected(NotUnique);
      }
      if p.key in idempotent {
        return Reuse(idempotent[p.key]);
      }
      states := states[p.id := p];
      idempotent := idempotent[p.key := p.id];
      return Admitted;
    }

    /** The deferred section of `start`. */
    method Settle(id: string, key: string)
      modifies this
      ensures View() == SettleIn(old(View()), id, key)
      ensures Inverse(old(View())) ==> Inverse(View())
    {
      starting := starting - {key};
      startingIds := startingIds - {id};
    }

    /** `remove`: release and cancel drop a process only if it is still the registered one. */
    method Remove(p: Process)
      modifies this
      ensures View() == RemoveFrom(old(View()), p)
      ensures Inverse(old(View())) ==> Inverse(View())
    {
      if p.id in states && states[p.id] == p {
        states := states - {p.id};
        idempotent := idempotent - {p.key};
      }
    }

    method BeginClose()
      modifies this
      ensures View() == old(View()).(closing := true)
    {
      closing := true;
    }
  }

  lemma DropOne(t: Tables, gone: set<string>, id: string)
    requires Inverse(t) && gone <= t.states.Keys && id in t.states && id !in gone
    ensures var w := Without(t, gone);
            && id in w.states && w.states[id] == t.states[id]
            && w.(states := w.states - {id}, idempotent := w.idempotent - {t.states[id].key})
               == Without(t, gone + {id})
  {
    var w, w' := Without(t, gone), Without(t, gone + {id});
    assert w.states - {id} == w'.states;
    assert w.idempotent - {t.states[id].key} == w'.idempotent;
  }

  // ----- All interleavings -----

  /** The arguments of `start` that its checks before the lock look at. */
  datatype Request = Request(id: string, key: string, command: string, tty: bool)

  /** The checks before the lock. */
  function Precheck(r: Request): Option<Error> {
    if r.id == "" || r.key == "" || r.command == "" then Some(BadRequest)
    else if r.tty then Some(NoTerminal)
    else None
  }

  /** `Adopted` is the answer of the late duplicate-key check. */
  datatype Stage = Launching | Failed(error: Error) | Adopted(id: string) | Registered | Settled(result: Result)

  datatype Reservation = Reservation(id: string, key: string, stage: Stage)

  datatype Answer = Owns(reservation: nat) | Joins(reservation: nat) | Immediate(result: Result)

  /** `during` is the reservation in flight for the call's key when it was admitted, its own included. */
  datatype Call = Call(key: string, answer: Answer, during: Option<nat>)

  /** A process carries the number of its reservation as token. */
  datatype System = System(
    tables: Tables, reservations: seq<Reservation>, calls: seq<Call>, exited: set<nat>)

  datatype Step =
    | Begin(request: Request, expired: set<nat>)
    | LaunchFails(r: nat, code: string)
    | Registers(r: nat)
    | Settles(r: nat)
    | Exits(r: nat)
    | Releases(r: nat)
    | Closes

  const INITIAL := System(Tables(map[], map[], map[], {}, false), [], [], {})

  predicate Enabled(s: System, step: Step) {
    match step
    case Begin(_, expired) => expired <= s.exited
    case LaunchFails(r, _) => r < |s.reservations| && s.reservations[r].stage.Launching?
    case Registers(r) => r < |s.reservations| && s.reservations[r].stage.Launching?
    case Settles(r) =>
      && r < |s.reservations|
      && !s.reservations[r].stage.Launching? && !s.reservations[r].stage.Settled?
    case Exits(r) => r < |s.reservations|
    case Releases(r) => r < |s.reservations| && r in s.exited
    case Closes => true
  }

  function SetStage(s: System, r: nat, stage: Stage): System
    requires r < |s.reservations|
  {
    s.(reservations := s.reservations[r := s.reservations[r].(stage := stage)])
  }

  function ProcessOf(s: System, r: nat): Process
    requires r < |s.reservations|
  {
    Process(s.reservations[r].id, s.reservations[r].key, r)
  }

  function ResultOf(id: string, stage: Stage): Result
    requires !stage.Launching? && !stage.Settled?
  {
    match stage
    case Failed(error) => Err(error)
    case Adopted(other) => Ok(other, true)
    case Registered => Ok(id, false)
  }

  /** The reservation in flight for a key. */
  function InFlight(t: Tables, key: string): Option<nat> {
    if key in t.starting then Some(t.starting[key]) else None
  }

  function Answered(s: System, key: string, result: Result): System {
    s.(calls := s.calls + [Call(key, Immediate(result), InFlight(s.tables, key))])
  }

  function BeginCall(s: System, request: Request, expired: set<nat>): System {
    var (id, key) := (request.id, request.key);
    if Precheck(request).Some? then Answered(s, key, Err(Precheck(request).value))
    else
      var r := |s.reservations|;
      var (t, a) := ReserveIn(s.tables, id, key, expired, r);
      var s' := s.(tables := t);
      match a
      case Refused => Answered(s', key, Err(ShuttingDown))
      case Reuse(other) => Answered(s', key, Ok(other, true))
      case Join(other) => s'.(calls := s.calls + [Call(key, Joins(other), InFlight(t, key))])
      case Rejected(error) => Answered(s', key, Err(error))
      case Admitted =>
        System(t, s.reservations + [Reservation(id, key, Launching)],
               s.calls + [Call(key, Owns(r), InFlight(t, key))], s.exited)
  }

  function Next(s: System, step: Step): System {
    if !Enabled(s, step) then s
    else match step
      case Begin(request, expired) => BeginCall(s, request, expired)
      case LaunchFails(r, code) => SetStage(s, r, Failed(LaunchFailed(code)))
      case Registers(r) =>
        var (t, a) := RegisterIn(s.tables, ProcessOf(s, r));
        var stage := match a
          case Refused => Failed(ShuttingDown)
          case Rejected(error) => Failed(error)
          case Reuse(other) => Adopted(other)
          case Join(_) => Launching
          case Admitted => Registered;
        SetStage(s, r, stage).(tables := t)
      case Settles(r) =>
        var res := s.reservations[r];
        SetStage(s, r, Settled(ResultOf(res.id, res.stage))).(tables := SettleIn(s.tables, res.id, res.key))
      case Exits(r) => s.(exited := s.exited + {r})
      case Releases(r) => s.(tables := RemoveFrom(s.tables, ProcessOf(s, r)))
      case Closes => s.(tables := s.tables.(closing := true))
  }

  /** The state after a whole run; disabled steps change nothing. */
  function Run(steps: seq<Step>): System {
    if steps == [] then INITIAL else Next(Run(steps[..|steps| - 1]), steps[|steps| - 1])
  }

  // ----- What every step keeps -----

  predicate Live(s: System, r: nat)
    requires r < |s.reservations|
  {
    !s.reservations[r].stage.Settled?
  }

  /** Still to be registered, or never to be. */
  predicate Unregistered(stage: Stage) {
    stage.Launching? || stage.Failed? || stage.Adopted?
  }

  /** The reservation tables list exactly the reservations in flight, whose ids differ. */
  ghost predicate Filed(s: System) {
    && (forall r :: 0 <= r < |s.reservations| && Live(s, r) ==>
          && s.reservations[r].key in s.tables.starting
          && s.tables.starting[s.reservations[r].key] == r
          && s.reservations[r].id in s.tables.startingIds)
    && (forall key :: key in s.tables.starting ==>
          && s.tables.starting[key] < |s.reservations|
          && Live(s, s.tables.starting[key])
          && s.reservations[s.tables.starting[key]].key == key)
    && (forall q, r :: 0 <= q < r < |s.reservations| && Live(s, q) && Live(s, r) ==>
          s.reservations[q].id != s.reservations[r].id)
  }

  /** An unregistered reservation blocks its id and key; a registered one still owns its key. */
  ghost predicate Exclusive(s: System) {
    forall r :: 0 <= r < |s.reservations| ==>
      var res := s.reservations[r];
      && (Unregistered(res.stage) ==> res.id !in s.tables.states && res.key !in s.tables.idempotent)
      && (res.stage.Registered? && res.key in s.tables.idempotent ==> s.tables.idempotent[res.key] == res.id)
      && !res.stage.Adopted? && res.stage != Failed(NotUnique)
  }

  /** Keys whose reservation has not turned into a registered process. */
  function Waiting(s: System): set<string> {
    set key | key in s.tables.starting
              && s.tables.starting[key] < |s.reservations|
              && Unregistered(s.reservations[s.tables.starting[key]].stage)
  }

  ghost predicate WithinCapacity(s: System) {
    |s.tables.states| + |Waiting(s)| <= MAX_SESSIONS
  }

  /** A call that met a reservation shares its fate, unless it was turned away at once. */
  ghost predicate Faithful(s: System) {
    forall c :: 0 <= c < |s.calls| ==> CallFaithful(s, s.calls[c])
  }

  predicate CallFaithful(s: System, c: Call) {
    match c.answer
    case Owns(r) => r < |s.reservations| && c.during == Some(r)
    case Joins(r) => r < |s.reservations| && c.during == Some(r)
    case Immediate(result) =>
      c.during.Some? ==>
        var r := c.during.value;
        && r < |s.reservations|
        && (result.Ok? ==>
              && result == Ok(s.reservations[r].id, true)
              && (|| s.reservations[r].stage.Registered?
                  || s.reservations[r].stage == Settled(Ok(s.reservations[r].id, false))))
  }

  ghost predicate Invariant(s: System) {
    Inverse(s.tables) && Filed(s) && Exclusive(s) && WithinCapacity(s) && Faithful(s)
  }

  /** Dropping registered processes (by expiry or release) keeps everything. */
  lemma DropKeeps(s: System, gone: set<string>)
    requires Invariant(s)
    ensures Invariant(s.(tables := Without(s.tables, gone)))
  {
    var s' := s.(tables := Without(s.tables, gone));
    SubsetSize(s'.tables.states.Keys, s.tables.states.Keys);
    assert Waiting(s') == Waiting(s);
  }

  lemma ReleaseKeeps(s: System, r: nat)
    requires Invariant(s) && r < |s.reservations|
    ensures Invariant(s.(tables := RemoveFrom(s.tables, ProcessOf(s, r))))
  {
    var p := ProcessOf(s, r);
    if p.id in s.tables.states && s.tables.states[p.id] == p {
      DropOne(s.tables, {}, p.id);
      assert Without(s.tables, {}) == s.tables;
      assert {} + {p.id} == {p.id};
      DropKeeps(s, {p.id});
    }
  }

  /** A new reservation, after expiry. */
  function AfterAdmit(s: System, id: string, key: string): System {
    var r := |s.reservations|;
    System(s.tables.(starting := s.tables.starting[key := r], startingIds := s.tables.startingIds + {id}),
           s.reservations + [Reservation(id, key, Launching)],
           s.calls + [Call(key, Owns(r), Some(r))], s.exited)
  }

  lemma AdmitFiled(s: System, id: string, key: string)
    requires Filed(s) && Exclusive(s) && Admit(s.tables, id, key).Admitted?
    ensures Filed(AfterAdmit(s, id, key)) && Exclusive(AfterAdmit(s, id, key))
  {
  }

  lemma AdmitCapacity(s: System, id: string, key: string)
    requires Filed(s) && Admit(s.tables, id, key).Admitted?
    ensures WithinCapacity(AfterAdmit(s, id, key))
  {
    var s' := AfterAdmit(s, id, key);
    forall k
      ensures k in Waiting(s') <==> k in Waiting(s) + {key}
    {
    }
    assert Waiting(s') == Waiting(s) + {key};
    SubsetSize(Waiting(s), s.tables.starting.Keys);
  }

  lemma AdmitFaithful(s: System, id: string, key: string)
    requires Faithful(s)
    ensures Faithful(AfterAdmit(s, id, key))
  {
    var s' := AfterAdmit(s, id, key);
    forall c | 0 <= c < |s'.calls|
      ensures CallFaithful(s', s'.calls[c])
    {
      assert c < |s.calls| ==> CallFaithful(s, s.calls[c]);
    }
  }

  lemma CallKeeps(s: System, c: Call)
    requires Invariant(s) && CallFaithful(s, c)
    ensures Invariant(s.(calls := s.calls + [c]))
  {
    var s' := s.(calls := s.calls + [c]);
    assert Waiting(s') == Waiting(s);
    forall i | 0 <= i < |s'.calls|
      ensures CallFaithful(s', s'.calls[i])
    {
      assert i < |s.calls| ==> CallFaithful(s, s.calls[i]);
    }
  }

  lemma BeginKeeps(s: System, request: Request, expired: set<nat>)
    requires Invariant(s)
    ensures Invariant(BeginCall(s, request, expired))
  {
    var key := request.key;
    if Precheck(request).Some? {
      CallKeeps(s, Call(key, Immediate(Err(Precheck(request).value)), InFlight(s.tables, key)));
    } else if s.tables.closing {
      CallKeeps(s, Call(key, Immediate(Err(ShuttingDown)), InFlight(s.tables, key)));
    } else {
      var m := s.(tables := Expire(s.tables, expired));
      DropKeeps(s, set id | id in s.tables.states && s.tables.states[id].token in expired);
      AdmissionKeeps(m, request.id, key);
      BeginIsAdmission(s, request, expired);
    }
  }

  lemma BeginIsAdmission(s: System, request: Request, expired: set<nat>)
    requires Precheck(request).None? && !s.tables.closing
    ensures BeginCall(s, request, expired)
         == AfterAdmission(s.(tables := Expire(s.tables, expired)), request.id, request.key)
  {
  }

  /** The system after admission, for a call that was not refused. */
  function AfterAdmission(m: System, id: string, key: string): System
    requires !m.tables.closing
  {
    match Admit(m.tables, id, key)
    case Admitted => AfterAdmit(m, id, key)
    case Reuse(other) => Answered(m, key, Ok(other, true))
    case Join(other) => m.(calls := m.calls + [Call(key, Joins(other), InFlight(m.tables, key))])
    case Rejected(error) => Answered(m, key, Err(error))
    case Refused => m
  }

  /** A registered key answers for the reservation that may still be in flight for it. */
  lemma ReuseFaithful(m: System, key: string)
    requires Filed(m) && Exclusive(m) && key in m.tables.idempotent
    ensures CallFaithful(m, Call(key, Immediate(Ok(m.tables.idempotent[key], true)), InFlight(m.tables, key)))
  {
  }

  lemma AdmitKeeps(m: System, id: string, key: string)
    requires Invariant(m) && Admit(m.tables, id, key).Admitted?
    ensures Invariant(AfterAdmit(m, id, key))
  {
    AdmitFiled(m, id, key);
    AdmitCapacity(m, id, key);
    AdmitFaithful(m, id, key);
  }

  lemma AdmissionKeeps(m: System, id: string, key: string)
    requires Invariant(m) && !m.tables.closing
    ensures Invariant(AfterAdmission(m, id, key))
  {
    match Admit(m.tables, id, key)
    case Admitted => AdmitKeeps(m, id, key);
    case Reuse(other) =>
      ReuseFaithful(m, key);
      CallKeeps(m, Call(key, Immediate(Ok(other, true)), InFlight(m.tables, key)));
    case Join(other) => CallKeeps(m, Call(key, Joins(other), Some(other)));
    case Rejected(error) => CallKeeps(m, Call(key, Immediate(Err(error)), InFlight(m.tables, key)));
    case Refused =>
  }

  /** Moving one reservation between unregistered stages. */
  lemma FailKeeps(s: System, r: nat, stage: Stage)
    requires Invariant(s) && r < |s.reservations| && s.reservations[r].stage.Launching?
    requires stage.Failed? && stage != Failed(NotUnique)
    ensures Invariant(SetStage(s, r, stage))
  {
    StageFaithful(s, SetStage(s, r, stage), r);
    FailFiled(s, r, stage);
    assert Waiting(SetStage(s, r, stage)) == Waiting(s);
  }

  lemma FailFiled(s: System, r: nat, stage: Stage)
    requires Filed(s) && Exclusive(s) && r < |s.reservations| && s.reservations[r].stage.Launching?
    requires stage.Failed? && stage != Failed(NotUnique)
    ensures Filed(SetStage(s, r, stage)) && Exclusive(SetStage(s, r, stage))
  {
  }

  function AfterRegister(s: System, r: nat): System
    requires r < |s.reservations|
  {
    var p := ProcessOf(s, r);
    SetStage(s, r, Registered).(
      tables := s.tables.(states := s.tables.states[p.id := p], idempotent := s.tables.idempotent[p.key := p.id]))
  }

  lemma RegisterFiled(s: System, r: nat)
    requires Inverse(s.tables) && Filed(s) && Exclusive(s) && Enabled(s, Registers(r))
    ensures Filed(AfterRegister(s, r)) && Inverse(AfterRegister(s, r).tables)
  {
  }

  lemma RegisterExclusive(s: System, r: nat)
    requires Filed(s) && Exclusive(s) && Enabled(s, Registers(r))
    ensures Exclusive(AfterRegister(s, r))
  {
    var s' := AfterRegister(s, r);
    forall q | 0 <= q < |s'.reservations| && q != r && Live(s, q)
      ensures s.reservations[q].id != s.reservations[r].id && s.reservations[q].key != s.reservations[r].key
    {
      assert if q < r then s.reservations[q].id != s.reservations[r].id
             else s.reservations[r].id != s.reservations[q].id;
    }
  }

  lemma RegisterCapacity(s: System, r: nat)
    requires Filed(s) && Exclusive(s) && WithinCapacity(s) && Enabled(s, Registers(r))
    ensures WithinCapacity(AfterRegister(s, r))
  {
    var s', p := AfterRegister(s, r), ProcessOf(s, r);
    assert Waiting(s') == Waiting(s) - {p.key};
    assert s'.tables.states.Keys == s.tables.states.Keys + {p.id};
  }

  /** Calls stay faithful when one reservation moves on. */
  lemma StageFaithful(s: System, s': System, r: nat)
    requires Faithful(s) && r < |s.reservations| == |s'.reservations| && s'.calls == s.calls
    requires forall q :: 0 <= q < |s.reservations| && q != r ==> s'.reservations[q] == s.reservations[q]
    requires s'.reservations[r].id == s.reservations[r].id
    requires s.reservations[r].stage.Registered? ==>
               s'.reservations[r].stage == Settled(Ok(s.reservations[r].id, false))
    requires !s.reservations[r].stage.Settled?
    ensures Faithful(s')
  {
    forall c | 0 <= c < |s'.calls|
      ensures CallFaithful(s', s'.calls[c])
    {
      assert CallFaithful(s, s.calls[c]);
    }
  }

  lemma RegisterAdmits(s: System, r: nat)
    requires Exclusive(s) && Enabled(s, Registers(r)) && !s.tables.closing
    ensures Next(s, Registers(r)) == AfterRegister(s, r)
  {
  }

  lemma RegisterKeeps(s: System, r: nat)
    requires Invariant(s) && Enabled(s, Registers(r)) && !s.tables.closing
    ensures Invariant(AfterRegister(s, r))
  {
    RegisterFiled(s, r);
    RegisterExclusive(s, r);
    RegisterCapacity(s, r);
    StageFaithful(s, AfterRegister(s, r), r);
  }

  function AfterSettle(s: System, r: nat): System
    requires Enabled(s, Settles(r))
  {
    var res := s.reservations[r];
    SetStage(s, r, Settled(ResultOf(res.id, res.stage))).(tables := SettleIn(s.tables, res.id, res.key))
  }

  lemma SettleFiled(s: System, r: nat)
    requires Filed(s) && Enabled(s, Settles(r))
    ensures Filed(AfterSettle(s, r))
  {
    forall q | 0 <= q < |s.reservations| && q != r && Live(s, q)
      ensures s.reservations[q].id != s.reservations[r].id && s.reservations[q].key != s.reservations[r].key
    {
      assert if q < r then s.reservations[q].id != s.reservations[r].id
             else s.reservations[r].id != s.reservations[q].id;
    }
  }

  lemma SettleExclusive(s: System, r: nat)
    requires Exclusive(s) && Enabled(s, Settles(r))
    ensures Exclusive(AfterSettle(s, r))
  {
  }

  lemma SettleCapacity(s: System, r: nat)
    requires Filed(s) && WithinCapacity(s) && Enabled(s, Settles(r))
    ensures WithinCapacity(AfterSettle(s, r))
  {
    assert Waiting(AfterSettle(s, r)) == Waiting(s) - {s.reservations[r].key};
    SubsetSize(Waiting(AfterSettle(s, r)), Waiting(s));
  }

  lemma SettleKeeps(s: System, r: nat)
    requires Invariant(s) && Enabled(s, Settles(r))
    ensures Invariant(AfterSettle(s, r))
  {
    SettleFiled(s, r);
    SettleExclusive(s, r);
    SettleCapacity(s, r);
    StageFaithful(s, AfterSettle(s, r), r);
  }

  lemma StepKeeps(s: System, step: Step)
    requires Invariant(s)
    ensures Invariant(Next(s, step))
  {
    if Enabled(s, step) {
      match step
      case Begin(request, expired) => BeginKeeps(s, request, expired);
      case LaunchFails(r, code) => FailKeeps(s, r, Failed(LaunchFailed(code)));
      case Registers(r) =>
        if s.tables.closing {
          FailKeeps(s, r, Failed(ShuttingDown));
        } else {
          RegisterKeeps(s, r);
          RegisterAdmits(s, r);
        }
      case Settles(r) => SettleKeeps(s, r);
      case Exits(r) => assert Waiting(Next(s, step)) == Waiting(s);
      case Releases(r) => ReleaseKeeps(s, r);
      case Closes => assert Waiting(Next(s, step)) == Waiting(s);
    }
  }

  /** In every interleaving the tables stay inverse, the capacity holds and all calls are answered faithfully. */
  lemma {:induction false} RunKeeps(steps: seq<Step>)
    ensures Invariant(Run(steps))
  {
    if steps == [] {
      assert Waiting(INITIAL) == {};
    } else {
      RunKeeps(steps[..|steps| - 1]);
      StepKeeps(Run(steps[..|steps| - 1]), steps[|steps| - 1]);
    }
  }

  // ----- Consequences -----

  /** The answer of a call, once it is known. */
  function Outcome(s: System, c: Call): Option<Result> {
    match c.answer
    case Immediate(result) => Some(result)
    case Owns(r) =>
      if r < |s.reservations| && s.reservations[r].stage.Settled? then Some(s.reservations[r].stage.result) else None
    case Joins(r) =>
      if r < |s.reservations| && s.reservations[r].stage.Settled?
      then Some(Replay(s.reservations[r].stage.result)) else None
  }

  /** `replayStartResult`. */
  function Replay(result: Result): Result {
    if result.Ok? then result.(reused := true) else result
  }

  /** The same process or the same error. */
  predicate SameOutcome(a: Result, b: Result) {
    if a.Ok? && b.Ok? then a.id == b.id else a == b
  }

  /** The error a call was turned away with at once, without regard to any reservation. */
  function TurnedAway(c: Call): Option<Error> {
    if c.answer.Immediate? && c.answer.result.Err? then Some(c.answer.result.error) else None
  }

  /** The reservation has ended in this error. */
  predicate EndedIn(s: System, r: nat, error: Error) {
    r < |s.reservations| && s.reservations[r].stage == Settled(Err(error))
  }

  /**
    Starts with one key that overlap the same reservation all get the same result, with
    one exception: a start turned away at once agrees with those that were not exactly
    when the reservation itself ended in the same error.
   */
  lemma OverlappingStartsAgree(steps: seq<Step>, c: nat, d: nat)
    requires var s := Run(steps);
             && c < |s.calls| && d < |s.calls|
             && s.calls[c].during.Some? && s.calls[c].during == s.calls[d].during
             && Outcome(s, s.calls[c]).Some? && Outcome(s, s.calls[d]).Some?
    ensures var s := Run(steps); var r := s.calls[c].during.value;
            SameOutcome(Outcome(s, s.calls[c]).value, Outcome(s, s.calls[d]).value) <==>
              match (TurnedAway(s.calls[c]), TurnedAway(s.calls[d]))
              case (None, None) => true
              case (Some(e), None) => EndedIn(s, r, e)
              case (None, Some(e)) => EndedIn(s, r, e)
              case (Some(e), Some(f)) => e == f
  {
    RunKeeps(steps);
    var s := Run(steps);
    assert CallFaithful(s, s.calls[c]) && CallFaithful(s, s.calls[d]);
  }

  /** A start that meets a reservation for its key is turned away by the checks before the lock or by closing only. */
  lemma TurnedAwayIff(s: System, request: Request, expired: set<nat>)
    requires request.key in s.tables.starting
    ensures var t := BeginCall(s, request, expired);
      && |t.calls| == |s.calls| + 1 && t.calls[|s.calls|].during == Some(s.tables.starting[request.key])
      && TurnedAway(t.calls[|s.calls|])
         == if request.id == "" || request.key == "" || request.command == "" then Some(BadRequest)
            else if request.tty then Some(NoTerminal)
            else if s.tables.closing then Some(ShuttingDown)
            else None
  {
  }

  const FIRST := Request("a", "k", "true", false)
  const LATE := Request("b", "k", "true", false)

  lemma RunSnoc(steps: seq<Step>, step: Step)
    ensures Run(steps + [step]) == Next(Run(steps), step)
  {
    assert (steps + [step])[..|steps|] == steps;
  }

  /** One start, whose reservation is in flight at the given stage. */
  predicate OneStart(s: System, stage: Stage) {
    && s.calls == [Call("k", Owns(0), Some(0))]
    && s.reservations == [Reservation("a", "k", stage)]
    && InFlight(s.tables, "k") == Some(0)
  }

  lemma FirstReserves()
    ensures var s := Run([Begin(FIRST, {})]);
      OneStart(s, Launching) && s.tables.states == map[] && s.tables.idempotent == map[] && !s.tables.closing
  {
    var t := Expire(INITIAL.tables, {});
    assert t == INITIAL.tables;
    BeginIsAdmission(INITIAL, FIRST, {});
    assert BeginCall(INITIAL, FIRST, {}) == AfterAdmit(INITIAL, "a", "k");
    RunSnoc([], Begin(FIRST, {}));
    assert [] + [Begin(FIRST, {})] == [Begin(FIRST, {})];
  }

  lemma FirstRegisters(steps: seq<Step>)
    requires var s := Run(steps);
      OneStart(s, Launching) && s.tables.states == map[] && s.tables.idempotent == map[] && !s.tables.closing
    ensures OneStart(Run(steps + [Registers(0)]), Registered)
  {
    RunSnoc(steps, Registers(0));
  }

  lemma FirstSeesClose(steps: seq<Step>)
    requires OneStart(Run(steps), Registered)
    ensures OneStart(Run(steps + [Closes]), Registered) && Run(steps + [Closes]).tables.closing
  {
    RunSnoc(steps, Closes);
  }

  lemma LateStartRefused(steps: seq<Step>)
    requires Run(steps).tables.closing
    ensures Run(steps + [Begin(LATE, {})]) == Answered(Run(steps), "k", Err(ShuttingDown))
  {
    RunSnoc(steps, Begin(LATE, {}));
  }

  /** Two starts that overlap reservation 0: one has its process, the other was refused. */
  predicate SplitResult(s: System) {
    && |s.calls| == 2 && s.calls[0].during == s.calls[1].during == Some(0)
    && Outcome(s, s.calls[0]) == Some(Ok("a", false))
    && Outcome(s, s.calls[1]) == Some(Err(ShuttingDown))
  }

  lemma FirstSettles(steps: seq<Step>, s: System)
    requires OneStart(s, Registered) && Run(steps) == Answered(s, "k", Err(ShuttingDown))
    ensures SplitResult(Run(steps + [Settles(0)]))
  {
    RunSnoc(steps, Settles(0));
  }

  /** Closing between a registration and its end: the owner has its process, a second start with the key is refused. */
  lemma ClosingSplitsStarts()
    ensures SplitResult(Run([Begin(FIRST, {}), Registers(0), Closes, Begin(LATE, {}), Settles(0)]))
  {
    var a := [Begin(FIRST, {})];
    var b := a + [Registers(0)];
    var c := b + [Closes];
    var d := c + [Begin(LATE, {})];
    FirstReserves();
    FirstRegisters(a);
    FirstSeesClose(b);
    LateStartRefused(c);
    FirstSettles(d, Run(c));
    assert d + [Settles(0)] == [Begin(FIRST, {}), Registers(0), Closes, Begin(LATE, {}), Settles(0)];
  }

  /** The duplicate checks of the second locked section never fire. */
  lemma LateChecksUnreachable(steps: seq<Step>, r: nat)
    requires var s := Run(steps); r < |s.reservations| && s.reservations[r].stage.Launching?
    ensures var s := Run(steps);
            var a := RegisterIn(s.tables, ProcessOf(s, r)).1;
            if s.tables.closing then a == Refused else a == Admitted
  {
    RunKeeps(steps);
  }

  /** Still closing, with no process that was not there before. */
  ghost predicate Shrinks(before: Tables, after: Tables) {
    after.closing && forall id :: id in after.states ==> id in before.states && after.states[id] == before.states[id]
  }

  lemma ClosedStepShrinks(s: System, step: Step)
    requires s.tables.closing
    ensures Shrinks(s.tables, Next(s, step).tables)
  {
  }

  lemma ClosedRunShrinks(steps: seq<Step>, step: Step)
    requires Run(steps).tables.closing
    ensures Shrinks(Run(steps).tables, Run(steps + [step]).tables)
  {
    ClosedStepShrinks(Run(steps), step);
    RunSnoc(steps, step);
  }

  lemma ShrinksOn(a: Tables, b: Tables, c: Tables)
    requires Shrinks(a, b) && Shrinks(b, c)
    ensures Shrinks(a, c)
  {
  }

  /** No process is registered once closing has begun: from then on the table only shrinks. */
  lemma {:induction false} NothingRegisteredAfterClose(steps: seq<Step>, more: seq<Step>)
    requires Run(steps).tables.closing
    ensures Shrinks(Run(steps).tables, Run(steps + more).tables)
    decreases |more|
  {
    if more == [] {
      assert steps + more == steps;
    } else {
      var front, last := more[..|more| - 1], more[|more| - 1];
      var all := steps + front;
      assert steps + more == all + [last];
      NothingRegisteredAfterClose(steps, front);
      ClosedRunShrinks(all, last);
      ShrinksOn(Run(steps).tables, Run(all).tables, Run(all + [last]).tables);
    }
  }

  // ----- Who is registered -----

  /** The reservation has had its process registered. */
  predicate Launched(stage: Stage) {
    stage.Registered? || (stage.Settled? && stage.result.Ok?)
  }

  /** Process `p` is filed under its id. */
  predicate Holds(t: Tables, p: Process) {
    p.id in t.states && t.states[p.id] == p
  }

  /** Registered processes are those of launched reservations, and none of these is missing unless it has exited. */
  ghost predicate Accounted(s: System) {
    && (forall id :: id in s.tables.states ==>
          && s.tables.states[id].token < |s.reservations|
          && s.tables.states[id] == ProcessOf(s, s.tables.states[id].token)
          && Launched(s.reservations[s.tables.states[id].token].stage))
    && (forall r :: 0 <= r < |s.reservations| && Launched(s.reservations[r].stage) ==>
          r in s.exited || Holds(s.tables, ProcessOf(s, r)))
  }

  /** The ids set aside are those of the reservations in flight. */
  ghost predicate SetAside(s: System) {
    s.tables.startingIds == set r: nat | r < |s.reservations| && Live(s, r) :: s.reservations[r].id
  }

  /** The step takes the process of reservation `r` out of the tables if it is there. */
  predicate Dismisses(s: System, step: Step, r: nat) {
    match step
    case Begin(request, expired) =>
      Precheck(request).None? && !s.tables.closing && expired <= s.exited && r in expired
    case Releases(q) => q == r && r < |s.reservations| && r in s.exited
    case _ => false
  }

  /** The step puts process `p` into the tables. */
  predicate Enters(s: System, step: Step, p: Process) {
    && step == Registers(p.token) && p.token < |s.reservations| && s.reservations[p.token].stage.Launching?
    && !s.tables.closing && p == ProcessOf(s, p.token)
  }

  lemma BeginStates(s: System, request: Request, expired: set<nat>)
    ensures BeginCall(s, request, expired).tables.states ==
      if Precheck(request).None? && !s.tables.closing then Expire(s.tables, expired).states else s.tables.states
  {
  }

  lemma BeginHolds(s: System, request: Request, expired: set<nat>, p: Process)
    requires Inverse(s.tables)
    ensures Holds(BeginCall(s, request, expired).tables, p) <==>
      Holds(s.tables, p) && !(Precheck(request).None? && !s.tables.closing && p.token in expired)
  {
    BeginStates(s, request, expired);
  }

  lemma ReleaseHolds(s: System, r: nat, p: Process)
    requires Accounted(s) && r < |s.reservations|
    ensures Holds(RemoveFrom(s.tables, ProcessOf(s, r)), p) <==> Holds(s.tables, p) && p.token != r
  {
  }

  lemma StepHolds(s: System, step: Step, p: Process)
    requires Invariant(s) && Accounted(s)
    ensures Holds(Next(s, step).tables, p) <==>
      (Holds(s.tables, p) && !Dismisses(s, step, p.token)) || Enters(s, step, p)
  {
    if Enabled(s, step) {
      match step
      case Begin(request, expired) => BeginHolds(s, request, expired, p);
      case Releases(r) => ReleaseHolds(s, r, p);
      case Registers(r) =>
        if !s.tables.closing {
          RegisterAdmits(s, r);
        }
      case _ =>
    }
  }

  /** Reservations keep their id and key, and launched ones stay launched; new ones are not launched. */
  ghost predicate Onward(s: System, s': System) {
    && |s.reservations| <= |s'.reservations| && s.exited <= s'.exited
    && (forall r :: 0 <= r < |s.reservations| ==>
          && s'.reservations[r].id == s.reservations[r].id && s'.reservations[r].key == s.reservations[r].key
          && (Launched(s.reservations[r].stage) ==> Launched(s'.reservations[r].stage)))
    && (forall r :: |s.reservations| <= r < |s'.reservations| ==> s'.reservations[r].stage.Launching?)
  }

  lemma BeginReservations(s: System, request: Request, expired: set<nat>)
    ensures var s' := BeginCall(s, request, expired);
      && s'.exited == s.exited
      && (s'.reservations == s.reservations
          || s'.reservations == s.reservations + [Reservation(request.id, request.key, Launching)])
  {
  }

  lemma StepOnward(s: System, step: Step)
    requires Exclusive(s)
    ensures Onward(s, Next(s, step))
  {
    if Enabled(s, step) && step.Begin? {
      BeginReservations(s, step.request, step.expired);
    }
  }

  /** A reservation becomes launched by registering and in no other way. */
  lemma LaunchedBy(s: System, step: Step, r: nat)
    requires Invariant(s) && r < |s.reservations|
    requires r < |Next(s, step).reservations| && Launched(Next(s, step).reservations[r].stage)
    ensures Launched(s.reservations[r].stage) || Enters(s, step, ProcessOf(s, r))
  {
    if Enabled(s, step) && step.Begin? {
      BeginReservations(s, step.request, step.expired);
    }
  }

  lemma HeldIsLaunched(s: System, step: Step, id: string)
    requires Invariant(s) && Accounted(s) && id in Next(s, step).tables.states
    ensures var s' := Next(s, step); var p := s'.tables.states[id];
      p.token < |s'.reservations| && p == ProcessOf(s', p.token) && Launched(s'.reservations[p.token].stage)
  {
    StepOnward(s, step);
    StepKeeps(s, step);
    StepHolds(s, step, Next(s, step).tables.states[id]);
  }

  lemma LaunchedIsHeld(s: System, step: Step, r: nat)
    requires Invariant(s) && Accounted(s)
    requires r < |Next(s, step).reservations| && Launched(Next(s, step).reservations[r].stage)
    ensures var s' := Next(s, step); r in s'.exited || Holds(s'.tables, ProcessOf(s', r))
  {
    StepOnward(s, step);
    LaunchedBy(s, step, r);
    StepHolds(s, step, ProcessOf(s, r));
  }

  lemma StepAccounts(s: System, step: Step)
    requires Invariant(s) && Accounted(s)
    ensures Accounted(Next(s, step))
  {
    var s' := Next(s, step);
    forall id | id in s'.tables.states
      ensures && s'.tables.states[id].token < |s'.reservations|
              && s'.tables.states[id] == ProcessOf(s', s'.tables.states[id].token)
              && Launched(s'.reservations[s'.tables.states[id].token].stage)
    {
      HeldIsLaunched(s, step, id);
    }
    forall r | 0 <= r < |s'.reservations| && Launched(s'.reservations[r].stage)
      ensures r in s'.exited || Holds(s'.tables, ProcessOf(s', r))
    {
      LaunchedIsHeld(s, step, r);
    }
  }

  /** How an admission is answered; `r` is the next reservation. */
  function AnswerTo(a: Admission, r: nat): Answer {
    match a
    case Admitted => Owns(r)
    case Reuse(other) => Immediate(Ok(other, true))
    case Join(other) => Joins(other)
    case Rejected(error) => Immediate(Err(error))
    case Refused => Immediate(Err(ShuttingDown))
  }

  /** What an admission adds. */
  lemma AdmissionAdds(m: System, id: string, key: string)
    requires !m.tables.closing
    ensures var m', a := AfterAdmission(m, id, key), Admit(m.tables, id, key);
      && |m'.calls| == |m.calls| + 1 && m'.calls[..|m.calls|] == m.calls
      && m'.calls[|m.calls|].answer == AnswerTo(a, |m.reservations|)
      && m'.reservations == m.reservations + (if a.Admitted? then [Reservation(id, key, Launching)] else [])
      && m'.tables.startingIds == m.tables.startingIds + (if a.Admitted? then {id} else {})
  {
  }

  lemma SameSetAside(s: System, s': System)
    requires SetAside(s) && s'.tables.startingIds == s.tables.startingIds && |s'.reservations| == |s.reservations|
    requires forall r :: 0 <= r < |s.reservations| ==>
      s'.reservations[r].id == s.reservations[r].id && (Live(s', r) <==> Live(s, r))
    ensures SetAside(s')
  {
  }

  lemma AdmissionSetsAside(m: System, id: string, key: string)
    requires SetAside(m) && !m.tables.closing
    ensures SetAside(AfterAdmission(m, id, key))
  {
    var m' := AfterAdmission(m, id, key);
    AdmissionAdds(m, id, key);
    if Admit(m.tables, id, key).Admitted? {
      assert forall r :: 0 <= r < |m.reservations| ==> m'.reservations[r] == m.reservations[r];
      assert Live(m', |m.reservations|);
    } else {
      SameSetAside(m, m');
    }
  }

  lemma BeginSetsAside(s: System, request: Request, expired: set<nat>)
    requires SetAside(s)
    ensures SetAside(BeginCall(s, request, expired))
  {
    if Precheck(request).Some? || s.tables.closing {
      SameSetAside(s, BeginCall(s, request, expired));
    } else {
      var m := s.(tables := Expire(s.tables, expired));
      SameSetAside(s, m);
      AdmissionSetsAside(m, request.id, request.key);
      BeginIsAdmission(s, request, expired);
    }
  }

  lemma StepSetsAside(s: System, step: Step)
    requires Invariant(s) && SetAside(s)
    ensures SetAside(Next(s, step))
  {
    if Enabled(s, step) {
      match step
      case Begin(request, expired) => BeginSetsAside(s, request, expired);
      case Settles(r) => SettleSetsAside(s, r);
      case Registers(r) =>
        if !s.tables.closing {
          RegisterAdmits(s, r);
        }
        SameSetAside(s, Next(s, step));
      case _ => SameSetAside(s, Next(s, step));
    }
  }

  lemma SettleSetsAside(s: System, r: nat)
    requires Filed(s) && SetAside(s) && Enabled(s, Settles(r))
    ensures SetAside(AfterSettle(s, r))
  {
    var s' := AfterSettle(s, r);
    forall q | 0 <= q < |s.reservations|
      ensures s'.reservations[q].id == s.reservations[q].id
      ensures Live(s', q) <==> q != r && Live(s, q)
      ensures q != r && Live(s, q) ==> s.reservations[q].id != s.reservations[r].id
    {
      if q != r && Live(s, q) {
        assert if q < r then s.reservations[q].id != s.reservations[r].id
               else s.reservations[r].id != s.reservations[q].id;
      }
    }
  }

  lemma {:induction false} RunAccounts(steps: seq<Step>)
    ensures Accounted(Run(steps)) && SetAside(Run(steps))
  {
    if steps != [] {
      var front, last := steps[..|steps| - 1], steps[|steps| - 1];
      RunKeeps(front);
      RunAccounts(front);
      StepAccounts(Run(front), last);
      StepSetsAside(Run(front), last);
    }
  }

  /**
    In every run a process is registered by the second section of its own start and by
    nothing else, and leaves by its release or by an expiry that names it and by nothing else.
   */
  lemma RegisteredIff(steps: seq<Step>, step: Step, p: Process)
    ensures var s := Run(steps);
      Holds(Run(steps + [step]).tables, p) <==>
        (Holds(s.tables, p) && !Dismisses(s, step, p.token)) || Enters(s, step, p)
  {
    RunKeeps(steps);
    RunAccounts(steps);
    RunSnoc(steps, step);
    StepHolds(Run(steps), step, p);
  }

  lemma OnwardOn(a: System, b: System, c: System)
    requires Onward(a, b) && Onward(b, c)
    ensures |a.reservations| <= |c.reservations| && a.exited <= c.exited
    ensures forall r :: 0 <= r < |a.reservations| ==>
      && c.reservations[r].id == a.reservations[r].id && c.reservations[r].key == a.reservations[r].key
      && (Launched(a.reservations[r].stage) ==> Launched(c.reservations[r].stage))
  {
  }

  lemma {:induction false} LaunchedStays(steps: seq<Step>, more: seq<Step>, r: nat)
    requires r < |Run(steps).reservations| && Launched(Run(steps).reservations[r].stage)
    ensures var s, s' := Run(steps), Run(steps + more);
      && r < |s'.reservations| && ProcessOf(s', r) == ProcessOf(s, r)
      && Launched(s'.reservations[r].stage)
    decreases |more|
  {
    if more == [] {
      assert steps + more == steps;
    } else {
      var front, last := more[..|more| - 1], more[|more| - 1];
      assert steps + more == (steps + front) + [last];
      LaunchedStays(steps, front, r);
      RunKeeps(steps + front);
      RunSnoc(steps + front, last);
      StepOnward(Run(steps + front), last);
    }
  }

  /**
    A process that was ever registered stays registered, under its id and its key, for
    as long as it runs, whatever other starts, expiries and releases come.
   */
  lemma RunningStays(steps: seq<Step>, more: seq<Step>, r: nat)
    requires r < |Run(steps).reservations| && Launched(Run(steps).reservations[r].stage)
    requires r !in Run(steps + more).exited
    ensures var p := ProcessOf(Run(steps), r); var t := Run(steps + more).tables;
      Holds(t, p) && p.key in t.idempotent && t.idempotent[p.key] == p.id
  {
    LaunchedStays(steps, more, r);
    RunKeeps(steps + more);
    RunAccounts(steps + more);
  }

  /** The processes an expiry leaves. */
  function Retained(t: Tables, expired: set<nat>): set<string> {
    set id | id in t.states && t.states[id].token !in expired
  }

  /** A retained process has this key. */
  ghost predicate KeyKept(t: Tables, expired: set<nat>, key: string) {
    exists id :: RetainedFor(t, expired, id, key)
  }

  /** A reservation in flight has this id. */
  ghost predicate IdInFlight(s: System, id: string) {
    exists r :: 0 <= r < |s.reservations| && Live(s, r) && s.reservations[r].id == id
  }

  /** A reservation in flight has this key. */
  ghost predicate KeyInFlight(s: System, key: string) {
    exists r :: ReservedFor(s, r, key)
  }

  ghost function InFlightSet(s: System): set<nat> {
    set r: nat | r < |s.reservations| && Live(s, r)
  }

  /** The process filed under `id` stays and has this key. */
  predicate RetainedFor(t: Tables, expired: set<nat>, id: string, key: string) {
    id in Retained(t, expired) && t.states[id].key == key
  }

  /** The reservation is in flight and has this key. */
  predicate ReservedFor(s: System, r: nat, key: string) {
    r < |s.reservations| && Live(s, r) && s.reservations[r].key == key
  }

  /** What a start is answered that passes the checks before the lock and finds the manager open. */
  ghost predicate AnswersStart(s: System, request: Request, expired: set<nat>, answer: Answer) {
    if KeyKept(s.tables, expired, request.key) then
      && answer.Immediate? && answer.result.Ok? && answer.result.reused
      && RetainedFor(s.tables, expired, answer.result.id, request.key)
    else if KeyInFlight(s, request.key) then
      answer.Joins? && ReservedFor(s, answer.reservation, request.key)
    else if request.id in Retained(s.tables, expired) || IdInFlight(s, request.id) then
      answer == Immediate(Err(NotUnique))
    else if |Retained(s.tables, expired)| + |InFlightSet(s)| >= MAX_SESSIONS then
      answer == Immediate(Err(Exhausted))
    else
      answer == Owns(|s.reservations|)
  }

  lemma {:induction false} FlightSize(s: System, rs: set<nat>, keys: set<string>)
    requires Filed(s) && keys <= s.tables.starting.Keys
    requires forall r :: r in rs ==> r < |s.reservations| && Live(s, r) && s.reservations[r].key in keys
    requires forall key :: key in keys ==> s.tables.starting[key] in rs
    ensures |rs| == |keys|
    decreases rs
  {
    if rs == {} {
      assert keys == {} by {
        if key :| key in keys {
          assert s.tables.starting[key] in rs;
        }
      }
    } else {
      var r :| r in rs;
      FlightSize(s, rs - {r}, keys - {s.reservations[r].key});
    }
  }

  lemma KeptKeys(t: Tables, expired: set<nat>, key: string)
    requires Inverse(t)
    ensures key in Expire(t, expired).idempotent <==> KeyKept(t, expired, key)
    ensures key in Expire(t, expired).idempotent ==>
      RetainedFor(t, expired, t.idempotent[key], key)
  {
    if KeyKept(t, expired, key) {
      var id :| RetainedFor(t, expired, id, key);
      assert t.idempotent[key] == id;
    }
    if key in Expire(t, expired).idempotent {
      assert RetainedFor(t, expired, t.idempotent[key], key);
    }
  }

  lemma FlightKeys(s: System, id: string, key: string)
    requires Filed(s) && SetAside(s)
    ensures key in s.tables.starting <==> KeyInFlight(s, key)
    ensures key in s.tables.starting ==> ReservedFor(s, s.tables.starting[key], key)
    ensures id in s.tables.startingIds <==> IdInFlight(s, id)
    ensures |s.tables.starting| == |InFlightSet(s)|
  {
    if key in s.tables.starting {
      assert ReservedFor(s, s.tables.starting[key], key);
    }
    FlightSize(s, InFlightSet(s), s.tables.starting.Keys);
  }

  lemma AnswersAdmission(s: System, request: Request, expired: set<nat>)
    requires var t, key := Expire(s.tables, expired), request.key;
      && !t.closing && t.states.Keys == Retained(s.tables, expired)
      && (key in t.idempotent <==> KeyKept(s.tables, expired, key))
      && (key in t.idempotent ==> RetainedFor(s.tables, expired, t.idempotent[key], key))
      && (key in t.starting <==> KeyInFlight(s, key))
      && (key in t.starting ==> ReservedFor(s, t.starting[key], key))
      && (request.id in t.startingIds <==> IdInFlight(s, request.id))
      && |t.starting| == |InFlightSet(s)|
    ensures AnswersStart(s, request, expired,
              AnswerTo(Admit(Expire(s.tables, expired), request.id, request.key), |s.reservations|))
  {
  }

  /** The state after a start that passes the checks before the lock and finds the manager open. */
  ghost predicate StartTaken(s: System, request: Request, expired: set<nat>, s': System) {
    && |s'.calls| == |s.calls| + 1 && s'.calls[..|s.calls|] == s.calls
    && AnswersStart(s, request, expired, s'.calls[|s.calls|].answer)
    && s'.reservations == s.reservations + (if s'.calls[|s.calls|].answer.Owns?
                                            then [Reservation(request.id, request.key, Launching)] else [])
    && s'.tables.states.Keys == Retained(s.tables, expired)
  }

  lemma BeginTaken(s: System, request: Request, expired: set<nat>)
    requires Inverse(s.tables) && Filed(s) && SetAside(s) && !s.tables.closing && Precheck(request).None?
    ensures StartTaken(s, request, expired, BeginCall(s, request, expired))
  {
    KeptKeys(s.tables, expired, request.key);
    FlightKeys(s, request.id, request.key);
    assert Expire(s.tables, expired).states.Keys == Retained(s.tables, expired);
    AnswersAdmission(s, request, expired);
    AnswerGiven(s, request, expired);
  }

  lemma BeginAdds(s: System, request: Request, expired: set<nat>)
    requires !s.tables.closing && Precheck(request).None?
    ensures var s', a := BeginCall(s, request, expired), Admit(Expire(s.tables, expired), request.id, request.key);
      && |s'.calls| == |s.calls| + 1 && s'.calls[..|s.calls|] == s.calls
      && s'.calls[|s.calls|].answer == AnswerTo(a, |s.reservations|)
      && s'.reservations == s.reservations
                            + (if a.Admitted? then [Reservation(request.id, request.key, Launching)] else [])
  {
    BeginIsAdmission(s, request, expired);
    AdmissionAdds(s.(tables := Expire(s.tables, expired)), request.id, request.key);
  }

  lemma AnswerGiven(s: System, request: Request, expired: set<nat>)
    requires !s.tables.closing && Precheck(request).None?
    requires AnswersStart(s, request, expired,
               AnswerTo(Admit(Expire(s.tables, expired), request.id, request.key), |s.reservations|))
    ensures StartTaken(s, request, expired, BeginCall(s, request, expired))
  {
    BeginAdds(s, request, expired);
    BeginStates(s, request, expired);
    assert Expire(s.tables, expired).states.Keys == Retained(s.tables, expired);
  }

  /**
    Every start is answered by what is registered and in flight once the expired processes
    are gone: with the process of its key, with the reservation of its key, with a refusal
    if its id is taken or 64 sessions are held, and otherwise with a reservation of its own.
   */
  lemma StartAnswered(steps: seq<Step>, request: Request, expired: set<nat>)
    requires Precheck(request).None? && !Run(steps).tables.closing && expired <= Run(steps).exited
    ensures StartTaken(Run(steps), request, expired, Run(steps + [Begin(request, expired)]))
  {
    RunKeeps(steps);
    RunAccounts(steps);
    BeginTaken(Run(steps), request, expired);
    RunSnoc(steps, Begin(request, expired));
  }

  // ----- What a reservation ends in -----

  /** Why a reservation fails: its launch failed with this code, or the manager was closing. */
  predicate CauseOf(steps: seq<Step>, s: System, r: nat, error: Error) {
    if error.LaunchFailed? then LaunchFails(r, error.code) in steps else error == ShuttingDown && s.tables.closing
  }

  predicate Caused(steps: seq<Step>, s: System, r: nat)
    requires r < |s.reservations|
  {
    match s.reservations[r].stage
    case Failed(error) => CauseOf(steps, s, r, error)
    case Settled(Err(error)) => CauseOf(steps, s, r, error)
    case Settled(Ok(id, reused)) => id == s.reservations[r].id && !reused && Registers(r) in steps
    case Registered => Registers(r) in steps
    case Adopted(_) => false
    case Launching => true
  }

  lemma StepCaused(steps: seq<Step>, s: System, step: Step, r: nat)
    requires Invariant(s) && (r < |s.reservations| ==> Caused(steps, s, r)) && r < |Next(s, step).reservations|
    ensures Caused(steps + [step], Next(s, step), r)
  {
    if Enabled(s, step) {
      match step
      case Begin(request, expired) => BeginCaused(steps, s, request, expired, r);
      case Registers(q) =>
        if !s.tables.closing {
          RegisterAdmits(s, q);
        }
      case _ =>
    }
  }

  lemma BeginCaused(steps: seq<Step>, s: System, request: Request, expired: set<nat>, r: nat)
    requires (r < |s.reservations| ==> Caused(steps, s, r)) && r < |BeginCall(s, request, expired).reservations|
    ensures Caused(steps + [Begin(request, expired)], BeginCall(s, request, expired), r)
  {
    BeginReservations(s, request, expired);
    BeginCloses(s, request, expired);
  }

  lemma BeginCloses(s: System, request: Request, expired: set<nat>)
    ensures BeginCall(s, request, expired).tables.closing == s.tables.closing
  {
  }

  /**
    How every reservation ends: with its own process, which it registered, or with the
    error of its own launch, or refused by closing.
   */
  lemma {:induction false} EndHasCause(steps: seq<Step>, r: nat)
    requires r < |Run(steps).reservations|
    ensures Caused(steps, Run(steps), r)
  {
    if steps != [] {
      var front, last := steps[..|steps| - 1], steps[|steps| - 1];
      assert steps == front + [last];
      RunKeeps(front);
      if r < |Run(front).reservations| {
        EndHasCause(front, r);
      }
      StepCaused(front, Run(front), last, r);
    }
  }

  /** Of all starts that get a process, exactly the one whose reservation launched it is told that it is new. */
  lemma ReusedUnlessOwner(steps: seq<Step>, c: nat)
    requires var s := Run(steps); c < |s.calls| && Outcome(s, s.calls[c]).Some? && Outcome(s, s.calls[c]).value.Ok?
    ensures var s := Run(steps); Outcome(s, s.calls[c]).value.reused <==> !s.calls[c].answer.Owns?
  {
    var s := Run(steps);
    match s.calls[c].answer
    case Owns(r) => EndHasCause(steps, r);
    case Joins(r) =>
    case Immediate(result) =>
      RunReuses(steps);
      assert Reuses(s.calls[c]);
  }

  /** A call answered at once with a process is told of reuse. */
  predicate Reuses(c: Call) {
    c.answer.Immediate? && c.answer.result.Ok? ==> c.answer.result.reused
  }

  ghost predicate AllReuse(s: System) {
    forall c :: 0 <= c < |s.calls| ==> Reuses(s.calls[c])
  }

  lemma StepReuses(s: System, step: Step)
    requires AllReuse(s)
    ensures AllReuse(Next(s, step))
  {
    NewCallReuses(s, step);
    var s' := Next(s, step);
    forall c | 0 <= c < |s'.calls| ensures Reuses(s'.calls[c]) {
      assert c < |s.calls| ==> s'.calls[c] == s'.calls[..|s.calls|][c];
    }
  }

  lemma NewCallReuses(s: System, step: Step)
    ensures var s' := Next(s, step);
      && |s.calls| <= |s'.calls| <= |s.calls| + 1 && s'.calls[..|s.calls|] == s.calls
      && (|s'.calls| > |s.calls| ==> Reuses(s'.calls[|s.calls|]))
  {
  }

  lemma {:induction false} RunReuses(steps: seq<Step>)
    ensures AllReuse(Run(steps))
  {
    if steps != [] {
      RunReuses(steps[..|steps| - 1]);
      StepReuses(Run(steps[..|steps| - 1]), steps[|steps| - 1]);
    }
  }

  lemma StepCloses(s: System, step: Step)
    ensures Next(s, step).tables.closing == (s.tables.closing || step.Closes?)
  {
    if Enabled(s, step) && step.Begin? {
      BeginCloses(s, step.request, step.expired);
    }
  }

  /** The manager is closing exactly since it was told to close. */
  lemma {:induction false} ClosingIff(steps: seq<Step>)
    ensures Run(steps).tables.closing <==> Closes in steps
  {
    if steps != [] {
      var front, last := steps[..|steps| - 1], steps[|steps| - 1];
      assert steps == front + [last];
      ClosingIff(front);
      StepCloses(Run(front), last);
    }
  }
}
