// The ladder as a behaviour of the run protocol: what one uninterrupted dispatch does is a run of the
// protocol's actions, and so is the rest of an undisturbed life, up to the handoff.
module Dispatching {
  import opened Wrappers
  import opened Domain
  import opened Liveness
  import opened Reconcile
  import opened RunProtocol
  import opened Verdicts
  import opened ControlPlane

  // ---- refusals ------------------------------------------------------------------------------------

  // The dispatcher's three refusals end an active run, in exactly the state refused with, and the ladder.
  lemma RefusalsAreFinal(rec: Rec, to: ExecState)
    requires IsActive(rec.state) && GateRefusal(to)
    ensures rec.ladder == AtGates ==>
      DispatcherStep(rec, GateRefuse(to)) == rec.(state := to, ladder := Gone) && IsTerminal(to)
    ensures rec.ladder == AtConflict || rec.ladder == AtDriftRefusal ==>
      DispatcherStep(rec, RefuseLease) == rec.(state := LeaseRefused, ladder := Gone) && IsTerminal(LeaseRefused)
    ensures rec.ladder == AtSpawn ==>
      DispatcherStep(rec, SpawnFail) == rec.(state := WorkerFailed, ladder := Gone) && IsTerminal(WorkerFailed)
  {
  }

  // The states a gate may refuse in, and those a worker may fail in.
  lemma RefusalsAreNamed(to: ExecState)
    ensures GateRefusal(to) <==> to in {OwnerRequired, AuthorityRefused, PreflightRefused, PermissionRefused}
    ensures WorkerFailure(to) <==> to in {WorkerFailed, ResultInvalid, EvidenceInvalid}
  {
  }

  // A run that is over already keeps its own verdict.
  lemma RefusalsRewriteNothing(rec: Rec, to: ExecState)
    requires IsTerminal(rec.state) && GateRefusal(to)
    ensures DispatcherStep(rec, GateRefuse(to)).state == rec.state
    ensures DispatcherStep(rec, RefuseLease).state == rec.state
    ensures DispatcherStep(rec, SpawnFail).state == rec.state
  {
  }

  // Where the author of a step must stand for it to do anything.
  predicate OnItsRung(rec: Rec, step: Step) {
    match step
    case MarkPreflight => rec.ladder == AtPreflight
    case GateRefuse(to) => rec.ladder == AtGates && GateRefusal(to)
    case GatePass => rec.ladder == AtGates
    case MarkLeased => rec.ladder == AtLeasedMark
    case DriftClean => rec.ladder == AtDrift
    case DriftFound => rec.ladder == AtDrift
    case RefuseLease => rec.ladder in {AtConflict, AtDriftRefusal}
    case MarkDispatched => rec.ladder == AtDispatch
    case SpawnOk(pid, _) => rec.ladder == AtSpawn && pid > 0
    case SpawnFail => rec.ladder == AtSpawn
    case RecordSpawn => rec.ladder == AtRecord
    case DispatcherDies => true
    case WBootFail => rec.proc.stage == Booted
    case WLock => rec.proc.stage == Booted
    case WIdentify(_) => rec.proc.stage == Locked
    case WDrift => rec.proc.stage == Identified
    case WRunning => rec.proc.stage == Identified
    case WChildStart => rec.proc.stage == Cleared
    case WChildNever => rec.proc.stage == Cleared
    case WChildEnd => rec.proc.stage == ChildUp
    case WReceipt(_) => rec.proc.stage in {ChildEnded, ChildNever}
    case WFail(to) => rec.proc.stage in {ReceiptedRan, ReceiptedNever, Parsed, Evidenced} && WorkerFailure(to)
    case WResult => rec.proc.stage == ReceiptedRan
    case WEvidence => rec.proc.stage == Parsed
    case WHandoff => rec.proc.stage == Evidenced
    case WRaise => rec.proc.stage in {Identified, Cleared, ChildUp, ChildEnded, ChildNever, ReceiptedRan,
                                      ReceiptedNever, Parsed, Evidenced}
    case WReleaseLease => rec.proc.stage == Finishing
    case WExit => rec.proc.stage == Unleased
    case WCrash => true
    case _ => false
  }

  lemma OffItsRungADispatcherDoesNothing(rec: Rec, step: Step)
    requires !IsWorkerStep(step) && !IsOutsiderStep(step) && !OnItsRung(rec, step)
    ensures Local(rec, step) == rec
  {
  }

  lemma OffItsStageAWorkerDoesNothing(rec: Rec, step: Step)
    requires IsWorkerStep(step) && (!OnItsRung(rec, step) || !rec.proc.alive)
    ensures Local(rec, step) == rec
  {
  }

  // The guarded rungs: on, or the ladder stops and the run keeps its state.
  lemma GuardedRungsAdvance(rec: Rec)
    ensures rec.ladder == AtPreflight ==>
      DispatcherStep(rec, MarkPreflight) ==
      if rec.state == Created then rec.(state := Preflight, ladder := AtGates) else rec.(ladder := Gone)
    ensures rec.ladder == AtLeasedMark ==>
      DispatcherStep(rec, MarkLeased) ==
      if rec.state == Preflight then rec.(state := Leased, ladder := AtDrift) else rec.(ladder := Gone)
    ensures rec.ladder == AtDispatch ==>
      DispatcherStep(rec, MarkDispatched) ==
      if rec.state in {Preflight, Leased} then rec.(state := Dispatched, ladder := AtSpawn) else rec.(ladder := Gone)
    ensures DispatcherStep(rec, DispatcherDies) == rec.(ladder := Gone)
  {
  }

  // A worker's own marks: its identity with the creation time it could read, and what became of its child.
  lemma WorkerMarks(rec: Rec, readable: bool, code: Option<int>)
    ensures rec.proc.stage == Locked ==>
      WorkerStep(rec, WIdentify(readable)) ==
      At(rec, Identified).(trail := rec.trail.(row := true, pid := Some(rec.proc.pid),
                                               stamp := if readable then Some(rec.proc.stamp) else None))
    ensures rec.proc.stage == Cleared ==> WorkerStep(rec, WChildNever) == At(rec, ChildNever)
    ensures rec.proc.stage == ChildNever ==>
      WorkerStep(rec, WReceipt(code)) ==
      At(rec, ReceiptedNever).(trail := rec.trail.(receipt := Some(Receipt(false, code))))
    ensures WorkerStep(rec, WCrash) == rec.(proc := rec.proc.(alive := false))
  {
  }

  // What others do to a run: a refusal ends it if it is active, a delivery follows a ready handoff, a reading
  // only notes DEAD, and a lease goes from a dead holder of an ended run.
  lemma OutsidersAct(rec: Rec, to: ExecState, rd: Reading)
    ensures OutsiderStep(rec, Outside(to)) ==
      if (IsActive(rec.state) && IsRefusal(to)) || (rec.state == HandoffReady && to == HandedToOrchestrator)
      then rec.(state := to) else rec
    ensures OutsiderStep(rec, ObserveDead(rd)) ==
      if Honest(rec, rd) && Observe(rd, rec.trail.pid, rec.trail.stamp) == Dead
      then rec.(trail := rec.trail.(seenDead := true)) else rec
    ensures OutsiderStep(rec, Step.Reclaim) ==
      if rec.lease == Held && rec.trail.seenDead && IsTerminal(rec.state) then rec.(lease := Released) else rec
  {
  }

  // ---- a dispatch is a run -------------------------------------------------------------------------

  // The steps after the worktree is the run's: drift, then the spawn.
  function Upwards(drift: bool, spawn: bool, spawned: Option<(int, Stamp)>): seq<Step> {
    if drift then [DriftFound, RefuseLease]
    else if !spawn then [DriftClean]
    else [DriftClean] +
         ([MarkDispatched] +
          if spawned.None? then [SpawnFail] else [SpawnOk(spawned.value.0, spawned.value.1), RecordSpawn])
  }

  lemma WalkOne(rec: Rec, a: Step)
    ensures Walk(rec, [a]) == Local(rec, a)
  {
    assert [a][1..] == [];
  }

  lemma WalkTwo(rec: Rec, a: Step, mid: Rec, b: Step)
    requires Local(rec, a) == mid
    ensures Walk(rec, [a, b]) == Local(mid, b)
  {
    assert [a, b][1..] == [b];
    WalkOne(mid, b);
  }

  // At drift, the lease in hand or none needed.
  predicate AtTheWorktree(rec: Rec) {
    rec.ladder == AtDrift && (rec.state == Preflight || rec.state == Leased) && rec.proc.stage == NotSpawned
  }

  function Climbed(rec: Rec, drift: bool, spawn: bool, spawned: Option<(int, Stamp)>): Rec {
    if drift then rec.(state := LeaseRefused, lease := Unhold(rec.lease), ladder := Gone)
    else if !spawn then rec.(ladder := AtDispatch)
    else if spawned.None? then rec.(state := WorkerFailed, ladder := Gone)
    else rec.(state := Dispatched, ladder := Gone, proc := Proc(Booted, true, spawned.value.0, spawned.value.1),
              trail := rec.trail.(row := true))
  }

  lemma DriftActs(rec: Rec)
    requires AtTheWorktree(rec)
    ensures Local(rec, DriftFound) == rec.(lease := Unhold(rec.lease), ladder := AtDriftRefusal)
  {
  }

  lemma DriftRefuses(rec: Rec)
    requires AtTheWorktree(rec)
    ensures Walk(rec, [DriftFound, RefuseLease]) ==
            rec.(state := LeaseRefused, lease := Unhold(rec.lease), ladder := Gone)
  {
    var found := rec.(lease := Unhold(rec.lease), ladder := AtDriftRefusal);
    DriftActs(rec);
    WalkTwo(rec, DriftFound, found, RefuseLease);
  }

  lemma SpawnsAndRecords(rec: Rec, pid: int, stamp: Stamp)
    requires rec.ladder == AtSpawn && pid > 0
    ensures Walk(rec, [SpawnOk(pid, stamp), RecordSpawn]) ==
            rec.(ladder := Gone, proc := Proc(Booted, true, pid, stamp), trail := rec.trail.(row := true))
  {
    var booted := rec.(proc := Proc(Booted, true, pid, stamp), ladder := AtRecord);
    assert Local(rec, SpawnOk(pid, stamp)) == booted;
    WalkTwo(rec, SpawnOk(pid, stamp), booted, RecordSpawn);
  }

  // From the rung before DISPATCHED.
  lemma LaunchClimbs(rec: Rec, spawned: Option<(int, Stamp)>)
    requires rec.ladder == AtDispatch && (rec.state == Preflight || rec.state == Leased)
    requires spawned.Some? ==> spawned.value.0 > 0
    ensures var last := if spawned.None? then [SpawnFail]
                        else [SpawnOk(spawned.value.0, spawned.value.1), RecordSpawn];
      Walk(rec, [MarkDispatched] + last) == Climbed(rec, false, true, spawned)
  {
    var marked := rec.(state := Dispatched, ladder := AtSpawn);
    assert Local(rec, MarkDispatched) == marked;
    if spawned.None? {
      WalkOne(marked, SpawnFail);
      WalkCons(rec, MarkDispatched, marked, [SpawnFail]);
    } else {
      SpawnsAndRecords(marked, spawned.value.0, spawned.value.1);
      WalkCons(rec, MarkDispatched, marked, [SpawnOk(spawned.value.0, spawned.value.1), RecordSpawn]);
    }
  }

  lemma UpwardsClimbs(rec: Rec, drift: bool, spawn: bool, spawned: Option<(int, Stamp)>)
    requires AtTheWorktree(rec) && (spawned.Some? ==> spawned.value.0 > 0)
    ensures Walk(rec, Upwards(drift, spawn, spawned)) == Climbed(rec, drift, spawn, spawned)
  {
    var clean := rec.(ladder := AtDispatch);
    if drift {
      DriftRefuses(rec);
    } else if !spawn {
      WalkOne(rec, DriftClean);
    } else {
      var last := if spawned.None? then [SpawnFail] else [SpawnOk(spawned.value.0, spawned.value.1), RecordSpawn];
      LaunchClimbs(clean, spawned);
      WalkCons(rec, DriftClean, clean, [MarkDispatched] + last);
    }
  }

  lemma AdmitRuns(c: Config, rid: RunId, id: Ident)
    requires rid !in c && !Known(c, id.key)
    ensures Run(Local, c, [Admit(rid, id.key, id.path, id.needsLease, id.isWrite)]) ==
            c[rid := Join(NewRows(id), Facts(AtPreflight, NOBODY, 0, false))]
  {
    assert [Admit(rid, id.key, id.path, id.needsLease, id.isWrite)][..0] == [];
    var rec := Join(NewRows(id), Facts(AtPreflight, NOBODY, 0, false));
    assert rec == Fresh(id.key, id.path, id.needsLease, id.isWrite);
  }

  lemma AcquireActs(c: Config, rid: RunId, taken: bool)
    requires rid in c && c[rid].ladder == AtLease && (taken <==> Conflict(c, rid))
    ensures Run(Local, c, [Acquire(rid)]) ==
            c[rid := if taken then c[rid].(ladder := AtConflict) else c[rid].(lease := Held, ladder := AtLeasedMark)]
  {
    assert [Acquire(rid)][..0] == [];
  }

  lemma ConflictIsTaken(c: Config, rid: RunId, rec: Rec)
    requires rid !in c
    ensures Conflict(c[rid := rec], rid) <==> PathHeld(c, rec.id.path)
  {
    var d := c[rid := rec];
    if Conflict(d, rid) {
      var o :| o in d && o != rid && d[o].lease == Held && d[o].id.path == d[rid].id.path;
      assert o in c && c[o] == d[o];
    }
    if PathHeld(c, rec.id.path) {
      var o :| o in c && c[o].lease == Held && c[o].id.path == rec.id.path;
      assert o in d && o != rid && d[o] == c[o];
    }
  }

  // Taking the lease, or finding it taken, and then the steps on.
  lemma LeaseThenSteps(c: Config, rid: RunId, rec: Rec, taken: bool, steps: seq<Step>)
    requires rid !in c && rec.ladder == AtLease && (taken <==> PathHeld(c, rec.id.path))
    ensures Run(Local, c[rid := rec], [Acquire(rid)] + Does(rid, steps)) ==
            c[rid := Walk(if taken then rec.(ladder := AtConflict) else rec.(lease := Held, ladder := AtLeasedMark),
                          steps)]
  {
    var d := c[rid := rec];
    var next := if taken then rec.(ladder := AtConflict) else rec.(lease := Held, ladder := AtLeasedMark);
    ConflictIsTaken(c, rid, rec);
    AcquireActs(d, rid, taken);
    Overwrite(c, rid, rec, next);
    RunConcat(Local, d, [Acquire(rid)], Does(rid, steps));
    WalkRuns(c[rid := next], rid, steps);
    Overwrite(c, rid, next, Walk(next, steps));
  }

  lemma LeasedClimbs(rec: Rec, drift: bool, spawn: bool, spawned: Option<(int, Stamp)>)
    requires rec.ladder == AtLeasedMark && rec.state == Preflight && rec.proc.stage == NotSpawned
    requires spawned.Some? ==> spawned.value.0 > 0
    ensures Walk(rec, [MarkLeased] + Upwards(drift, spawn, spawned)) ==
            Climbed(rec.(state := Leased, ladder := AtDrift), drift, spawn, spawned)
  {
    var held := rec.(state := Leased, ladder := AtDrift);
    WalkCons(rec, MarkLeased, held, Upwards(drift, spawn, spawned));
    UpwardsClimbs(held, drift, spawn, spawned);
  }

  lemma ConflictRefuses(rec: Rec)
    requires rec.ladder == AtConflict && IsActive(rec.state)
    ensures Walk(rec, [RefuseLease]) == rec.(state := LeaseRefused, ladder := Gone)
  {
    WalkOne(rec, RefuseLease);
  }

  // Once the worktree question is settled: refused for a conflict, or the lease is held, and on.
  lemma FromTheLease(c: Config, rid: RunId, rec: Rec, taken: bool, drift: bool, spawn: bool,
                     spawned: Option<(int, Stamp)>)
    requires rid !in c && rec.ladder == AtLease && rec.state == Preflight && rec.proc.stage == NotSpawned
    requires (taken <==> PathHeld(c, rec.id.path)) && (spawned.Some? ==> spawned.value.0 > 0)
    ensures var steps := if taken then [RefuseLease] else [MarkLeased] + Upwards(drift, spawn, spawned);
      Run(Local, c[rid := rec], [Acquire(rid)] + Does(rid, steps)) ==
      c[rid := if taken then rec.(state := LeaseRefused, ladder := Gone)
               else Climbed(rec.(lease := Held, state := Leased, ladder := AtDrift), drift, spawn, spawned)]
  {
    var steps := if taken then [RefuseLease] else [MarkLeased] + Upwards(drift, spawn, spawned);
    LeaseThenSteps(c, rid, rec, taken, steps);
    if taken {
      ConflictRefuses(rec.(ladder := AtConflict));
    } else {
      LeasedClimbs(rec.(lease := Held, ladder := AtLeasedMark), drift, spawn, spawned);
    }
  }

  // The run's record when its dispatcher has passed the gates.
  function PastTheGates(id: Ident): Rec {
    Join(NewRows(id), Facts(AtPreflight, NOBODY, 0, false)).(state := Preflight,
                                                             ladder := if id.needsLease then AtLease else AtDrift)
  }

  // What the ladder's closed form says, as records of the protocol.
  lemma PlanIsClimb(taken: bool, id: Ident, gate: Option<ExecState>, drift: bool, spawn: bool,
                    spawned: Option<(int, Stamp)>)
    ensures var plan, rec := Plan(taken, id, gate, drift, spawn, spawned), PastTheGates(id);
      Join(plan.rows, plan.facts) ==
        if gate.Some? then rec.(state := gate.value, ladder := Gone)
        else if !id.needsLease then Climbed(rec, drift, spawn, spawned)
        else if taken then rec.(state := LeaseRefused, ladder := Gone)
        else Climbed(rec.(lease := Held, state := Leased, ladder := AtDrift), drift, spawn, spawned)
  {
  }

  lemma GatesClimb(id: Ident, gate: Option<ExecState>)
    requires gate.Some? ==> GateRefusal(gate.value)
    ensures var first := Join(NewRows(id), Facts(AtPreflight, NOBODY, 0, false));
      Walk(first, [MarkPreflight, if gate.Some? then GateRefuse(gate.value) else GatePass]) ==
      if gate.Some? then PastTheGates(id).(state := gate.value, ladder := Gone) else PastTheGates(id)
  {
    var first := Join(NewRows(id), Facts(AtPreflight, NOBODY, 0, false));
    var marked := first.(state := Preflight, ladder := AtGates);
    assert Local(first, MarkPreflight) == marked;
    WalkTwo(first, MarkPreflight, marked, if gate.Some? then GateRefuse(gate.value) else GatePass);
  }

  lemma ThroughTheGates(c: Config, rid: RunId, id: Ident, steps: seq<Step>, rec: Rec)
    requires rid !in c && !Known(c, id.key)
    requires Walk(Join(NewRows(id), Facts(AtPreflight, NOBODY, 0, false)), steps) == rec
    ensures Run(Local, c, [Admit(rid, id.key, id.path, id.needsLease, id.isWrite)] + Does(rid, steps)) == c[rid := rec]
  {
    var first := Join(NewRows(id), Facts(AtPreflight, NOBODY, 0, false));
    AdmitRuns(c, rid, id);
    RunConcat(Local, c, [Admit(rid, id.key, id.path, id.needsLease, id.isWrite)], Does(rid, steps));
    WalkRuns(c[rid := first], rid, steps);
    Overwrite(c, rid, first, rec);
  }

  // The rest of a dispatch that passed the gates.
  function Rest(rid: RunId, id: Ident, taken: bool, drift: bool, spawn: bool, spawned: Option<(int, Stamp)>):
      seq<Action>
  {
    if !id.needsLease then Does(rid, Upwards(drift, spawn, spawned))
    else [Acquire(rid)] +
         if taken then Does(rid, [RefuseLease]) else Does(rid, [MarkLeased] + Upwards(drift, spawn, spawned))
  }

  lemma RestRuns(c: Config, rid: RunId, id: Ident, drift: bool, spawn: bool, spawned: Option<(int, Stamp)>)
    requires rid !in c && (spawned.Some? ==> spawned.value.0 > 0)
    ensures var taken, plan := PathHeld(c, id.path), Plan(PathHeld(c, id.path), id, None, drift, spawn, spawned);
      Run(Local, c[rid := PastTheGates(id)], Rest(rid, id, taken, drift, spawn, spawned)) ==
      c[rid := Join(plan.rows, plan.facts)]
  {
    var rec := PastTheGates(id);
    PlanIsClimb(PathHeld(c, id.path), id, None, drift, spawn, spawned);
    if id.needsLease {
      FromTheLease(c, rid, rec, PathHeld(c, id.path), drift, spawn, spawned);
    } else {
      WalkRuns(c[rid := rec], rid, Upwards(drift, spawn, spawned));
      UpwardsClimbs(rec, drift, spawn, spawned);
      Overwrite(c, rid, rec, Climbed(rec, drift, spawn, spawned));
    }
  }

  // One dispatch, action by action: admission, the gates, the lease if one is needed, drift, the spawn.
  function Actions(rid: RunId, id: Ident, taken: bool, gate: Option<ExecState>, drift: bool, spawn: bool,
                   spawned: Option<(int, Stamp)>): seq<Action>
  {
    var admit := [Admit(rid, id.key, id.path, id.needsLease, id.isWrite)];
    if gate.Some? then admit + Does(rid, [MarkPreflight, GateRefuse(gate.value)])
    else admit + Does(rid, [MarkPreflight, GatePass]) + Rest(rid, id, taken, drift, spawn, spawned)
  }

  // A DISPATCH IS A RUN. An uninterrupted dispatch of a new key leaves exactly what this run of the protocol's
  // actions leaves, in any configuration: so every theorem about behaviours covers it.
  lemma {:induction false} DispatchIsRun(c: Config, rid: RunId, id: Ident, gate: Option<ExecState>, drift: bool,
                                         spawn: bool, spawned: Option<(int, Stamp)>)
    requires rid !in c && !Known(c, id.key) && (gate.Some? ==> GateRefusal(gate.value))
    requires spawned.Some? ==> spawned.value.0 > 0
    ensures var plan := Plan(PathHeld(c, id.path), id, gate, drift, spawn, spawned);
      Run(Local, c, Actions(rid, id, PathHeld(c, id.path), gate, drift, spawn, spawned)) ==
      c[rid := Join(plan.rows, plan.facts)]
  {
    GatesClimb(id, gate);
    if gate.Some? {
      PlanIsClimb(PathHeld(c, id.path), id, gate, drift, spawn, spawned);
      ThroughTheGates(c, rid, id, [MarkPreflight, GateRefuse(gate.value)],
                      PastTheGates(id).(state := gate.value, ladder := Gone));
    } else {
      var admit := [Admit(rid, id.key, id.path, id.needsLease, id.isWrite)];
      ThroughTheGates(c, rid, id, [MarkPreflight, GatePass], PastTheGates(id));
      RestRuns(c, rid, id, drift, spawn, spawned);
      RunConcat(Local, c, admit + Does(rid, [MarkPreflight, GatePass]),
                Rest(rid, id, PathHeld(c, id.path), drift, spawn, spawned));
    }
  }

  // ---- an undisturbed life -------------------------------------------------------------------------

  // The worker's guarded steps: from the state each expects to the next, or to its cleanup with no word on the
  // run when somebody else has moved it.
  lemma GuardedStepsAdvance(rec: Rec)
    ensures rec.proc.stage == Identified ==>
      WorkerStep(rec, WRunning) == if rec.state == Dispatched then At(rec.(state := Running), Cleared)
                                   else At(rec, Finishing)
    ensures rec.proc.stage == ReceiptedRan ==>
      WorkerStep(rec, WResult) == if rec.state == Running then At(rec.(state := ResultReceived), Parsed)
                                  else At(rec, Finishing)
    ensures rec.proc.stage == Parsed ==>
      WorkerStep(rec, WEvidence) == if rec.state == ResultReceived then At(rec.(state := EvidenceCollected), Evidenced)
                                    else At(rec, Finishing)
    ensures rec.proc.stage == Evidenced ==>
      WorkerStep(rec, WHandoff) == if rec.state == EvidenceCollected then At(rec.(state := HandoffReady), Finishing)
                                   else At(rec, Finishing)
  {
  }

  // How a worker fails an active run: in exactly the state it names. Only a boot failure leaves the lease held.
  lemma WorkerFailuresAreNamed(rec: Rec, to: ExecState)
    requires IsActive(rec.state) && WorkerFailure(to)
    ensures rec.proc.stage == Booted ==> WorkerStep(rec, WBootFail) == Die(rec.(state := WorkerFailed))
    ensures rec.proc.stage == Identified ==> WorkerStep(rec, WDrift) == At(rec.(state := LeaseRefused), Finishing)
    ensures AfterReceipt(rec.proc.stage) ==> WorkerStep(rec, WFail(to)) == At(rec.(state := to), Finishing)
    ensures InExecute(rec.proc.stage) ==> WorkerStep(rec, WRaise) == At(rec, Finishing)
    ensures rec.proc.stage == Finishing ==>
      WorkerStep(rec, WReleaseLease) == At(rec.(lease := Unhold(rec.lease)), Unleased)
  {
  }

  lemma {:induction false} WalkConcat(rec: Rec, xs: seq<Step>, ys: seq<Step>)
    ensures Walk(rec, xs + ys) == Walk(Walk(rec, xs), ys)
    decreases xs
  {
    if xs == [] {
      assert xs + ys == ys;
    } else {
      assert (xs + ys)[0] == xs[0] && (xs + ys)[1..] == xs[1..] + ys;
      WalkConcat(Local(rec, xs[0]), xs[1..], ys);
    }
  }

  lemma WalkThree(rec: Rec, a: Step, m: Rec, b: Step, n: Rec, c: Step)
    requires Local(rec, a) == m && Local(m, b) == n
    ensures Walk(rec, [a, b, c]) == Local(n, c)
  {
    assert [a, b, c][1..] == [b, c];
    WalkTwo(m, b, n, c);
  }

  const BOOTS := [WLock, WIdentify(true), WRunning]
  const HANDS_OVER := [WResult, WEvidence, WHandoff]
  const LEAVES := [WReleaseLease, WExit]

  function RunsChild(code: Option<int>): seq<Step> {
    [WChildStart, WChildEnd, WReceipt(code)]
  }

  predicate LiveAt(rec: Rec, stage: Stage) {
    rec.proc.stage == stage && rec.proc.alive
  }

  lemma Locks(rec: Rec)
    requires LiveAt(rec, Booted)
    ensures Local(rec, WLock) == At(rec, Locked)
  {
  }

  lemma Identifies(rec: Rec)
    requires LiveAt(rec, Locked)
    ensures Local(rec, WIdentify(true)) ==
            At(rec, Identified).(trail := rec.trail.(row := true, pid := Some(rec.proc.pid),
                                                     stamp := Some(rec.proc.stamp)))
  {
  }

  lemma Clears(rec: Rec)
    requires LiveAt(rec, Identified) && rec.state == Dispatched
    ensures Local(rec, WRunning) == At(rec, Cleared).(state := Running)
  {
  }

  lemma BootsUp(rec: Rec)
    requires LiveAt(rec, Booted) && rec.state == Dispatched
    ensures Walk(rec, BOOTS) ==
            At(rec, Cleared).(state := Running, trail := rec.trail.(row := true, pid := Some(rec.proc.pid),
                                                                    stamp := Some(rec.proc.stamp)))
  {
    var trail := rec.trail.(row := true, pid := Some(rec.proc.pid), stamp := Some(rec.proc.stamp));
    var named := At(rec, Identified).(trail := trail);
    Locks(rec);
    Identifies(At(rec, Locked));
    Clears(named);
    WalkThree(rec, WLock, At(rec, Locked), WIdentify(true), named, WRunning);
  }

  lemma WorkerActs(rec: Rec, step: Step, next: Rec)
    requires rec.proc.alive && IsWorkerStep(step) && WorkerStep(rec, step) == next
    ensures Local(rec, step) == next
  {
  }

  lemma ChildStarts(rec: Rec)
    requires LiveAt(rec, Cleared)
    ensures Local(rec, WChildStart) ==
            At(rec, ChildUp).(trail := rec.trail.(children := rec.trail.children + 1))
  {
  }

  lemma ChildEnds(rec: Rec, code: Option<int>)
    requires LiveAt(rec, ChildUp)
    ensures Walk(rec, [WChildEnd, WReceipt(code)]) ==
            At(rec, ReceiptedRan).(trail := rec.trail.(receipt := Some(Receipt(true, code))))
  {
    WorkerActs(rec, WChildEnd, At(rec, ChildEnded));
    WalkTwo(rec, WChildEnd, At(rec, ChildEnded), WReceipt(code));
  }

  lemma ChildRuns(rec: Rec, code: Option<int>)
    requires LiveAt(rec, Cleared)
    ensures Walk(rec, RunsChild(code)) ==
            At(rec, ReceiptedRan).(trail := rec.trail.(children := rec.trail.children + 1,
                                                       receipt := Some(Receipt(true, code))))
  {
    var up := At(rec, ChildUp).(trail := rec.trail.(children := rec.trail.children + 1));
    ChildStarts(rec);
    ChildEnds(up, code);
    WalkCons(rec, WChildStart, up, [WChildEnd, WReceipt(code)]);
    assert [WChildStart] + [WChildEnd, WReceipt(code)] == RunsChild(code);
  }

  lemma ResultIn(rec: Rec)
    requires LiveAt(rec, ReceiptedRan) && rec.state == Running
    ensures Local(rec, WResult) == At(rec, Parsed).(state := ResultReceived)
  {
  }

  lemma EvidenceIn(rec: Rec)
    requires LiveAt(rec, Parsed) && rec.state == ResultReceived
    ensures Local(rec, WEvidence) == At(rec, Evidenced).(state := EvidenceCollected)
  {
  }

  lemma HandoffIn(rec: Rec)
    requires LiveAt(rec, Evidenced) && rec.state == EvidenceCollected
    ensures Local(rec, WHandoff) == At(rec, Finishing).(state := HandoffReady)
  {
  }

  lemma HandsOver(rec: Rec)
    requires LiveAt(rec, ReceiptedRan) && rec.state == Running
    ensures Walk(rec, HANDS_OVER) == At(rec, Finishing).(state := HandoffReady)
  {
    var parsed := At(rec, Parsed).(state := ResultReceived);
    var evidenced := At(rec, Evidenced).(state := EvidenceCollected);
    ResultIn(rec);
    EvidenceIn(parsed);
    HandoffIn(evidenced);
    WalkThree(rec, WResult, parsed, WEvidence, evidenced, WHandoff);
  }

  lemma LeaseOut(rec: Rec)
    requires LiveAt(rec, Finishing)
    ensures Local(rec, WReleaseLease) == At(rec, Unleased).(lease := Unhold(rec.lease))
  {
  }

  lemma ExitOut(rec: Rec)
    requires LiveAt(rec, Unleased)
    ensures Local(rec, WExit) == Die(At(rec, Exited))
  {
  }

  lemma Leaves(rec: Rec)
    requires LiveAt(rec, Finishing)
    ensures Walk(rec, LEAVES) == Die(At(rec, Exited)).(lease := Unhold(rec.lease))
  {
    var out := At(rec, Unleased).(lease := Unhold(rec.lease));
    LeaseOut(rec);
    ExitOut(out);
    WalkTwo(rec, WReleaseLease, out, WExit);
  }

  function Life(code: Option<int>): seq<Step> {
    BOOTS + ((RunsChild(code) + HANDS_OVER) + LEAVES)
  }

  // The run's record when its worker has handed over and left.
  function HandedOver(rec: Rec, code: Option<int>): Rec {
    rec.(state := HandoffReady, lease := Unhold(rec.lease), proc := rec.proc.(stage := Exited, alive := false),
         trail := rec.trail.(row := true, pid := Some(rec.proc.pid), stamp := Some(rec.proc.stamp),
                             children := rec.trail.children + 1, receipt := Some(Receipt(true, code))))
  }

  lemma WorkIsDone(rec: Rec, code: Option<int>)
    requires LiveAt(rec, Cleared) && rec.state == Running
    ensures Walk(rec, RunsChild(code) + HANDS_OVER) ==
            At(rec, Finishing).(state := HandoffReady, trail := rec.trail.(children := rec.trail.children + 1,
                                                                          receipt := Some(Receipt(true, code))))
  {
    ChildRuns(rec, code);
    var ran := Walk(rec, RunsChild(code));
    HandsOver(ran);
    WalkConcat(rec, RunsChild(code), HANDS_OVER);
  }

  // An undisturbed worker takes its run from DISPATCHED to HANDOFF_READY: identified, one child, its receipt,
  // the lease given back, and gone.
  lemma UndisturbedRunHandsOver(rec: Rec, code: Option<int>)
    requires LiveAt(rec, Booted) && rec.state == Dispatched
    ensures Walk(rec, Life(code)) == HandedOver(rec, code)
  {
    BootsUp(rec);
    var cleared := Walk(rec, BOOTS);
    WorkIsDone(cleared, code);
    var done := Walk(cleared, RunsChild(code) + HANDS_OVER);
    Leaves(done);
    WalkConcat(rec, BOOTS, (RunsChild(code) + HANDS_OVER) + LEAVES);
    WalkConcat(cleared, RunsChild(code) + HANDS_OVER, LEAVES);
  }

  // A DISPATCH CAN COMPLETE. From any configuration that leaves the path free, an undisturbed dispatch and its
  // worker lead to the handoff, and to the path free again.
  lemma {:induction false} DispatchCompletes(c: Config, rid: RunId, id: Ident, pid: int, stamp: Stamp,
                                             code: Option<int>)
    returns (d: Config)
    requires rid !in c && !Known(c, id.key) && (id.needsLease ==> !PathHeld(c, id.path)) && pid > 0
    ensures Leads(c, d) && rid in d && d == c[rid := d[rid]] && d[rid].state == HandoffReady
    ensures d[rid].lease == (if id.needsLease then Released else NoLease) && d[rid].trail.children == 1
  {
    var up := Launched(c, rid, id, pid, stamp);
    UndisturbedRunHandsOver(up, code);
    LeadsBy(c[rid := up], rid, Life(code));
    LeadsTrans(c, c[rid := up], c[rid := up][rid := HandedOver(up, code)]);
    d := c[rid := HandedOver(up, code)];
    Overwrite(c, rid, up, HandedOver(up, code));
  }

  lemma Launched(c: Config, rid: RunId, id: Ident, pid: int, stamp: Stamp) returns (up: Rec)
    requires rid !in c && !Known(c, id.key) && (id.needsLease ==> !PathHeld(c, id.path)) && pid > 0
    ensures Leads(c, c[rid := up]) && LiveAt(up, Booted) && up.state == Dispatched && up.trail.children == 0
    ensures up.lease == if id.needsLease then Held else NoLease
  {
    var plan := Plan(PathHeld(c, id.path), id, None, false, true, Some((pid, stamp)));
    up := Join(plan.rows, plan.facts);
    DispatchIsRun(c, rid, id, None, false, true, Some((pid, stamp)));
  }
}
