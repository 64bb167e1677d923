// When the verdicts of src/quaestor/core/reconcile.py are right, over every continuation of every
// reachable configuration of the run protocol.
module Verdicts {
  import opened Wrappers
  import opened Domain
  import opened Liveness
  import opened Reconcile
  import opened RunProtocol

  // reconcile_run reads five things, in this order and not at one instant: the run row, the worker row,
  // the receipt, the worker's liveness (its row again, with the lock and the process table), and
  // whether there is a worker row. Each argument is the run as it stands at that reading.
  function Reconciled(run: Rec, worker: Rec, receipt: Rec, live: Rec, spawn: Rec, rd: Reading,
                      resultValid: Option<bool>, observedChange: Option<bool>): Reconciliation
  {
    Classify(run.state, run.id.isWrite, ReadLiveness(live, rd), worker.trail.pid.Some?, receipt.trail.receipt,
             resultValid, observedChange, spawn.trail.row)
  }

  // All five readings at one instant.
  function OnSnapshot(rec: Rec, rd: Reading, resultValid: Option<bool>, observedChange: Option<bool>): Reconciliation {
    Reconciled(rec, rec, rec, rec, rec, rd, resultValid, observedChange)
  }

  // If an automatic redispatch is allowed although a child has started, the cause is this one: the
  // worker had not recorded itself when its row was read first, had when it was read again, and is dead.
  lemma VerdictOnRecords(run: Rec, worker: Rec, receipt: Rec, live: Rec, spawn: Rec, rd: Reading,
                         resultValid: Option<bool>, observedChange: Option<bool>)
    requires RecInv(receipt) && RecInv(live) && RecInv(spawn) && Later(receipt, spawn) && Honest(live, rd)
    ensures var out := Reconciled(run, worker, receipt, live, spawn, rd, resultValid, observedChange);
      out.autoRedispatch && spawn.trail.children != 0 ==>
        out.verdict == WorkerLost && IsActive(run.state) && worker.trail.pid == None &&
        live.trail.pid.Some? && !live.proc.alive
  {
    DeadForcesRecordedPid(rd, live.trail.pid, live.trail.stamp);
  }

  // SOUND ON ONE SNAPSHOT: if reconciliation says a redispatch may be automatic, no child of that
  // run has ever started; and the branch for a dead worker that never recorded itself is not the
  // reason, for DEAD requires a recorded pid.
  lemma AutoRedispatchMeansNoChild(c: Config, r: RunId, rd: Reading, resultValid: Option<bool>,
                                   observedChange: Option<bool>)
    requires Reachable(c) && r in c && Honest(c[r], rd)
    ensures var out := OnSnapshot(c[r], rd, resultValid, observedChange);
      (out.autoRedispatch ==> c[r].trail.children == 0) &&
      (out.verdict == WorkerLost ==> c[r].trail.receipt.Some?)
  {
    ReachableInv(c);
    assert RecInv(c[r]);
    if OnSnapshot(c[r], rd, resultValid, observedChange).autoRedispatch {
      RedispatchMeansNoChild(c[r], rd, resultValid, observedChange);
    }
    if OnSnapshot(c[r], rd, resultValid, observedChange).verdict == WorkerLost {
      LostMeansReceipt(c[r], rd, resultValid, observedChange);
    }
  }

  lemma LaterSelf(rec: Rec)
    ensures Later(rec, rec)
  {
  }

  lemma RedispatchMeansNoChild(rec: Rec, rd: Reading, resultValid: Option<bool>, observedChange: Option<bool>)
    requires RecInv(rec) && Honest(rec, rd) && OnSnapshot(rec, rd, resultValid, observedChange).autoRedispatch
    ensures rec.trail.children == 0
  {
    LaterSelf(rec);
    VerdictOnRecords(rec, rec, rec, rec, rec, rd, resultValid, observedChange);
  }

  lemma LostMeansReceipt(rec: Rec, rd: Reading, resultValid: Option<bool>, observedChange: Option<bool>)
    requires Asked(rec.trail.pid, rd) && OnSnapshot(rec, rd, resultValid, observedChange).verdict == WorkerLost
    ensures rec.trail.receipt.Some?
  {
    DeadForcesRecordedPid(rd, rec.trail.pid, rec.trail.stamp);
  }

  // ---- which runs may still start a child ----------------------------------------------------------

  // A lease that some continuation takes from its holder. Otherwise it is stranded for good: its run
  // never got a process and its dispatcher is past or barred from spawning one, or its worker died
  // before recording itself, so that no reading of it is ever DEAD.
  predicate Freeable(rec: Rec) {
    if rec.proc.stage != NotSpawned then rec.proc.alive || !Anonymous(rec.proc.stage)
    else rec.ladder == AtDrift || rec.ladder == AtSpawn ||
         (IsActive(rec.state) && (rec.ladder == AtLeasedMark || rec.ladder == AtDispatch))
  }

  predicate Stranded(rec: Rec) {
    rec.lease == Held && !Freeable(rec)
  }

  // A stranded lease of another run on this run's path.
  predicate Walled(c: Config, r: RunId)
    requires r in c
  {
    exists o :: o in c && o != r && Stranded(c[o]) && c[o].id.path == c[r].id.path
  }

  predicate BeforeLease(l: Ladder) {
    l == AtPreflight || l == AtGates || l == AtLease
  }

  predicate AfterLease(l: Ladder) {
    l == AtLeasedMark || l == AtDrift || l == AtDispatch || l == AtSpawn
  }

  // The run is active, and its worker lives unrecorded, or its dispatcher still stands on a rung it can
  // leave upwards: the lease it needs, if it does not have it, is not stranded with someone else.
  predicate CanStillStart(c: Config, r: RunId)
    requires r in c
  {
    var rec := c[r];
    IsActive(rec.state) &&
    if rec.proc.stage != NotSpawned then rec.proc.alive && Anonymous(rec.proc.stage)
    else AfterLease(rec.ladder) || (BeforeLease(rec.ladder) && (rec.id.needsLease ==> !Walled(c, r)))
  }

  // ---- what else every reachable run satisfies ------------------------------------------------------

  // State and rung agree while the run is active, and a worker past its last act holds no lease.
  predicate Tidy(rec: Rec) {
    (rec.proc.stage == Unleased || rec.proc.stage == Exited ==> rec.lease != Held) &&
    (IsActive(rec.state) ==> RungAgrees(rec))
  }

  predicate RungAgrees(rec: Rec) {
    if rec.proc.stage == Booted || rec.proc.stage == Locked || rec.proc.stage == Identified then rec.state == Dispatched
    else if rec.proc.stage != NotSpawned then true
    else
      (rec.ladder == AtPreflight ==> rec.state == Created) &&
      (rec.ladder == AtGates || rec.ladder == AtLease || rec.ladder == AtLeasedMark ==> rec.state == Preflight) &&
      (rec.ladder == AtDrift || rec.ladder == AtDispatch ==> rec.state == Preflight || rec.state == Leased) &&
      (rec.ladder == AtSpawn ==> rec.state == Dispatched)
  }

  // A worker that died before recording itself.
  predicate Lost(rec: Rec) {
    rec.proc.stage != NotSpawned && Anonymous(rec.proc.stage) && !rec.proc.alive
  }

  // Still below its lease.
  predicate Below(rec: Rec) {
    rec.proc.stage == NotSpawned && rec.id.needsLease && BeforeLease(rec.ladder)
  }

  ghost predicate Stays(rec: Rec, next: Rec) {
    Tidy(next) && (Stranded(rec) ==> Stranded(next)) && (Lost(rec) ==> Lost(next)) &&
    (Below(rec) ==> Below(next) || NeverSpawns(next)) && (NeverSpawns(rec) ==> NeverSpawns(next))
  }

  ghost predicate StepStays(m: Machine, rec: Rec, step: Step) {
    Stays(rec, m(rec, step))
  }

  ghost predicate Steady(m: Machine) {
    forall rec, step {:trigger StepStays(m, rec, step)} :: RecInv(rec) && Tidy(rec) ==> StepStays(m, rec, step)
  }

  lemma DispatcherStays(rec: Rec, step: Step)
    requires RecInv(rec) && Tidy(rec) && !IsOutsiderStep(step) && !IsWorkerStep(step)
    ensures Stays(rec, DispatcherStep(rec, step))
  {
  }

  lemma BootStays(rec: Rec, step: Step)
    requires RecInv(rec) && Tidy(rec) && rec.proc.alive && IsBootStep(step)
    ensures Stays(rec, WorkerStep(rec, step))
  {
  }

  lemma ChildStays(rec: Rec, step: Step)
    requires RecInv(rec) && Tidy(rec) && rec.proc.alive && IsChildStep(step)
    ensures Stays(rec, WorkerStep(rec, step))
  {
  }

  lemma CloseStays(rec: Rec, step: Step)
    requires RecInv(rec) && Tidy(rec) && rec.proc.alive && (IsCloseStep(step) || IsResultStep(step))
    ensures Stays(rec, WorkerStep(rec, step))
  {
  }

  lemma WorkerStays(rec: Rec, step: Step)
    requires RecInv(rec) && Tidy(rec) && rec.proc.alive && IsWorkerStep(step)
    ensures Stays(rec, WorkerStep(rec, step))
  {
    if IsBootStep(step) { BootStays(rec, step); }
    else if IsChildStep(step) { ChildStays(rec, step); }
    else { CloseStays(rec, step); }
  }

  lemma OutsiderStays(rec: Rec, step: Step)
    requires RecInv(rec) && Tidy(rec) && IsOutsiderStep(step)
    ensures Stays(rec, OutsiderStep(rec, step))
  {
  }

  lemma {:induction false} LocalIsSteady()
    ensures Steady(Local)
  {
    forall rec, step | RecInv(rec) && Tidy(rec) ensures StepStays(Local, rec, step) {
      if IsOutsiderStep(step) { OutsiderStays(rec, step); }
      else if !IsWorkerStep(step) { DispatcherStays(rec, step); }
      else if rec.proc.alive { WorkerStays(rec, step); }
    }
  }

  // ---- over continuations --------------------------------------------------------------------------

  ghost predicate AllTidy(c: Config) {
    forall r :: r in c ==> Tidy(c[r])
  }

  // This run will never start a child.
  predicate Hopeless(c: Config, r: RunId)
    requires r in c
  {
    NeverSpawns(c[r]) || Lost(c[r]) || (Below(c[r]) && Walled(c, r))
  }

  lemma FreshIsTidy(key: string, path: string, needsLease: bool, isWrite: bool)
    ensures Tidy(Fresh(key, path, needsLease, isWrite))
  {
  }

  lemma AcquiredIsTidy(rec: Rec)
    requires RecInv(rec) && Tidy(rec) && rec.ladder == AtLease
    ensures Tidy(rec.(ladder := AtConflict)) && Tidy(rec.(lease := Held, ladder := AtLeasedMark))
    ensures !Stranded(rec) && !Lost(rec) && !NeverSpawns(rec) && NeverSpawns(rec.(ladder := AtConflict))
  {
  }

  lemma StepStaysIn(m: Machine, rec: Rec, step: Step)
    requires Steady(m) && RecInv(rec) && Tidy(rec)
    ensures Stays(rec, m(rec, step))
  {
    assert StepStays(m, rec, step);
  }

  lemma ApplyKeepsTidy(m: Machine, c: Config, a: Action)
    requires Sound(m) && Steady(m) && Inv(c) && AllTidy(c)
    ensures AllTidy(Apply(m, c, a))
  {
    match a
    case Admit(id, key, path, needsLease, isWrite) =>
      FreshIsTidy(key, path, needsLease, isWrite);
      UpdateTidy(c, id, Fresh(key, path, needsLease, isWrite));
    case Acquire(r) =>
      if r in c && c[r].ladder == AtLease {
        AcquiredIsTidy(c[r]);
        UpdateTidy(c, r, c[r].(ladder := AtConflict));
        UpdateTidy(c, r, c[r].(lease := Held, ladder := AtLeasedMark));
      }
    case Do(r, step) =>
      if r in c {
        StepStaysIn(m, c[r], step);
        UpdateTidy(c, r, m(c[r], step));
      }
  }

  lemma UpdateTidy(c: Config, r: RunId, next: Rec)
    requires AllTidy(c) && Tidy(next)
    ensures AllTidy(c[r := next])
  {
  }

  // One run's answer to one action, as far as others rely on it.
  ghost predicate Keeps(rec: Rec, next: Rec) {
    next.id == rec.id && (Stranded(rec) ==> Stranded(next)) && (Lost(rec) ==> Lost(next)) &&
    (NeverSpawns(rec) ==> NeverSpawns(next))
  }

  lemma DoStays(m: Machine, rec: Rec, step: Step)
    requires Sound(m) && Steady(m) && RecInv(rec) && Tidy(rec)
    ensures Keeps(rec, m(rec, step)) && (Below(rec) ==> Below(m(rec, step)) || NeverSpawns(m(rec, step)))
  {
    assert StepSound(m, rec, step);
    StepStaysIn(m, rec, step);
  }

  lemma ApplyStays(m: Machine, c: Config, a: Action, r: RunId)
    requires Sound(m) && Steady(m) && Inv(c) && AllTidy(c) && r in c
    ensures r in Apply(m, c, a) && Keeps(c[r], Apply(m, c, a)[r])
    ensures Below(c[r]) && Walled(c, r) ==> Below(Apply(m, c, a)[r]) || NeverSpawns(Apply(m, c, a)[r])
  {
    var rec := c[r];
    assert RecInv(rec) && Tidy(rec);
    if a == Acquire(r) {
      if rec.ladder == AtLease {
        AcquiredIsTidy(rec);
        if Walled(c, r) { WalledConflicts(c, r); }
      }
    } else if a.Do? && a.r == r {
      DoStays(m, rec, a.step);
    } else {
      OthersStand(m, c, a, r);
    }
  }

  lemma WalledConflicts(c: Config, r: RunId)
    requires r in c && Walled(c, r)
    ensures Conflict(c, r)
  {
  }

  lemma ApplyKeepsHopeless(m: Machine, c: Config, a: Action, r: RunId)
    requires Sound(m) && Steady(m) && Inv(c) && AllTidy(c) && r in c && Hopeless(c, r)
    ensures r in Apply(m, c, a) && Hopeless(Apply(m, c, a), r)
  {
    ApplyStays(m, c, a, r);
    if Below(c[r]) && Walled(c, r) {
      var o :| o in c && o != r && Stranded(c[o]) && c[o].id.path == c[r].id.path;
      ApplyStays(m, c, a, o);
    }
  }

  lemma {:induction false} RunKeepsTidy(m: Machine, c: Config, acts: seq<Action>)
    requires Sound(m) && Steady(m) && Inv(c) && AllTidy(c)
    ensures Inv(Run(m, c, acts)) && AllTidy(Run(m, c, acts))
  {
    RunKeepsInv(m, c, acts);
    if acts != [] {
      var front := acts[..|acts| - 1];
      RunKeepsTidy(m, c, front);
      ApplyKeepsTidy(m, Run(m, c, front), acts[|acts| - 1]);
    }
  }

  lemma {:induction false} RunKeepsHopeless(m: Machine, c: Config, acts: seq<Action>, r: RunId)
    requires Sound(m) && Steady(m) && Inv(c) && AllTidy(c) && r in c && Hopeless(c, r)
    ensures r in Run(m, c, acts) && Hopeless(Run(m, c, acts), r)
  {
    if acts != [] {
      var front := acts[..|acts| - 1];
      RunKeepsHopeless(m, c, front, r);
      RunKeepsTidy(m, c, front);
      ApplyKeepsHopeless(m, Run(m, c, front), acts[|acts| - 1], r);
    }
  }

  lemma ReachableTidy(c: Config)
    requires Reachable(c)
    ensures Inv(c) && AllTidy(c)
  {
    var acts :| c == Run(Local, map[], acts);
    LocalIsSound();
    LocalIsSteady();
    RunKeepsTidy(Local, map[], acts);
  }

  lemma LeadsHopeless(c: Config, d: Config, r: RunId)
    requires Inv(c) && AllTidy(c) && Leads(c, d) && r in c && Hopeless(c, r)
    ensures r in d && Hopeless(d, r) && Inv(d) && d[r].trail.children == 0
  {
    var acts :| d == Run(Local, c, acts);
    LocalIsSound();
    LocalIsSteady();
    RunKeepsHopeless(Local, c, acts, r);
    RunKeepsInv(Local, c, acts);
    assert RecInv(d[r]);
  }

  // A run whose worker is unrecorded either may still start its child, or is over, or is hopeless.
  lemma StartOrHopeless(c: Config, r: RunId)
    requires Inv(c) && AllTidy(c) && r in c && c[r].trail.pid == None && IsActive(c[r].state)
    ensures CanStillStart(c, r) || Hopeless(c, r)
  {
    assert RecInv(c[r]) && Tidy(c[r]);
  }

  // ---- starting the child --------------------------------------------------------------------------

  // One run, step after step.
  function Walk(rec: Rec, steps: seq<Step>): Rec
    decreases steps
  {
    if steps == [] then rec else Walk(Local(rec, steps[0]), steps[1..])
  }

  lemma WalkCons(rec: Rec, step: Step, next: Rec, steps: seq<Step>)
    requires Local(rec, step) == next
    ensures Walk(rec, [step] + steps) == Walk(next, steps)
  {
  }

  function Does(r: RunId, steps: seq<Step>): seq<Action> {
    seq(|steps|, i requires 0 <= i < |steps| => Do(r, steps[i]))
  }

  lemma RunDo(c: Config, r: RunId, step: Step)
    requires r in c
    ensures Run(Local, c, [Do(r, step)]) == c[r := Local(c[r], step)]
  {
    assert [Do(r, step)][..0] == [];
  }

  // A run's own walk is a continuation of the whole configuration, and touches nothing else.
  lemma {:induction false} WalkRuns(c: Config, r: RunId, steps: seq<Step>)
    requires r in c
    ensures Run(Local, c, Does(r, steps)) == c[r := Walk(c[r], steps)]
    decreases steps
  {
    if steps == [] {
      assert c[r := c[r]] == c;
    } else {
      var next := c[r := Local(c[r], steps[0])];
      assert Does(r, steps) == [Do(r, steps[0])] + Does(r, steps[1..]);
      RunDo(c, r, steps[0]);
      RunConcat(Local, c, [Do(r, steps[0])], Does(r, steps[1..]));
      WalkRuns(next, r, steps[1..]);
      Overwrite(c, r, Local(c[r], steps[0]), Walk(c[r], steps));
    }
  }

  // The child started, and then the worker was killed.
  predicate Orphaned(rec: Rec) {
    rec.trail.children > 0 && !rec.proc.alive && rec.trail.pid.Some? && rec.trail.pid.value > 0 && rec.trail.row
  }

  lemma FromLocked(rec: Rec) returns (steps: seq<Step>)
    requires rec.proc.stage == Locked && rec.proc.alive && rec.proc.pid > 0 && rec.state == Dispatched
    ensures Orphaned(Walk(rec, steps))
  {
    var named := WorkerStep(rec, WIdentify(true));
    var cleared := WorkerStep(named, WRunning);
    var up := WorkerStep(cleared, WChildStart);
    WalkCons(up, WCrash, Die(up), []);
    WalkCons(cleared, WChildStart, up, [WCrash]);
    WalkCons(named, WRunning, cleared, [WChildStart] + [WCrash]);
    WalkCons(rec, WIdentify(true), named, [WRunning] + ([WChildStart] + [WCrash]));
    steps := [WIdentify(true)] + ([WRunning] + ([WChildStart] + [WCrash]));
    assert [WCrash] + [] == [WCrash];
  }

  lemma FromBooted(rec: Rec) returns (steps: seq<Step>)
    requires rec.proc.stage == Booted && rec.proc.alive && rec.proc.pid > 0 && rec.state == Dispatched
    ensures Orphaned(Walk(rec, steps))
  {
    var rest := FromLocked(At(rec, Locked));
    WalkCons(rec, WLock, At(rec, Locked), rest);
    steps := [WLock] + rest;
  }

  lemma FromSpawn(rec: Rec) returns (steps: seq<Step>)
    requires rec.ladder == AtSpawn && rec.state == Dispatched
    ensures Orphaned(Walk(rec, steps))
  {
    var next := rec.(proc := Proc(Booted, true, 1, "t"), ladder := AtRecord);
    var rest := FromBooted(next);
    WalkCons(rec, SpawnOk(1, "t"), next, rest);
    steps := [SpawnOk(1, "t")] + rest;
  }

  lemma FromDispatch(rec: Rec) returns (steps: seq<Step>)
    requires rec.ladder == AtDispatch && (rec.state == Preflight || rec.state == Leased)
    ensures Orphaned(Walk(rec, steps))
  {
    var next := rec.(state := Dispatched, ladder := AtSpawn);
    var rest := FromSpawn(next);
    WalkCons(rec, MarkDispatched, next, rest);
    steps := [MarkDispatched] + rest;
  }

  lemma FromDrift(rec: Rec) returns (steps: seq<Step>)
    requires rec.ladder == AtDrift && (rec.state == Preflight || rec.state == Leased)
    ensures Orphaned(Walk(rec, steps))
  {
    var next := rec.(ladder := AtDispatch);
    var rest := FromDispatch(next);
    WalkCons(rec, DriftClean, next, rest);
    steps := [DriftClean] + rest;
  }

  lemma FromLeasedMark(rec: Rec) returns (steps: seq<Step>)
    requires rec.ladder == AtLeasedMark && rec.state == Preflight
    ensures Orphaned(Walk(rec, steps))
  {
    var next := rec.(state := Leased, ladder := AtDrift);
    var rest := FromDrift(next);
    WalkCons(rec, MarkLeased, next, rest);
    steps := [MarkLeased] + rest;
  }

  // To the rung where the lease is taken, or past it if none is needed.
  lemma ToLease(rec: Rec) returns (steps: seq<Step>)
    requires BeforeLease(rec.ladder) && RungAgrees(rec) && rec.proc.stage == NotSpawned
    requires rec.ladder == AtLease ==> rec.id.needsLease
    ensures Walk(rec, steps) == rec.(state := Preflight, ladder := if rec.id.needsLease then AtLease else AtDrift)
  {
    var there := rec.(state := Preflight, ladder := if rec.id.needsLease then AtLease else AtDrift);
    var gates := rec.(state := Preflight, ladder := AtGates);
    WalkCons(gates, GatePass, there, []);
    WalkCons(rec, MarkPreflight, Local(rec, MarkPreflight), [GatePass] + []);
    steps := if rec.ladder == AtLease then [] else if rec.ladder == AtGates then [GatePass] + []
             else [MarkPreflight] + ([GatePass] + []);
  }

  // ---- freeing the lease ---------------------------------------------------------------------------

  lemma FreesFinishing(rec: Rec) returns (steps: seq<Step>)
    requires rec.proc.stage == Finishing && rec.proc.alive
    ensures Walk(rec, steps).lease != Held
  {
    WalkCons(rec, WReleaseLease, WorkerStep(rec, WReleaseLease), []);
    steps := [WReleaseLease] + [];
  }

  lemma FreesWorker(rec: Rec) returns (steps: seq<Step>)
    requires rec.proc.alive && (InExecute(rec.proc.stage) || rec.proc.stage == Finishing)
    ensures Walk(rec, steps).lease != Held
  {
    if rec.proc.stage == Finishing {
      steps := FreesFinishing(rec);
    } else {
      var rest := FreesFinishing(At(rec, Finishing));
      WalkCons(rec, WRaise, At(rec, Finishing), rest);
      steps := [WRaise] + rest;
    }
  }

  lemma FreesLocked(rec: Rec) returns (steps: seq<Step>)
    requires rec.proc.alive && rec.proc.stage == Locked
    ensures Walk(rec, steps).lease != Held
  {
    var named := WorkerStep(rec, WIdentify(true));
    var rest := FreesWorker(named);
    WalkCons(rec, WIdentify(true), named, rest);
    steps := [WIdentify(true)] + rest;
  }

  lemma FreesBooted(rec: Rec) returns (steps: seq<Step>)
    requires rec.proc.alive && rec.proc.stage == Booted
    ensures Walk(rec, steps).lease != Held
  {
    var rest := FreesLocked(At(rec, Locked));
    WalkCons(rec, WLock, At(rec, Locked), rest);
    steps := [WLock] + rest;
  }

  // What the process table and the lock say of a process that is gone.
  const GONE := Reading(LockFree, None, Some(false))

  lemma ReadsGone(rec: Rec)
    requires !rec.proc.alive && rec.trail.pid.Some? && rec.trail.pid.value > 0
    ensures Honest(rec, GONE) && ReadLiveness(rec, GONE) == Dead
    ensures Local(rec, ObserveDead(GONE)) == rec.(trail := rec.trail.(seenDead := true))
  {
  }

  lemma FreesSeen(rec: Rec) returns (steps: seq<Step>)
    requires rec.trail.seenDead && IsTerminal(rec.state)
    ensures Walk(rec, steps).lease != Held
  {
    WalkCons(rec, Step.Reclaim, Local(rec, Step.Reclaim), []);
    steps := [Step.Reclaim] + [];
  }

  // A dead worker that recorded itself: cancel, read DEAD, reclaim.
  lemma FreesDead(rec: Rec) returns (steps: seq<Step>)
    requires !rec.proc.alive && rec.trail.pid.Some? && rec.trail.pid.value > 0
    ensures Walk(rec, steps).lease != Held
  {
    var over := Try(rec, Cancelled);
    var seen := over.(trail := over.trail.(seenDead := true));
    ReadsGone(over);
    var rest := FreesSeen(seen);
    WalkCons(over, ObserveDead(GONE), seen, rest);
    WalkCons(rec, Outside(Cancelled), over, [ObserveDead(GONE)] + rest);
    steps := [Outside(Cancelled)] + ([ObserveDead(GONE)] + rest);
  }

  lemma FreesLadder(rec: Rec) returns (steps: seq<Step>)
    requires rec.proc.stage == NotSpawned && Freeable(rec) && Tidy(rec)
    ensures Walk(rec, steps).lease != Held
  {
    if rec.ladder == AtDrift {
      WalkCons(rec, DriftFound, DispatcherStep(rec, DriftFound), []);
      steps := [DriftFound] + [];
    } else if rec.ladder == AtLeasedMark {
      var next := rec.(state := Leased, ladder := AtDrift);
      WalkCons(next, DriftFound, DispatcherStep(next, DriftFound), []);
      WalkCons(rec, MarkLeased, next, [DriftFound] + []);
      steps := [MarkLeased] + ([DriftFound] + []);
    } else if rec.ladder == AtSpawn {
      steps := FreesSpawn(rec);
    } else {
      var next := rec.(state := Dispatched, ladder := AtSpawn);
      var rest := FreesSpawn(next);
      WalkCons(rec, MarkDispatched, next, rest);
      steps := [MarkDispatched] + rest;
    }
  }

  lemma FreesSpawn(rec: Rec) returns (steps: seq<Step>)
    requires rec.ladder == AtSpawn
    ensures Walk(rec, steps).lease != Held
  {
    var next := rec.(proc := Proc(Booted, true, 1, "t"), ladder := AtRecord);
    var rest := FreesBooted(next);
    WalkCons(rec, SpawnOk(1, "t"), next, rest);
    steps := [SpawnOk(1, "t")] + rest;
  }

  // A lease that is not stranded can be taken from its holder.
  lemma Frees(rec: Rec) returns (steps: seq<Step>)
    requires RecInv(rec) && Tidy(rec) && rec.lease == Held && Freeable(rec)
    ensures Walk(rec, steps).lease != Held
  {
    if rec.proc.stage == NotSpawned { steps := FreesLadder(rec); }
    else if !rec.proc.alive { steps := FreesDead(rec); }
    else if rec.proc.stage == Booted { steps := FreesBooted(rec); }
    else if rec.proc.stage == Locked { steps := FreesLocked(rec); }
    else { steps := FreesWorker(rec); }
  }

  // ---- the exact conditions ------------------------------------------------------------------------

  lemma LeadsBy(c: Config, r: RunId, steps: seq<Step>)
    requires r in c
    ensures Leads(c, c[r := Walk(c[r], steps)])
  {
    WalkRuns(c, r, steps);
  }

  lemma LeadsTrans(c: Config, d: Config, e: Config)
    requires Leads(c, d) && Leads(d, e)
    ensures Leads(c, e)
  {
    var xs :| d == Run(Local, c, xs);
    var ys :| e == Run(Local, d, ys);
    RunConcat(Local, c, xs, ys);
  }

  lemma LeadsSelf(c: Config)
    ensures Leads(c, c)
  {
    assert Run(Local, c, []) == c;
  }

  // Whoever holds the path and is not stranded gives it up, and this run has not moved.
  lemma PathFreed(c: Config, r: RunId) returns (d: Config)
    requires Inv(c) && AllTidy(c) && r in c && c[r].lease == NoLease && !Walled(c, r)
    ensures Leads(c, d) && Inv(d) && AllTidy(d) && r in d && d[r] == c[r] && !Conflict(d, r)
  {
    LeadsSelf(c);
    d := c;
    if o :| o in c && o != r && c[o].lease == Held && c[o].id.path == c[r].id.path {
      assert RecInv(c[o]) && Tidy(c[o]) && Freeable(c[o]);
      var steps := Frees(c[o]);
      d := c[o := Walk(c[o], steps)];
      LeadsBy(c, o, steps);
      LeadsTidy(c, d);
      NoOtherHolder(c, r, o, Walk(c[o], steps));
    }
  }

  lemma NoOtherHolder(c: Config, r: RunId, o: RunId, next: Rec)
    requires Inv(c) && r in c && o in c && o != r && c[o].lease == Held && c[o].id.path == c[r].id.path
    requires next.lease != Held
    ensures !Conflict(c[o := next], r)
  {
    var d := c[o := next];
    forall q | q in d && q != r && d[q].lease == Held ensures d[q].id.path != d[r].id.path {
      assert q in c && q != o && d[q] == c[q];
    }
  }

  lemma ConflictUnmoved(c: Config, r: RunId, next: Rec)
    requires r in c && next.id == c[r].id && !Conflict(c, r)
    ensures !Conflict(c[r := next], r)
  {
    var d := c[r := next];
    forall o | o in d && o != r && d[o].lease == Held ensures d[o].id.path != d[r].id.path {
      assert o in c && d[o] == c[o];
    }
  }

  lemma LeadsTidy(c: Config, d: Config)
    requires Inv(c) && AllTidy(c) && Leads(c, d)
    ensures Inv(d) && AllTidy(d)
  {
    var acts :| d == Run(Local, c, acts);
    LocalIsSound();
    LocalIsSteady();
    RunKeepsTidy(Local, c, acts);
  }

  lemma AcquireRuns(c: Config, r: RunId)
    requires r in c && c[r].ladder == AtLease && !Conflict(c, r)
    ensures Leads(c, c[r := c[r].(lease := Held, ladder := AtLeasedMark)])
  {
    assert [Acquire(r)][..0] == [];
    assert Run(Local, c, [Acquire(r)]) == Apply(Local, c, Acquire(r));
  }

  // A run that may still start a child has a continuation in which it does, and its worker dies recorded.
  lemma StartsIt(c: Config, r: RunId) returns (d: Config)
    requires Inv(c) && AllTidy(c) && r in c && CanStillStart(c, r)
    ensures Leads(c, d) && r in d && Orphaned(d[r])
  {
    assert RecInv(c[r]) && Tidy(c[r]);
    if BeforeLease(c[r].ladder) && c[r].proc.stage == NotSpawned {
      d := StartsFromBelow(c, r);
    } else {
      var steps := WalksOn(c[r]);
      d := c[r := Walk(c[r], steps)];
      LeadsBy(c, r, steps);
    }
  }

  // From any rung past the lease, or from the unrecorded worker.
  lemma WalksOn(rec: Rec) returns (steps: seq<Step>)
    requires RecInv(rec) && Tidy(rec) && IsActive(rec.state)
    requires if rec.proc.stage != NotSpawned then rec.proc.alive && Anonymous(rec.proc.stage)
             else AfterLease(rec.ladder)
    ensures Orphaned(Walk(rec, steps))
  {
    if rec.proc.stage == Booted { steps := FromBooted(rec); }
    else if rec.proc.stage == Locked { steps := FromLocked(rec); }
    else if rec.ladder == AtLeasedMark { steps := FromLeasedMark(rec); }
    else if rec.ladder == AtDrift { steps := FromDrift(rec); }
    else if rec.ladder == AtDispatch { steps := FromDispatch(rec); }
    else { steps := FromSpawn(rec); }
  }

  lemma StartsFromBelow(c: Config, r: RunId) returns (d: Config)
    requires Inv(c) && AllTidy(c) && r in c && IsActive(c[r].state)
    requires c[r].proc.stage == NotSpawned && BeforeLease(c[r].ladder) && (c[r].id.needsLease ==> !Walled(c, r))
    ensures Leads(c, d) && r in d && Orphaned(d[r])
  {
    assert RecInv(c[r]) && Tidy(c[r]);
    LeadsSelf(c);
    var free := c;
    if c[r].id.needsLease { free := PathFreed(c, r); }
    var climb := ToLease(c[r]);
    var there := Walk(c[r], climb);
    var atLease := free[r := there];
    LeadsBy(free, r, climb);
    LeadsTrans(c, free, atLease);
    var on, held := atLease, there;
    LeadsSelf(atLease);
    if c[r].id.needsLease {
      assert !Conflict(atLease, r) by { ConflictUnmoved(free, r, there); }
      AcquireRuns(atLease, r);
      held := there.(lease := Held, ladder := AtLeasedMark);
      on := atLease[r := held];
    }
    LeadsTrans(c, atLease, on);
    var rest;
    if c[r].id.needsLease { rest := FromLeasedMark(held); } else { rest := FromDrift(held); }
    d := on[r := Walk(held, rest)];
    LeadsBy(on, r, rest);
    LeadsTrans(c, on, d);
  }

  // What one reconciliation reads after the run row: the configurations at its four later readings,
  // what the lock and the process table answered, and the two judgements passed in by its caller.
  datatype Readings = Readings(worker: Config, receipt: Config, live: Config, spawn: Config, rd: Reading,
                               resultValid: Option<bool>, observedChange: Option<bool>)

  // They follow the reading of the run row in c, in this order, and the lock was read honestly.
  ghost predicate InTurn(c: Config, r: RunId, got: Readings) {
    Leads(c, got.worker) && Leads(got.worker, got.receipt) && Leads(got.receipt, got.live) &&
    Leads(got.live, got.spawn) &&
    r in c && r in got.worker && r in got.receipt && r in got.live && r in got.spawn && Honest(got.live[r], got.rd)
  }

  function VerdictOf(c: Config, r: RunId, got: Readings): Reconciliation
    requires r in c && r in got.worker && r in got.receipt && r in got.live && r in got.spawn
  {
    Reconciled(c[r], got.worker[r], got.receipt[r], got.live[r], got.spawn[r], got.rd, got.resultValid,
               got.observedChange)
  }

  // An automatic redispatch is allowed only if no child has started by the last reading.
  ghost predicate Right(c: Config, r: RunId, got: Readings) {
    InTurn(c, r, got) && VerdictOf(c, r, got).autoRedispatch ==> got.spawn[r].trail.children == 0
  }

  // The one cause of a wrong verdict, over any behaviour between the readings: the worker recorded
  // itself between the two readings of its row, and was dead at the second.
  lemma SplitReadSoundness(c: Config, r: RunId, got: Readings)
    requires Reachable(c) && InTurn(c, r, got) && VerdictOf(c, r, got).autoRedispatch
    requires got.spawn[r].trail.children != 0
    ensures IsActive(c[r].state) && got.worker[r].trail.pid == None
    ensures got.live[r].trail.pid.Some? && !got.live[r].proc.alive && VerdictOf(c, r, got).verdict == WorkerLost
  {
    ReachableInv(c);
    LeadsOn(c, got.worker, r);
    LeadsOn(got.worker, got.receipt, r);
    LeadsTrans(got.receipt, got.live, got.spawn);
    LeadsOn(got.receipt, got.live, r);
    LeadsOn(got.receipt, got.spawn, r);
    VerdictOnRecords(c[r], got.worker[r], got.receipt[r], got.live[r], got.spawn[r], got.rd, got.resultValid,
                     got.observedChange);
  }

  // Any run that may still start its child has readings on which reconciliation allows an automatic
  // redispatch although the child has started.
  lemma SplitReadCanBeUnsound(c: Config, r: RunId) returns (got: Readings)
    requires Reachable(c) && r in c && CanStillStart(c, r)
    ensures InTurn(c, r, got) && VerdictOf(c, r, got).autoRedispatch && got.spawn[r].trail.children > 0
  {
    ReachableTidy(c);
    var d := StartsIt(c, r);
    assert RecInv(c[r]);
    LeadsSelf(c);
    LeadsSelf(d);
    ReadsGone(d[r]);
    got := Readings(c, c, d, d, GONE, None, None);
  }

  lemma RightWhenHopeless(c: Config, r: RunId, got: Readings)
    requires Reachable(c) && r in c
    requires IsTerminal(c[r].state) || c[r].trail.pid.Some? || !CanStillStart(c, r)
    ensures Right(c, r, got)
  {
    if InTurn(c, r, got) && VerdictOf(c, r, got).autoRedispatch && got.spawn[r].trail.children != 0 {
      ReachableTidy(c);
      SplitReadSoundness(c, r, got);
      LeadsOn(c, got.worker, r);
      StartOrHopeless(c, r);
      LeadsTrans(c, got.worker, got.receipt);
      LeadsTrans(c, got.receipt, got.live);
      LeadsTrans(c, got.live, got.spawn);
      LeadsHopeless(c, got.spawn, r);
    }
  }

  // WHEN RECONCILIATION IS SOUND. Whatever happens between its readings and however its reader is
  // misled about everything but a free lock, the verdict on a run is right exactly if at the first
  // reading the run is over, its worker has recorded itself, or it can start no child any more.
  lemma {:induction false} SplitReadExactly(c: Config, r: RunId)
    requires Reachable(c) && r in c
    ensures (forall got :: Right(c, r, got)) <==>
            (IsTerminal(c[r].state) || c[r].trail.pid.Some? || !CanStillStart(c, r))
  {
    if IsTerminal(c[r].state) || c[r].trail.pid.Some? || !CanStillStart(c, r) {
      forall got ensures Right(c, r, got) { RightWhenHopeless(c, r, got); }
    } else {
      var got := SplitReadCanBeUnsound(c, r);
      assert !Right(c, r, got);
    }
  }

  ghost predicate NoChildIn(d: Config, r: RunId) {
    r in d && d[r].trail.children == 0
  }

  ghost predicate NeverAChild(c: Config, r: RunId) {
    forall d {:trigger NoChildIn(d, r)} :: Leads(c, d) ==> NoChildIn(d, r)
  }

  // WHEN NEVER_DISPATCHED IS FINAL. The verdict reads a snapshot rightly, but the dispatcher it judges
  // may be alive: no child can follow exactly if that dispatcher is gone or about to refuse, or still
  // needs a lease that is stranded with another run.
  lemma {:induction false} NeverDispatchedExactly(c: Config, r: RunId, rd: Reading, resultValid: Option<bool>,
                                                  observedChange: Option<bool>)
    requires Reachable(c) && r in c && OnSnapshot(c[r], rd, resultValid, observedChange).verdict == NeverDispatched
    ensures NeverAChild(c, r) <==> (NeverSpawns(c[r]) || (Below(c[r]) && Walled(c, r)))
  {
    ReachableTidy(c);
    NeverDispatchedStands(c, r, rd, resultValid, observedChange);
    if NeverSpawns(c[r]) || (Below(c[r]) && Walled(c, r)) {
      forall d | Leads(c, d) ensures NoChildIn(d, r) { LeadsHopeless(c, d, r); }
    } else {
      var d := StartsIt(c, r);
      assert !NoChildIn(d, r);
    }
  }

  // A run so judged has no process, and either may still start its child or never will.
  lemma NeverDispatchedStands(c: Config, r: RunId, rd: Reading, resultValid: Option<bool>, observedChange: Option<bool>)
    requires Inv(c) && AllTidy(c) && r in c
    requires OnSnapshot(c[r], rd, resultValid, observedChange).verdict == NeverDispatched
    ensures CanStillStart(c, r) || NeverSpawns(c[r]) || (Below(c[r]) && Walled(c, r))
  {
    assert RecInv(c[r]);
    StartOrHopeless(c, r);
  }

  // The two failures are reached from an empty store by one admission.
  lemma FirstRunCanStart(id: RunId, key: string, path: string, needsLease: bool, isWrite: bool) returns (c: Config)
    ensures c == map[id := Fresh(key, path, needsLease, isWrite)] && Reachable(c) && CanStillStart(c, id)
    ensures OnSnapshot(c[id], Reading(LockAbsent, None, None), None, None).verdict == NeverDispatched
    ensures !NeverAChild(c, id)
  {
    var start: Config := map[];
    var a := Admit(id, key, path, needsLease, isWrite);
    c := start[id := Fresh(key, path, needsLease, isWrite)];
    assert [a][..0] == [];
    assert Run(Local, start, [a]) == Apply(Local, start, a) == c;
    NeverDispatchedExactly(c, id, Reading(LockAbsent, None, None), None, None);
  }
}
