// The run protocol: the dispatcher ladder (core/dispatcher.py), the detached worker
// (core/worker.py), the reconciler (core/reconcile.py) and the reaper (core/orchestrator.py), each
// of which may stop at any step, interleaved over one durable store (core/store.py).
//
// A configuration gives, for every admitted run, its durable rows and the facts only the operating
// system knows. An action is ONE write, or one reading that a later write relies on; a behaviour is
// any sequence of actions. An action whose author is not at that step changes nothing.
module RunProtocol {
  import opened Wrappers
  import opened Domain
  import opened Liveness
  import opened Reconcile

  type RunId = string

  datatype Lease = NoLease | Held | Released

  // What the dispatcher of this run does next. Gone: it returned, raised or died.
  datatype Ladder = AtPreflight | AtGates | AtLease | AtConflict | AtLeasedMark | AtDrift
                  | AtDriftRefusal | AtDispatch | AtSpawn | AtRecord | Gone

  // What the worker process does next, after each of its writes.
  datatype Stage = NotSpawned | Booted | Locked | Identified | Cleared | ChildUp | ChildEnded | ChildNever
                 | ReceiptedRan | ReceiptedNever | Parsed | Evidenced | Finishing | Unleased | Exited

  datatype Ident = Ident(key: string, path: string, needsLease: bool, isWrite: bool)

  // The worker process as the operating system knows it.
  datatype Proc = Proc(stage: Stage, alive: bool, pid: int, stamp: Stamp)

  // What is written down about the worker: its row (with the identity the WORKER recorded) and the
  // exit receipt; and two facts nobody writes down: children started, and that some observer has
  // read DEAD for this run.
  datatype Trail = Trail(row: bool, pid: Option<int>, stamp: Option<Stamp>, receipt: Option<Receipt>,
                         children: nat, seenDead: bool)

  datatype Rec = Rec(id: Ident, state: ExecState, lease: Lease, ladder: Ladder, proc: Proc, trail: Trail)

  type Config = map<RunId, Rec>

  datatype Step =
    // the dispatcher
    | MarkPreflight | GateRefuse(to: ExecState) | GatePass | MarkLeased | DriftClean | DriftFound
    | RefuseLease | MarkDispatched | SpawnOk(pid: int, stamp: Stamp) | SpawnFail | RecordSpawn
    | DispatcherDies
    // the worker
    | WBootFail | WLock | WIdentify(readable: bool) | WDrift | WRunning | WChildStart | WChildEnd
    | WChildNever | WReceipt(code: Option<int>) | WFail(to: ExecState) | WResult | WEvidence | WHandoff
    | WRaise | WReleaseLease | WExit | WCrash
    // reconciler, reaper, canceller: a guarded transition, a DEAD reading, a reclaim
    | Outside(to: ExecState) | ObserveDead(rd: Reading) | Reclaim

  datatype Action =
    | Admit(id: RunId, key: string, path: string, needsLease: bool, isWrite: bool)
    | Acquire(r: RunId)
    | Do(r: RunId, step: Step)

  predicate GateRefusal(s: ExecState) {
    s == OwnerRequired || s == AuthorityRefused || s == PreflightRefused || s == PermissionRefused
  }

  predicate WorkerFailure(s: ExecState) {
    s == WorkerFailed || s == ResultInvalid || s == EvidenceInvalid
  }

  // store.transition without expect_from, its refusal swallowed.
  function Try(rec: Rec, to: ExecState): Rec {
    if CanTransition(rec.state, to) then rec.(state := to) else rec
  }

  function At(rec: Rec, stage: Stage): Rec {
    rec.(proc := rec.proc.(stage := stage))
  }

  function Die(rec: Rec): Rec {
    rec.(proc := rec.proc.(alive := false))
  }

  // store.transition with expect_from: where the worker goes next, or its cleanup on refusal.
  function Advance(rec: Rec, from: ExecState, to: ExecState, next: Stage): Rec {
    if rec.state == from then At(rec.(state := to), next) else At(rec, Finishing)
  }

  predicate InExecute(s: Stage) {
    s == Identified || s == Cleared || s == ChildUp || s == ChildEnded || s == ChildNever || s == ReceiptedRan ||
    s == ReceiptedNever || s == Parsed || s == Evidenced
  }

  predicate LockTaken(rec: Rec) {
    rec.proc.alive && rec.proc.stage != Booted
  }

  // The one thing asked of a liveness reading: the kernel reports a lock free only when no process
  // holds it. Every other part of the reading may be wrong or missing.
  predicate Honest(rec: Rec, rd: Reading) {
    (rd.lock == LockFree ==> !LockTaken(rec)) && Asked(rec.trail.pid, rd)
  }

  function ReadLiveness(rec: Rec, rd: Reading): Verdict {
    Observe(rd, rec.trail.pid, rec.trail.stamp)
  }

  function Unhold(lease: Lease): Lease {
    if lease == Held then Released else lease
  }

  function DispatcherStep(rec: Rec, step: Step): Rec {
    match step
    case DispatcherDies => rec.(ladder := Gone)
    case MarkPreflight =>
      if rec.ladder != AtPreflight then rec
      else if rec.state == Created then rec.(state := Preflight, ladder := AtGates)
      else rec.(ladder := Gone)
    case GateRefuse(to) =>
      if rec.ladder == AtGates && GateRefusal(to) then Try(rec, to).(ladder := Gone) else rec
    case GatePass =>
      if rec.ladder != AtGates then rec else rec.(ladder := if rec.id.needsLease then AtLease else AtDrift)
    case MarkLeased =>
      if rec.ladder != AtLeasedMark then rec
      else if rec.state == Preflight then rec.(state := Leased, ladder := AtDrift)
      else rec.(ladder := Gone)
    case DriftClean => if rec.ladder != AtDrift then rec else rec.(ladder := AtDispatch)
    case DriftFound =>
      if rec.ladder != AtDrift then rec else rec.(lease := Unhold(rec.lease), ladder := AtDriftRefusal)
    case RefuseLease =>
      if rec.ladder == AtConflict || rec.ladder == AtDriftRefusal
      then Try(rec, LeaseRefused).(ladder := Gone) else rec
    case MarkDispatched =>
      if rec.ladder != AtDispatch then rec
      else if CanTransition(rec.state, Dispatched) then rec.(state := Dispatched, ladder := AtSpawn)
      else rec.(ladder := Gone)
    case SpawnOk(pid, stamp) =>
      if rec.ladder == AtSpawn && pid > 0
      then rec.(proc := Proc(Booted, true, pid, stamp), ladder := AtRecord) else rec
    case SpawnFail => if rec.ladder != AtSpawn then rec else Try(rec, WorkerFailed).(ladder := Gone)
    case RecordSpawn => if rec.ladder != AtRecord then rec else rec.(trail := rec.trail.(row := true), ladder := Gone)
    case _ => rec
  }

  function WorkerStep(rec: Rec, step: Step): Rec {
    match step
    case WCrash => Die(rec)
    case WBootFail => if rec.proc.stage != Booted then rec else Die(Try(rec, WorkerFailed))
    case WLock => if rec.proc.stage != Booted then rec else At(rec, Locked)
    case WIdentify(readable) =>
      if rec.proc.stage != Locked then rec else
        At(rec, Identified).(trail := rec.trail.(row := true, pid := Some(rec.proc.pid),
                                                 stamp := if readable then Some(rec.proc.stamp) else None))
    case WDrift => if rec.proc.stage != Identified then rec else At(Try(rec, LeaseRefused), Finishing)
    case WRunning => if rec.proc.stage != Identified then rec else Advance(rec, Dispatched, Running, Cleared)
    case WChildStart =>
      if rec.proc.stage != Cleared then rec
      else At(rec, ChildUp).(trail := rec.trail.(children := rec.trail.children + 1))
    case WChildNever => if rec.proc.stage != Cleared then rec else At(rec, ChildNever)
    case WChildEnd => if rec.proc.stage != ChildUp then rec else At(rec, ChildEnded)
    case WReceipt(code) =>
      if rec.proc.stage == ChildEnded then
        At(rec, ReceiptedRan).(trail := rec.trail.(receipt := Some(Receipt(true, code))))
      else if rec.proc.stage == ChildNever then
        At(rec, ReceiptedNever).(trail := rec.trail.(receipt := Some(Receipt(false, code))))
      else rec
    case WFail(to) =>
      if (rec.proc.stage == ReceiptedRan || rec.proc.stage == ReceiptedNever || rec.proc.stage == Parsed ||
          rec.proc.stage == Evidenced) && WorkerFailure(to)
      then At(Try(rec, to), Finishing) else rec
    case WResult =>
      if rec.proc.stage != ReceiptedRan then rec else Advance(rec, Running, ResultReceived, Parsed)
    case WEvidence =>
      if rec.proc.stage != Parsed then rec else Advance(rec, ResultReceived, EvidenceCollected, Evidenced)
    case WHandoff =>
      if rec.proc.stage != Evidenced then rec else Advance(rec, EvidenceCollected, HandoffReady, Finishing)
    // An exception anywhere past the identity ends in the same cleanup, with no word on the run.
    case WRaise => if InExecute(rec.proc.stage) then At(rec, Finishing) else rec
    case WReleaseLease =>
      if rec.proc.stage != Finishing then rec else At(rec, Unleased).(lease := Unhold(rec.lease))
    case WExit => if rec.proc.stage != Unleased then rec else Die(At(rec, Exited))
    case _ => rec
  }

  function OutsiderStep(rec: Rec, step: Step): Rec {
    match step
    case Outside(to) => if IsRefusal(to) || to == HandedToOrchestrator then Try(rec, to) else rec
    case ObserveDead(rd) =>
      if Honest(rec, rd) && ReadLiveness(rec, rd) == Dead then rec.(trail := rec.trail.(seenDead := true)) else rec
    case Reclaim =>
      if rec.lease == Held && rec.trail.seenDead && IsTerminal(rec.state) then rec.(lease := Released) else rec
    case _ => rec
  }

  predicate IsWorkerStep(step: Step) {
    step.WBootFail? || step.WLock? || step.WIdentify? || step.WDrift? || step.WRunning? || step.WChildStart? ||
    step.WChildEnd? || step.WChildNever? || step.WReceipt? || step.WFail? || step.WResult? || step.WEvidence? ||
    step.WHandoff? || step.WRaise? || step.WReleaseLease? || step.WExit? || step.WCrash?
  }

  predicate IsOutsiderStep(step: Step) {
    step.Outside? || step.ObserveDead? || step.Reclaim?
  }

  function Local(rec: Rec, step: Step): Rec {
    if IsOutsiderStep(step) then OutsiderStep(rec, step)
    else if !IsWorkerStep(step) then DispatcherStep(rec, step)
    else if rec.proc.alive then WorkerStep(rec, step)
    else rec
  }

  function Fresh(key: string, path: string, needsLease: bool, isWrite: bool): Rec {
    Rec(Ident(key, path, needsLease, isWrite), Created, NoLease, AtPreflight, Proc(NotSpawned, false, 0, ""),
        Trail(false, None, None, None, 0, false))
  }

  // store.admit: one run per dispatch key, for ever.
  predicate Known(c: Config, key: string) {
    exists r :: r in c && c[r].id.key == key
  }

  // store.acquire_lease: the unreleased row on this path, if any.
  predicate Conflict(c: Config, r: RunId)
    requires r in c
  {
    exists o :: o in c && o != r && c[o].lease == Held && c[o].id.path == c[r].id.path
  }

  // How one run answers one step. The protocol's own answer is `Local`; statements about sequences
  // of actions are proved for any machine that keeps the promises of `Sound`, so that their proofs
  // need not look inside a step.
  type Machine = (Rec, Step) -> Rec

  function Apply(m: Machine, c: Config, a: Action): Config {
    match a
    case Admit(id, key, path, needsLease, isWrite) =>
      if Known(c, key) || id in c then c else c[id := Fresh(key, path, needsLease, isWrite)]
    case Acquire(r) =>
      if r !in c || c[r].ladder != AtLease then c
      else if Conflict(c, r) then c[r := c[r].(ladder := AtConflict)]
      else c[r := c[r].(lease := Held, ladder := AtLeasedMark)]
    case Do(r, step) => if r in c then c[r := m(c[r], step)] else c
  }

  function Run(m: Machine, c: Config, acts: seq<Action>): Config {
    if acts == [] then c else Apply(m, Run(m, c, acts[..|acts| - 1]), acts[|acts| - 1])
  }

  // ---- the invariant --------------------------------------------------------------------------

  predicate Anonymous(s: Stage) {
    s == NotSpawned || s == Booted || s == Locked
  }

  predicate BeforeChild(s: Stage) {
    Anonymous(s) || s == Identified || s == Cleared
  }

  predicate BeforeReceipt(s: Stage) {
    BeforeChild(s) || s == ChildUp || s == ChildEnded || s == ChildNever
  }

  // A worker that has not yet performed its last act on the store.
  predicate Working(rec: Rec) {
    rec.proc.alive && rec.proc.stage != Unleased
  }

  ghost predicate LadderInv(rec: Rec) {
    var l := rec.ladder;
    (!rec.id.needsLease ==> rec.lease == NoLease) &&
    (rec.id.needsLease && (l == AtLeasedMark || l == AtDrift || l == AtDispatch || l == AtSpawn) ==>
       rec.lease == Held) &&
    (l == AtPreflight || l == AtGates || l == AtLease || l == AtConflict ==> rec.lease == NoLease) &&
    (l == AtLease || l == AtConflict || l == AtLeasedMark ==> rec.id.needsLease) &&
    (l == AtSpawn ==> !PreSpawn(rec.state)) &&
    (l == AtRecord ==> rec.proc.stage != NotSpawned) &&
    (rec.proc.stage != NotSpawned ==> (l == AtRecord || l == Gone) && !PreSpawn(rec.state))
  }

  ghost predicate WorkerInv(rec: Rec) {
    (rec.proc.stage == NotSpawned ==> !rec.trail.row && !rec.proc.alive) &&
    (rec.proc.stage != NotSpawned ==> rec.proc.pid > 0) &&
    (if Anonymous(rec.proc.stage) then rec.trail.pid == None
     else rec.trail.pid == Some(rec.proc.pid) && rec.trail.row) &&
    (rec.trail.seenDead ==> !rec.proc.alive && rec.trail.pid.Some?) &&
    (rec.proc.stage == Exited ==> !rec.proc.alive) &&
    rec.trail.children <= 1 &&
    (BeforeChild(rec.proc.stage) ==> rec.trail.children == 0) &&
    (rec.proc.stage == ChildUp || rec.proc.stage == ChildEnded || rec.proc.stage == ReceiptedRan ==>
       rec.trail.children == 1) &&
    (rec.proc.stage == ChildNever || rec.proc.stage == ReceiptedNever ==> rec.trail.children == 0) &&
    (BeforeReceipt(rec.proc.stage) ==> rec.trail.receipt == None) &&
    (rec.trail.receipt.Some? ==> (rec.trail.receipt.value.started <==> rec.trail.children == 1))
  }

  ghost predicate RecInv(rec: Rec) {
    LadderInv(rec) && WorkerInv(rec) && (Working(rec) && rec.id.needsLease ==> rec.lease == Held)
  }

  ghost predicate Inv(c: Config) {
    (forall r :: r in c ==> RecInv(c[r])) &&
    (forall r, s :: r in c && s in c && r != s ==> c[r].id.key != c[s].id.key) &&
    (forall r, s :: r in c && s in c && r != s && c[r].lease == Held && c[s].lease == Held
       ==> c[r].id.path != c[s].id.path)
  }

  // No step changes what a run is about, revives a lease, skips the legal graph, or starts more
  // than one child.
  ghost predicate Evolves(a: Rec, b: Rec) {
    b.id == a.id &&
    (b.state == a.state || CanTransition(a.state, b.state)) &&
    (a.lease == Released ==> b.lease == Released) && (a.lease == Held ==> b.lease != NoLease) &&
    (a.trail.row ==> b.trail.row) && (a.trail.pid.Some? ==> b.trail.pid == a.trail.pid) &&
    (a.trail.receipt.Some? ==> b.trail.receipt == a.trail.receipt && b.trail.children == a.trail.children) &&
    a.trail.children <= b.trail.children <= a.trail.children + 1
  }

  predicate IsBootStep(step: Step) {
    step.WBootFail? || step.WLock? || step.WIdentify? || step.WDrift? || step.WRunning? || step.WCrash?
  }

  predicate IsChildStep(step: Step) {
    step.WChildStart? || step.WChildNever? || step.WChildEnd? || step.WReceipt?
  }

  predicate IsCloseStep(step: Step) {
    step.WFail? || step.WRaise? || step.WReleaseLease? || step.WExit?
  }

  predicate IsResultStep(step: Step) {
    step.WResult? || step.WEvidence? || step.WHandoff?
  }

  lemma DispatcherStepKeepsInv(rec: Rec, step: Step)
    requires RecInv(rec) && !IsOutsiderStep(step) && !IsWorkerStep(step)
    ensures RecInv(DispatcherStep(rec, step))
  {
  }

  lemma BootStepKeepsInv(rec: Rec, step: Step)
    requires RecInv(rec) && rec.proc.alive && IsBootStep(step)
    ensures RecInv(WorkerStep(rec, step))
  {
  }

  lemma ChildStepKeepsInv(rec: Rec, step: Step)
    requires RecInv(rec) && rec.proc.alive && IsChildStep(step)
    ensures RecInv(WorkerStep(rec, step))
  {
  }

  predicate AfterReceipt(s: Stage) {
    s == ReceiptedRan || s == ReceiptedNever || s == Parsed || s == Evidenced
  }

  lemma FailKeepsInv(rec: Rec, to: ExecState)
    requires RecInv(rec) && AfterReceipt(rec.proc.stage) && IsTerminal(to)
    ensures RecInv(At(Try(rec, to), Finishing))
  {
  }

  lemma RaiseKeepsInv(rec: Rec)
    requires RecInv(rec) && InExecute(rec.proc.stage)
    ensures RecInv(At(rec, Finishing))
  {
  }

  lemma UnleaseKeepsInv(rec: Rec)
    requires RecInv(rec) && rec.proc.stage == Finishing
    ensures RecInv(At(rec, Unleased).(lease := Unhold(rec.lease)))
  {
  }

  lemma CloseStepKeepsInv(rec: Rec, step: Step)
    requires RecInv(rec) && rec.proc.alive && IsCloseStep(step)
    ensures RecInv(WorkerStep(rec, step))
  {
    if step.WFail? {
      if AfterReceipt(rec.proc.stage) && WorkerFailure(step.to) { FailKeepsInv(rec, step.to); }
    } else if step.WRaise? {
      if InExecute(rec.proc.stage) { RaiseKeepsInv(rec); }
    } else if step.WReleaseLease? && rec.proc.stage == Finishing {
      UnleaseKeepsInv(rec);
    }
  }

  lemma ResultKeepsInv(rec: Rec)
    requires RecInv(rec) && rec.proc.stage == ReceiptedRan
    ensures RecInv(Advance(rec, Running, ResultReceived, Parsed))
  {
  }

  lemma EvidenceKeepsInv(rec: Rec)
    requires RecInv(rec) && rec.proc.stage == Parsed
    ensures RecInv(Advance(rec, ResultReceived, EvidenceCollected, Evidenced))
  {
  }

  lemma HandoffKeepsInv(rec: Rec)
    requires RecInv(rec) && rec.proc.stage == Evidenced
    ensures RecInv(Advance(rec, EvidenceCollected, HandoffReady, Finishing))
  {
  }

  lemma ResultStepKeepsInv(rec: Rec, step: Step)
    requires RecInv(rec) && rec.proc.alive && IsResultStep(step)
    ensures RecInv(WorkerStep(rec, step))
  {
    if step.WResult? {
      if rec.proc.stage == ReceiptedRan { ResultKeepsInv(rec); }
    } else if step.WEvidence? {
      if rec.proc.stage == Parsed { EvidenceKeepsInv(rec); }
    } else if rec.proc.stage == Evidenced {
      HandoffKeepsInv(rec);
    }
  }

  lemma OutsiderStepKeepsInv(rec: Rec, step: Step)
    requires RecInv(rec) && IsOutsiderStep(step)
    ensures RecInv(OutsiderStep(rec, step))
  {
    if step.ObserveDead? && Honest(rec, step.rd) && ReadLiveness(rec, step.rd) == Dead {
      DeadForcesRecordedPid(step.rd, rec.trail.pid, rec.trail.stamp);
    }
  }

  ghost predicate MovesOn(rec: Rec, next: Rec) {
    Evolves(rec, next) && (next.lease == Held ==> rec.lease == Held)
  }

  lemma DispatcherStepEvolves(rec: Rec, step: Step)
    ensures MovesOn(rec, DispatcherStep(rec, step))
  {
  }

  lemma WorkerStepEvolves(rec: Rec, step: Step)
    requires RecInv(rec)
    ensures MovesOn(rec, WorkerStep(rec, step))
  {
  }

  lemma LocalEvolves(rec: Rec, step: Step)
    requires RecInv(rec)
    ensures MovesOn(rec, Local(rec, step))
  {
    if IsOutsiderStep(step) {}
    else if !IsWorkerStep(step) { DispatcherStepEvolves(rec, step); }
    else if rec.proc.alive { WorkerStepEvolves(rec, step); }
  }

  lemma LocalKeepsInv(rec: Rec, step: Step)
    requires RecInv(rec)
    ensures RecInv(Local(rec, step))
  {
    if IsOutsiderStep(step) { OutsiderStepKeepsInv(rec, step); }
    else if !IsWorkerStep(step) { DispatcherStepKeepsInv(rec, step); }
    else if rec.proc.alive {
      if IsBootStep(step) { BootStepKeepsInv(rec, step); }
      else if IsChildStep(step) { ChildStepKeepsInv(rec, step); }
      else if IsCloseStep(step) { CloseStepKeepsInv(rec, step); }
      else { ResultStepKeepsInv(rec, step); }
    }
  }

  predicate NeverSpawns(rec: Rec) {
    rec.proc.stage == NotSpawned &&
    (rec.ladder == AtDriftRefusal || rec.ladder == AtConflict || rec.ladder == Gone)
  }

  lemma NeverSpawnsStays(rec: Rec, step: Step)
    requires RecInv(rec) && NeverSpawns(rec)
    ensures NeverSpawns(Local(rec, step))
  {
  }

  ghost predicate StepSound(m: Machine, rec: Rec, step: Step) {
    RecInv(m(rec, step)) && MovesOn(rec, m(rec, step)) &&
    (NeverSpawns(rec) ==> NeverSpawns(m(rec, step)))
  }

  ghost predicate Sound(m: Machine) {
    forall rec, step :: RecInv(rec) ==> StepSound(m, rec, step)
  }

  lemma {:induction false} LocalIsSound()
    ensures Sound(Local)
  {
    forall rec, step | RecInv(rec) ensures StepSound(Local, rec, step) {
      LocalKeepsInv(rec, step);
      LocalEvolves(rec, step);
      if NeverSpawns(rec) { NeverSpawnsStays(rec, step); }
    }
  }

  lemma UpdateKeepsInv(c: Config, r: RunId, next: Rec)
    requires Inv(c) && r in c && RecInv(next) && next.id == c[r].id && (next.lease == Held ==> c[r].lease == Held)
    ensures Inv(c[r := next])
  {
  }

  lemma AdmitKeepsInv(c: Config, id: RunId, key: string, path: string, needsLease: bool, isWrite: bool)
    requires Inv(c) && !Known(c, key) && id !in c
    ensures Inv(c[id := Fresh(key, path, needsLease, isWrite)])
  {
  }

  lemma AcquireKeepsInv(c: Config, r: RunId)
    requires Inv(c) && r in c && c[r].ladder == AtLease
    ensures Inv(if Conflict(c, r) then c[r := c[r].(ladder := AtConflict)]
                else c[r := c[r].(lease := Held, ladder := AtLeasedMark)])
  {
    AcquireKeepsRecInv(c[r]);
    if Conflict(c, r) { UpdateKeepsInv(c, r, c[r].(ladder := AtConflict)); }
    else { HoldKeepsInv(c, r, c[r].(lease := Held, ladder := AtLeasedMark)); }
  }

  lemma AcquireKeepsRecInv(rec: Rec)
    requires RecInv(rec) && rec.ladder == AtLease
    ensures RecInv(rec.(ladder := AtConflict)) && RecInv(rec.(lease := Held, ladder := AtLeasedMark))
  {
  }

  lemma HoldKeepsInv(c: Config, r: RunId, next: Rec)
    requires Inv(c) && r in c && RecInv(next) && next.id == c[r].id && !Conflict(c, r)
    ensures Inv(c[r := next])
  {
  }

  lemma ApplyKeepsInv(m: Machine, c: Config, a: Action)
    requires Sound(m) && Inv(c)
    ensures Inv(Apply(m, c, a))
  {
    match a
    case Admit(id, key, path, needsLease, isWrite) =>
      if !Known(c, key) && id !in c { AdmitKeepsInv(c, id, key, path, needsLease, isWrite); }
    case Acquire(r) => if r in c && c[r].ladder == AtLease { AcquireKeepsInv(c, r); }
    case Do(r, step) =>
      if r in c {
        assert StepSound(m, c[r], step);
        UpdateKeepsInv(c, r, m(c[r], step));
      }
  }

  lemma {:induction false} RunKeepsInv(m: Machine, c: Config, acts: seq<Action>)
    requires Sound(m) && Inv(c)
    ensures Inv(Run(m, c, acts))
  {
    if acts != [] {
      RunKeepsInv(m, c, acts[..|acts| - 1]);
      ApplyKeepsInv(m, Run(m, c, acts[..|acts| - 1]), acts[|acts| - 1]);
    }
  }

  // ---- what holds of every behaviour ----------------------------------------------------------

  // Some sequence of actions leads here from the empty store.
  ghost predicate Reachable(c: Config) {
    exists acts :: c == Run(Local, map[], acts)
  }

  lemma ReachableInv(c: Config)
    requires Reachable(c)
    ensures Inv(c)
  {
    var acts :| c == Run(Local, map[], acts);
    LocalIsSound();
    RunKeepsInv(Local, map[], acts);
  }

  // ONE WRITER PER WORKTREE. However dispatchers, workers, reconcilers and reapers interleave and
  // wherever they die, two workers that have not finished never share a worktree path, when each
  // of their runs needs the lease.
  lemma OneLiveWriterPerWorktree(c: Config, r: RunId, s: RunId)
    requires Reachable(c) && r in c && s in c && r != s
    requires Working(c[r]) && c[r].id.needsLease && Working(c[s]) && c[s].id.needsLease
    ensures c[r].id.path != c[s].id.path
  {
    ReachableInv(c);
  }

  // ONE CHILD PER DISPATCH KEY. A key has one run for ever, and that run starts at most one child.
  lemma OneChildPerKey(c: Config, r: RunId, s: RunId)
    requires Reachable(c) && r in c && s in c && c[r].id.key == c[s].id.key
    ensures r == s && c[r].trail.children <= 1
  {
    ReachableInv(c);
  }

  ghost predicate Moves(a: Rec, b: Rec) {
    Evolves(a, b) && (NeverSpawns(a) ==> NeverSpawns(b))
  }

  lemma AcquireMoves(rec: Rec)
    requires rec.ladder == AtLease && rec.lease == NoLease
    ensures Moves(rec, rec) && Moves(rec, rec.(ladder := AtConflict)) &&
            Moves(rec, rec.(lease := Held, ladder := AtLeasedMark))
  {
  }

  lemma DoMoves(m: Machine, rec: Rec, step: Step)
    requires Sound(m) && RecInv(rec)
    ensures Moves(rec, m(rec, step))
  {
    assert StepSound(m, rec, step);
  }

  lemma StandingMoves(rec: Rec)
    ensures Moves(rec, rec)
  {
  }

  lemma {:induction false} ApplyMoves(m: Machine, c: Config, a: Action, r: RunId)
    requires Sound(m) && Inv(c) && r in c
    ensures r in Apply(m, c, a) && Moves(c[r], Apply(m, c, a)[r])
  {
    var rec := c[r];
    assert RecInv(rec);
    if a == Acquire(r) {
      if rec.ladder == AtLease { AcquireMoves(rec); } else { StandingMoves(rec); }
    } else if a.Do? && a.r == r {
      DoMoves(m, rec, a.step);
    } else {
      StandingMoves(rec);
      OthersStand(m, c, a, r);
    }
  }

  lemma OthersStand(m: Machine, c: Config, a: Action, r: RunId)
    requires r in c && !((a.Do? || a.Acquire?) && a.r == r)
    ensures r in Apply(m, c, a) && Apply(m, c, a)[r] == c[r]
  {
  }

  // Everything about a run that its future cannot change.
  ghost predicate Later(a: Rec, b: Rec) {
    b.id == a.id && Rank(a.state) <= Rank(b.state) && SameOrFinal(a.state, b.state) &&
    (a.trail.row ==> b.trail.row) && (a.trail.pid.Some? ==> b.trail.pid == a.trail.pid) &&
    (a.trail.receipt.Some? ==> b.trail.receipt == a.trail.receipt && b.trail.children == a.trail.children)
  }

  ghost predicate SameOrFinal(a: ExecState, b: ExecState) {
    a == b || Final(a, b)
  }

  lemma LaterEvolves(a: Rec, b: Rec, d: Rec)
    requires Later(a, b) && Evolves(b, d)
    ensures Later(a, d)
    ensures Rank(b.state) + (if d.state == b.state then 0 else 1) <= Rank(d.state)
  {
  }

  // How many of the actions changed the state of run r.
  ghost function Changes(m: Machine, c: Config, acts: seq<Action>, r: RunId): nat {
    if acts == [] then 0
    else
      var before := Run(m, c, acts[..|acts| - 1]);
      var after := Run(m, c, acts);
      Changes(m, c, acts[..|acts| - 1], r) +
      if r in before && r in after && before[r].state != after[r].state then 1 else 0
  }

  lemma {:induction false} LivesGoOn(m: Machine, c: Config, acts: seq<Action>, r: RunId)
    requires Sound(m) && Inv(c) && r in c
    ensures r in Run(m, c, acts) && Later(c[r], Run(m, c, acts)[r])
  {
    if acts != [] {
      var front := acts[..|acts| - 1];
      LivesGoOn(m, c, front, r);
      RunKeepsInv(m, c, front);
      ApplyMoves(m, Run(m, c, front), acts[|acts| - 1], r);
      LaterEvolves(c[r], Run(m, c, front)[r], Run(m, c, acts)[r]);
    }
  }

  lemma {:induction false} StateClimbs(m: Machine, c: Config, a: Action, r: RunId)
    requires Sound(m) && Inv(c) && r in c
    ensures r in Apply(m, c, a)
    ensures var s, t := c[r].state, Apply(m, c, a)[r].state; Rank(s) + (if s == t then 0 else 1) <= Rank(t)
  {
    ApplyMoves(m, c, a, r);
    LaterEvolves(c[r], c[r], Apply(m, c, a)[r]);
  }

  lemma {:induction false} ChangesAreClimbs(m: Machine, c: Config, acts: seq<Action>, r: RunId)
    requires Sound(m) && Inv(c) && r in c
    ensures r in Run(m, c, acts)
    ensures Rank(c[r].state) + Changes(m, c, acts, r) <= Rank(Run(m, c, acts)[r].state)
  {
    if acts != [] {
      var front := acts[..|acts| - 1];
      ChangesAreClimbs(m, c, front, r);
      RunKeepsInv(m, c, front);
      StateClimbs(m, Run(m, c, front), acts[|acts| - 1], r);
    }
  }

  // BOUNDED, MONOTONE LIVES, AND NO WAY BACK. Whatever happens next to a run, its state only climbs,
  // at most eight times in all; and once terminal, the ambiguous state included, it is terminal for
  // ever, the only further change being the delivery of a ready handoff.
  lemma {:induction false} LivesClimb(m: Machine, c: Config, acts: seq<Action>, r: RunId)
    requires Sound(m) && Inv(c) && r in c
    ensures r in Run(m, c, acts) && Later(c[r], Run(m, c, acts)[r])
    ensures Rank(c[r].state) + Changes(m, c, acts, r) <= Rank(Run(m, c, acts)[r].state) <= 8
  {
    LivesGoOn(m, c, acts, r);
    ChangesAreClimbs(m, c, acts, r);
  }

  // A LEASE LEAVES ITS HOLDER IN THREE WAYS ONLY: refused drift before any process exists, the
  // worker's own last act, or a reclaim on a terminal run whose worker process is gone.
  lemma LeaseLeavesThreeWays(rec: Rec, step: Step)
    requires RecInv(rec) && rec.lease == Held && Local(rec, step).lease != Held
    ensures Local(rec, step).lease == Released
    ensures match step
      case DriftFound => rec.proc.stage == NotSpawned && Local(rec, step).ladder == AtDriftRefusal
      case WReleaseLease => rec.proc.alive && Local(rec, step).proc.stage == Unleased
      case Reclaim => IsTerminal(rec.state) && rec.proc.stage != NotSpawned && !rec.proc.alive
      case _ => false
  {
  }

  // A run whose dispatcher refused drift never gets a process, so its worktree is free for good.
  lemma {:induction false} RefusedDriftNeverSpawns(m: Machine, c: Config, acts: seq<Action>, r: RunId)
    requires Sound(m) && Inv(c) && r in c && NeverSpawns(c[r])
    ensures r in Run(m, c, acts) && NeverSpawns(Run(m, c, acts)[r])
  {
    if acts != [] {
      var front := acts[..|acts| - 1];
      RefusedDriftNeverSpawns(m, c, front, r);
      RunKeepsInv(m, c, front);
      ApplyMoves(m, Run(m, c, front), acts[|acts| - 1], r);
    }
  }

  // One configuration can become another.
  ghost predicate Leads(c: Config, d: Config) {
    exists acts :: d == Run(Local, c, acts)
  }

  lemma LeadsOn(c: Config, d: Config, r: RunId)
    requires Inv(c) && Leads(c, d) && r in c
    ensures Inv(d) && r in d && Later(c[r], d[r])
  {
    var acts :| d == Run(Local, c, acts);
    LocalIsSound();
    RunKeepsInv(Local, c, acts);
    LivesGoOn(Local, c, acts, r);
  }

  lemma {:induction false} RunConcat(m: Machine, c: Config, xs: seq<Action>, ys: seq<Action>)
    ensures Run(m, c, xs + ys) == Run(m, Run(m, c, xs), ys)
    decreases ys
  {
    if ys == [] {
      assert xs + ys == xs;
    } else {
      assert (xs + ys)[..|xs + ys| - 1] == xs + ys[..|ys| - 1];
      RunConcat(m, c, xs, ys[..|ys| - 1]);
    }
  }
}
