// src/quaestor/core/reconcile.py: the pure classification of a run that may have lost its worker.
module Reconcile {
  import opened Wrappers
  import opened Domain
  import opened Liveness

  datatype Classification =
    | StillRunning | ProcessFailed | WorkerLost | Cut | AmbiguousWrite | TerminalAlready | NeverDispatched

  datatype Authority = NoAuthority | GptOrchestrator | Owner

  // The exit receipt: did the child start, and its exit code when it is an integer.
  datatype Receipt = Receipt(started: bool, code: Option<int>)

  datatype Reconciliation = Reconciliation(verdict: Classification, autoRedispatch: bool,
                                           recovery: Authority, target: Option<ExecState>)

  predicate PreSpawn(s: ExecState) {
    s == Created || s == Preflight || s == Leased
  }

  // They are the states with a legal history still to DISPATCHED.
  lemma PreSpawnExactly(s: ExecState)
    ensures PreSpawn(s) <==>
            exists h: seq<ExecState> :: LegalHistory(h) && |h| > 1 && h[0] == s && h[|h| - 1] == Dispatched
  {
    if PreSpawn(s) {
      var h := if s == Created then [s, Preflight, Dispatched] else [s, Dispatched];
      assert LegalHistory(h) && |h| > 1 && h[0] == s && h[|h| - 1] == Dispatched;
    }
    forall h: seq<ExecState> | LegalHistory(h) && |h| > 1 && h[0] == s && h[|h| - 1] == Dispatched ensures PreSpawn(s) {
      HistoryClimbs(h, 0, |h| - 1);
    }
  }

  function Classify(state: ExecState, isWrite: bool, live: Verdict, workerStarted: bool,
                    receipt: Option<Receipt>, resultValid: Option<bool>, observedChange: Option<bool>,
                    spawnRecorded: bool): Reconciliation
  {
    if IsTerminal(state) then
      Reconciliation(TerminalAlready, false, NoAuthority, None)
    else if !spawnRecorded && PreSpawn(state) && receipt.None? then
      Reconciliation(NeverDispatched, true, GptOrchestrator, None)
    else if live == Alive then
      Reconciliation(StillRunning, false, NoAuthority, None)
    else if receipt.Some? then
      if !receipt.value.started then
        Reconciliation(WorkerLost, true, GptOrchestrator, Some(WorkerFailed))
      else if resultValid == Some(true) then
        Reconciliation(Cut, false, GptOrchestrator, Some(Interrupted))
      else if receipt.value.code.Some? && receipt.value.code.value != 0 then
        Reconciliation(ProcessFailed, false, GptOrchestrator, Some(ClaudeFailed))
      else if isWrite || observedChange == Some(true) then
        Reconciliation(AmbiguousWrite, false, GptOrchestrator, Some(AmbiguousExecution))
      else
        Reconciliation(Cut, false, GptOrchestrator, Some(Interrupted))
    else if live == Unknown then
      Reconciliation(AmbiguousWrite, false, GptOrchestrator, Some(AmbiguousExecution))
    else if !workerStarted then
      Reconciliation(WorkerLost, true, GptOrchestrator, Some(WorkerFailed))
    else if isWrite || observedChange == Some(true) then
      Reconciliation(AmbiguousWrite, false, Owner, Some(AmbiguousExecution))
    else
      Reconciliation(Cut, false, GptOrchestrator, Some(Interrupted))
  }

  // ---- what the decision comes to ------------------------------------------------------------------

  predicate Nonzero(receipt: Receipt) {
    receipt.code.Some? && receipt.code.value != 0
  }

  predicate MayHaveWritten(isWrite: bool, observedChange: Option<bool>) {
    isWrite || observedChange == Some(true)
  }

  // A run to be judged: not over, not one that was never handed to a worker, its worker not alive.
  predicate Fallen(state: ExecState, live: Verdict, receipt: Option<Receipt>, spawnRecorded: bool) {
    IsActive(state) && live != Alive && !Unborn(state, receipt, spawnRecorded)
  }

  // The child ran, and neither a valid result nor a failure of its own settles what it did.
  predicate Unsettled(receipt: Receipt, resultValid: Option<bool>) {
    receipt.started && resultValid != Some(true) && !Nonzero(receipt)
  }

  // Never handed to a worker.
  predicate Unborn(state: ExecState, receipt: Option<Receipt>, spawnRecorded: bool) {
    PreSpawn(state) && !spawnRecorded && receipt.None?
  }

  // Each verdict on a fallen run, exactly when it is given.
  predicate NamesTheFall(wrote: bool, live: Verdict, workerStarted: bool, receipt: Option<Receipt>,
                         resultValid: Option<bool>, verdict: Classification)
  {
    (verdict == WorkerLost <==> if receipt.Some? then !receipt.value.started else live == Dead && !workerStarted) &&
    (verdict == ProcessFailed <==>
       receipt.Some? && receipt.value.started && resultValid != Some(true) && Nonzero(receipt.value)) &&
    (verdict == AmbiguousWrite <==>
       if receipt.Some? then wrote && Unsettled(receipt.value, resultValid)
       else live == Unknown || (workerStarted && wrote)) &&
    (verdict == Cut <==>
       if receipt.None? then !wrote && live == Dead && workerStarted
       else receipt.value.started && (resultValid == Some(true) || (!wrote && Unsettled(receipt.value, resultValid))))
  }

  // The state, the licence and the authority that go with a verdict.
  predicate Follows(live: Verdict, receipt: Option<Receipt>, rec: Reconciliation) {
    rec.target == TargetOf(rec.verdict) &&
    (rec.autoRedispatch <==> rec.verdict == WorkerLost || rec.verdict == NeverDispatched) &&
    (rec.recovery == NoAuthority <==> rec.verdict == TerminalAlready || rec.verdict == StillRunning) &&
    (rec.recovery == Owner <==> rec.verdict == AmbiguousWrite && receipt.None? && live == Dead)
  }

  // Each verdict, exactly when it is given, and what goes with it.
  predicate Decides(state: ExecState, isWrite: bool, live: Verdict, workerStarted: bool, receipt: Option<Receipt>,
                    resultValid: Option<bool>, observedChange: Option<bool>, spawnRecorded: bool, rec: Reconciliation)
  {
    (rec.verdict == TerminalAlready <==> IsTerminal(state)) &&
    (rec.verdict == NeverDispatched <==> Unborn(state, receipt, spawnRecorded)) &&
    (rec.verdict == StillRunning <==> IsActive(state) && !Unborn(state, receipt, spawnRecorded) && live == Alive) &&
    (Fallen(state, live, receipt, spawnRecorded) ==>
       NamesTheFall(MayHaveWritten(isWrite, observedChange), live, workerStarted, receipt, resultValid, rec.verdict)) &&
    Follows(live, receipt, rec)
  }

  // STATE_FOR.
  function TargetOf(verdict: Classification): Option<ExecState> {
    match verdict
    case WorkerLost => Some(WorkerFailed)
    case ProcessFailed => Some(ClaudeFailed)
    case Cut => Some(Interrupted)
    case AmbiguousWrite => Some(AmbiguousExecution)
    case _ => None
  }

  lemma FallIsNamed(state: ExecState, isWrite: bool, live: Verdict, workerStarted: bool, receipt: Option<Receipt>,
                    resultValid: Option<bool>, observedChange: Option<bool>, spawnRecorded: bool)
    requires Fallen(state, live, receipt, spawnRecorded)
    ensures NamesTheFall(MayHaveWritten(isWrite, observedChange), live, workerStarted, receipt, resultValid,
                         Classify(state, isWrite, live, workerStarted, receipt, resultValid, observedChange,
                                  spawnRecorded).verdict)
  {
  }

  lemma VerdictFollows(state: ExecState, isWrite: bool, live: Verdict, workerStarted: bool, receipt: Option<Receipt>,
                       resultValid: Option<bool>, observedChange: Option<bool>, spawnRecorded: bool)
    ensures Follows(live, receipt,
                    Classify(state, isWrite, live, workerStarted, receipt, resultValid, observedChange, spawnRecorded))
  {
  }

  lemma StandingIsNamed(state: ExecState, isWrite: bool, live: Verdict, workerStarted: bool, receipt: Option<Receipt>,
                        resultValid: Option<bool>, observedChange: Option<bool>, spawnRecorded: bool)
    ensures var verdict := Classify(state, isWrite, live, workerStarted, receipt, resultValid, observedChange,
                                    spawnRecorded).verdict;
      (verdict == TerminalAlready <==> IsTerminal(state)) &&
      (verdict == NeverDispatched <==> Unborn(state, receipt, spawnRecorded)) &&
      (verdict == StillRunning <==> IsActive(state) && !Unborn(state, receipt, spawnRecorded) && live == Alive)
  {
  }

  lemma ClassifyDecides(state: ExecState, isWrite: bool, live: Verdict, workerStarted: bool, receipt: Option<Receipt>,
                        resultValid: Option<bool>, observedChange: Option<bool>, spawnRecorded: bool,
                        rec: Reconciliation)
    requires rec ==
      Classify(state, isWrite, live, workerStarted, receipt, resultValid, observedChange, spawnRecorded)
    ensures Decides(state, isWrite, live, workerStarted, receipt, resultValid, observedChange, spawnRecorded, rec)
  {
    VerdictFollows(state, isWrite, live, workerStarted, receipt, resultValid, observedChange, spawnRecorded);
    StandingIsNamed(state, isWrite, live, workerStarted, receipt, resultValid, observedChange, spawnRecorded);
    if Fallen(state, live, receipt, spawnRecorded) {
      FallIsNamed(state, isWrite, live, workerStarted, receipt, resultValid, observedChange, spawnRecorded);
    }
  }
}
