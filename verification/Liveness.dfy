// src/quaestor/core/proc.py (classify_liveness, observe) and src/quaestor/core/lease.py.
module Liveness {
  import opened Wrappers
  import opened Domain

  datatype LockState = LockHeld | LockFree | LockAbsent | LockUnknown
  datatype Verdict = Alive | Dead | Unknown

  // A falsy creation time (None or "") is None here: the source tests it by truth value.
  type Stamp = string

  function ClassifyLiveness(lock: LockState, recordedPid: Option<int>, recordedStamp: Option<Stamp>,
                            observedStamp: Option<Stamp>, pidPresent: Option<bool>): Verdict
  {
    if lock == LockHeld then Alive
    else if lock == LockUnknown then Unknown
    else if lock == LockAbsent then
      if pidPresent == Some(true) && recordedStamp.Some? && observedStamp.Some?
         && recordedStamp == observedStamp then Alive
      else Unknown
    else if recordedPid.None? then Unknown
    else if pidPresent == Some(false) then Dead
    else if recordedStamp.Some? && observedStamp.Some? then
      if recordedStamp != observedStamp then Dead else Unknown
    else Unknown
  }

  // What one call of `observe` read, in the order it reads: the lock, the creation time, the pid.
  datatype Reading = Reading(lock: LockState, stamp: Option<Stamp>, present: Option<bool>)

  // `observe` asks the process table only about a truthy (non-zero) recorded pid.
  predicate Asked(pid: Option<int>, rd: Reading) {
    pid.None? || pid == Some(0) ==> rd.stamp.None? && rd.present.None?
  }

  function Observe(rd: Reading, pid: Option<int>, stamp: Option<Stamp>): Verdict {
    ClassifyLiveness(rd.lock, pid, stamp, rd.stamp, rd.present)
  }

  // DEAD needs two things at once: a free lock, and a recorded non-zero pid contradicted by the
  // process table. So a worker that never recorded itself is never called dead.
  lemma DeadForcesRecordedPid(rd: Reading, pid: Option<int>, stamp: Option<Stamp>)
    requires Asked(pid, rd)
    ensures Observe(rd, pid, stamp) == Dead <==>
              rd.lock == LockFree && pid.Some? && pid != Some(0) &&
              (rd.present == Some(false) ||
               (rd.stamp.Some? && stamp.Some? && rd.stamp != stamp))
  {
  }

  // ALIVE needs the lock held, or no lock at all and the very process that was recorded; everything else is
  // UNKNOWN, a failed or contradicted reading never making a run look alive.
  lemma AliveExactly(rd: Reading, pid: Option<int>, stamp: Option<Stamp>)
    requires Asked(pid, rd)
    ensures Observe(rd, pid, stamp) == Alive <==>
              rd.lock == LockHeld ||
              (rd.lock == LockAbsent && pid.Some? && pid != Some(0) && rd.present == Some(true) &&
               exists s :: stamp == Some(s) && rd.stamp == Some(s))
    ensures Observe(rd, pid, stamp) == Unknown <==> Observe(rd, pid, stamp) != Alive && Observe(rd, pid, stamp) != Dead
  {
  }

  // The machine over time: at each instant, which pids exist and when each was created.
  type Table = map<int, Stamp>

  // A worker (pid, stamp) lives over the instants [born, died) and occupies its pid throughout.
  ghost predicate Occupies(table: nat -> Table, pid: int, stamp: Stamp, born: nat, died: nat) {
    forall t: nat :: born <= t < died ==> pid in table(t) && table(t)[pid] == stamp
  }

  // The two process-table reads are truthful at the instants they are taken; either may fail.
  ghost predicate TruthfulTable(table: nat -> Table, pid: int, rd: Reading, t1: nat, t2: nat) {
    (rd.stamp.Some? ==> pid in table(t1) && table(t1)[pid] == rd.stamp.value) &&
    (rd.present == Some(false) ==> pid !in table(t2))
  }

  // DEAD is sound under pid reuse if EITHER signal is honest: the process table told the truth, or
  // a free lock means the holder is gone. The three reads need not be simultaneous.
  lemma DeadIsSound(table: nat -> Table, pid: int, stamp: Stamp, born: nat, died: nat,
                    rd: Reading, t0: nat, t1: nat, t2: nat)
    requires born <= t0 <= t1 <= t2
    requires Asked(Some(pid), rd)
    requires Observe(rd, Some(pid), Some(stamp)) == Dead
    requires (Occupies(table, pid, stamp, born, died) && TruthfulTable(table, pid, rd, t1, t2)) ||
             (rd.lock == LockFree ==> died <= t0)
    ensures died <= t2
  {
  }

  // With neither signal honest the verdict can be wrong: an existing process whose table entry
  // cannot be read (reported as absent) and whose lock is not yet taken reads as dead.
  lemma DeadNeedsAnHonestSignal(table: nat -> Table, pid: int, stamp: Stamp) returns (rd: Reading)
    requires pid != 0 && Occupies(table, pid, stamp, 0, 10)
    ensures Asked(Some(pid), rd) && Observe(rd, Some(pid), Some(stamp)) == Dead
    ensures !TruthfulTable(table, pid, rd, 1, 2)
  {
    rd := Reading(LockFree, None, Some(false));
    assert pid in table(2);
  }

  // One observation of one worker: its life, and three reads in order.
  datatype Watch = Watch(pid: int, stamp: Stamp, born: nat, died: nat, lockRead: nat, stampRead: nat, pidRead: nat)

  ghost predicate Watching(table: nat -> Table, w: Watch) {
    w.born <= w.lockRead <= w.stampRead <= w.pidRead && w.pid != 0 && Occupies(table, w.pid, w.stamp, w.born, w.died)
  }

  // Each signal trusted told the truth.
  ghost predicate Told(lockTrusted: bool, tableTrusted: bool, table: nat -> Table, w: Watch, rd: Reading) {
    (lockTrusted && rd.lock == LockFree ==> w.died <= w.lockRead) &&
    (tableTrusted ==> TruthfulTable(table, w.pid, rd, w.stampRead, w.pidRead))
  }

  // Then DEAD means that the worker was gone at the last read.
  ghost predicate SoundOn(lockTrusted: bool, tableTrusted: bool, table: nat -> Table, w: Watch, rd: Reading) {
    (Watching(table, w) && Told(lockTrusted, tableTrusted, table, w, rd) &&
     Observe(rd, Some(w.pid), Some(w.stamp)) == Dead) ==> w.died <= w.pidRead
  }

  // WHEN DEAD IS SOUND, over every history of the process table and every reading: exactly when the lock or
  // the process table can be trusted.
  lemma {:induction false} DeadIsSoundExactly(lockTrusted: bool, tableTrusted: bool)
    ensures (forall table, w, rd :: SoundOn(lockTrusted, tableTrusted, table, w, rd)) <==> (lockTrusted || tableTrusted)
  {
    if lockTrusted || tableTrusted {
      forall table: nat -> Table, w, rd ensures SoundOn(lockTrusted, tableTrusted, table, w, rd) {
        if Watching(table, w) && Told(lockTrusted, tableTrusted, table, w, rd) &&
           Observe(rd, Some(w.pid), Some(w.stamp)) == Dead
        {
          DeadIsSound(table, w.pid, w.stamp, w.born, w.died, rd, w.lockRead, w.stampRead, w.pidRead);
        }
      }
    } else {
      var table := (t: nat) => map[1 := "t"];
      var rd := DeadNeedsAnHonestSignal(table, 1, "t");
      assert !SoundOn(lockTrusted, tableTrusted, table, Watch(1, "t", 0, 10, 0, 1, 2), rd);
    }
  }

  // ---- lease.py ------------------------------------------------------------------------------

  datatype Acquire = Grant | AlreadyHeldByThisRun | RefuseConflict(holder: string)
  datatype LeaseRow = LeaseRow(holder: string, released: bool)

  function DecideAcquire(runId: string, active: Option<LeaseRow>): Acquire {
    match active
    case None => Grant
    case Some(row) => if row.holder == runId then AlreadyHeldByThisRun else RefuseConflict(row.holder)
  }

  predicate LivenessPermitsReclaim(live: Verdict) {
    live == Dead
  }

  predicate MayReclaim(active: Option<LeaseRow>, holderState: ExecState, live: Verdict) {
    active.Some? && LivenessPermitsReclaim(live) && IsTerminal(holderState)
  }

  // Granted exactly on a free path; a run is told that it holds its own, and who holds another's.
  lemma AcquireExactly(runId: string, active: Option<LeaseRow>)
    ensures DecideAcquire(runId, active) == Grant <==> active == None
    ensures DecideAcquire(runId, active) == AlreadyHeldByThisRun <==> active.Some? && active.value.holder == runId
    ensures forall other ::
      DecideAcquire(runId, active) == RefuseConflict(other) <==>
      active.Some? && active.value.holder == other && other != runId
  {
  }

  // A lease is taken from its holder only on proof of death, and only when its run is over.
  lemma ReclaimExactly(active: Option<LeaseRow>, state: ExecState, live: Verdict)
    ensures MayReclaim(active, state, live) <==> active.Some? && live == Dead && !IsActive(state)
  {
  }
}
