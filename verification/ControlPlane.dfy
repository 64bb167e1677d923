// The imperative half of the run protocol: the store's rows (core/store.py) as mutable tables, the
// dispatch ladder (core/dispatcher.py) and reconcile_run (core/reconcile.py) as methods over them.
// `facts` is the ghost half of a run's record: where its dispatcher stands, its process. The last
// lemmas tie what the methods compute to the actions of RunProtocol.
module ControlPlane {
  import opened Wrappers
  import opened Domain
  import opened Liveness
  import opened Reconcile
  import opened RunProtocol
  import opened Verdicts

  // The rows of one run: attempt, lease, worker, exit receipt.
  datatype Rows = Rows(id: Ident, state: ExecState, lease: Lease, worker: bool, pid: Option<int>,
                       stamp: Option<Stamp>, receipt: Option<Receipt>)

  datatype Facts = Facts(ladder: Ladder, proc: Proc, children: nat, seenDead: bool)

  datatype Outcome =
    | Duplicate(existing: RunId, state: ExecState)
    | Refused(state: ExecState)
    | Raised                       // a guarded transition was refused: the dispatcher stops
    | Admitted(spawned: bool)

  function Join(r: Rows, f: Facts): Rec {
    Rec(r.id, r.state, r.lease, f.ladder, f.proc,
        Trail(r.worker, r.pid, r.stamp, r.receipt, f.children, f.seenDead))
  }

  function NewRows(id: Ident): Rows {
    Rows(id, Created, NoLease, false, None, None, None)
  }

  const NOBODY := Proc(NotSpawned, false, 0, "")

  // An unreleased lease row on this path.
  predicate Taken(rows: map<RunId, Rows>, path: string) {
    exists o :: o in rows && rows[o].lease == Held && rows[o].id.path == path
  }

  // The unique index on unreleased leases.
  predicate OneHolder(rows: map<RunId, Rows>) {
    forall r, s :: r in rows && s in rows && r != s && rows[r].lease == Held && rows[s].lease == Held ==>
      rows[r].id.path != rows[s].id.path
  }

  class Store {
    var rows: map<RunId, Rows>
    ghost var facts: map<RunId, Facts>

    ghost predicate Valid()
      reads this
    {
      facts.Keys == rows.Keys
    }

    constructor ()
      ensures Valid() && rows == map[]
    {
      rows, facts := map[], map[];
    }

    // store.admit: the run of this key, terminal or not, or a new one.
    method Admit(rid: RunId, id: Ident) returns (created: bool, run: RunId)
      requires Valid() && rid !in rows
      modifies this
      ensures Valid()
      ensures created <==> forall r :: r in old(rows) ==> old(rows)[r].id.key != id.key
      ensures created ==> run == rid && rows == old(rows)[rid := NewRows(id)]
                          && facts == old(facts)[rid := Facts(AtPreflight, NOBODY, 0, false)]
      ensures !created ==> run in rows && rows[run].id.key == id.key && rows == old(rows) && facts == old(facts)
    {
      if r :| r in rows && rows[r].id.key == id.key {
        return false, r;
      }
      rows := rows[rid := NewRows(id)];
      facts := facts[rid := Facts(AtPreflight, NOBODY, 0, false)];
      return true, rid;
    }

    // store.transition: the two guards, then the write.
    method Transition(r: RunId, to: ExecState, from: Option<ExecState>) returns (ok: bool)
      requires r in rows
      modifies this`rows
      ensures ok <==> (from.None? || old(rows)[r].state == from.value) && CanTransition(old(rows)[r].state, to)
      ensures rows == if ok then old(rows)[r := old(rows)[r].(state := to)] else old(rows)
    {
      var src := rows[r].state;
      if from.Some? && src != from.value { return false; }
      if !CanTransition(src, to) { return false; }
      rows := rows[r := rows[r].(state := to)];
      return true;
    }

    // store.acquire_lease: what lease.decide_acquire says of the unreleased row on this path, if any.
    method AcquireLease(r: RunId) returns (out: Acquire)
      requires r in rows
      modifies this`rows
      ensures out.Grant? <==> !Taken(old(rows), old(rows)[r].id.path)
      ensures out.AlreadyHeldByThisRun? ==> old(rows)[r].lease == Held
      ensures out.RefuseConflict? ==>
        out.holder in old(rows) && out.holder != r && old(rows)[out.holder].lease == Held &&
        old(rows)[out.holder].id.path == old(rows)[r].id.path
      ensures rows == if out.Grant? then old(rows)[r := old(rows)[r].(lease := Held)] else old(rows)
      ensures OneHolder(old(rows)) ==> OneHolder(rows) && (out.AlreadyHeldByThisRun? <==> old(rows)[r].lease == Held)
    {
      var active := None;
      if o :| o in rows && rows[o].lease == Held && rows[o].id.path == rows[r].id.path {
        active := Some(LeaseRow(o, false));
      }
      out := DecideAcquire(r, active);
      if out.Grant? {
        rows := rows[r := rows[r].(lease := Held)];
      }
    }

    // store.release_lease: no effect on a missing or released row.
    method ReleaseLease(r: RunId)
      requires r in rows
      modifies this`rows
      ensures rows == old(rows)[r := old(rows)[r].(lease := Unhold(old(rows)[r].lease))]
    {
      if rows[r].lease == Held { rows := rows[r := rows[r].(lease := Released)]; }
    }

    // store.record_spawn: an upsert that keeps the identity the worker may already have recorded.
    method RecordSpawn(r: RunId)
      requires r in rows
      modifies this`rows
      ensures rows == old(rows)[r := old(rows)[r].(worker := true)]
    {
      rows := rows[r := rows[r].(worker := true)];
    }

    // The dispatcher moves to its next rung.
    ghost method Stand(r: RunId, ladder: Ladder)
      requires r in facts
      modifies this`facts
      ensures facts == old(facts)[r := old(facts)[r].(ladder := ladder)]
    {
      facts := facts[r := facts[r].(ladder := ladder)];
    }

    // ---- the rungs, each callable only from where the ladder stands ----------------------------

    method PassGates(r: RunId, gate: Option<ExecState>) returns (ok: bool)
      requires Valid() && r in rows && facts[r].ladder == AtPreflight
      requires gate.Some? ==> GateRefusal(gate.value)
      modifies this
      ensures Valid() && ok == (gate.None? && old(rows)[r].state == Created)
      ensures rows == old(rows)[r := old(rows)[r].(state :=
        if old(rows)[r].state != Created then old(rows)[r].state else if gate.Some? then gate.value else Preflight)]
      ensures facts == old(facts)[r := old(facts)[r].(ladder :=
        if !ok then Gone else if old(rows)[r].id.needsLease then AtLease else AtDrift)]
    {
      ok := Transition(r, Preflight, Some(Created));
      if !ok {
        Stand(r, Gone);
        return;
      }
      if gate.Some? {
        var refused := Transition(r, gate.value, None);
        Stand(r, Gone);
        return false;
      }
      Stand(r, if rows[r].id.needsLease then AtLease else AtDrift);
    }

    // The refusal, swallowed if the run is over already.
    method RefuseLease(r: RunId)
      requires Valid() && r in rows
      modifies this
      ensures Valid()
      ensures var s := old(rows)[r].state;
        rows == old(rows)[r := old(rows)[r].(state := if IsActive(s) then LeaseRefused else s)] &&
        facts == old(facts)[r := old(facts)[r].(ladder := Gone)]
    {
      var refused := Transition(r, LeaseRefused, None);
      Stand(r, Gone);
    }

    method MarkLeased(r: RunId) returns (ok: bool)
      requires Valid() && r in rows
      modifies this
      ensures Valid() && ok == (old(rows)[r].state == Preflight)
      ensures rows == old(rows)[r := old(rows)[r].(state := if ok then Leased else old(rows)[r].state)]
      ensures facts == old(facts)[r := old(facts)[r].(ladder := if ok then AtDrift else Gone)]
    {
      ok := Transition(r, Leased, Some(Preflight));
      Stand(r, if ok then AtDrift else Gone);
    }

    method TakeWorktree(r: RunId) returns (ok: bool)
      requires Valid() && r in rows && facts[r].ladder == AtLease && rows[r].lease == NoLease
      modifies this
      ensures Valid()
      ensures var taken := Taken(old(rows), old(rows)[r].id.path);
        var s := old(rows)[r].state;
        ok == (!taken && s == Preflight) &&
        rows == old(rows)[r := if taken then old(rows)[r].(state := if IsActive(s) then LeaseRefused else s)
                               else old(rows)[r].(lease := Held, state := if s == Preflight then Leased else s)] &&
        facts == old(facts)[r := old(facts)[r].(ladder := if ok then AtDrift else Gone)]
    {
      var lease := AcquireLease(r);
      if lease.RefuseConflict? {
        RefuseLease(r);
        return false;
      }
      ghost var held := rows[r];
      ok := MarkLeased(r);
      Overwrite(old(rows), r, held, rows[r]);
    }

    // Drift: the lease goes back before the refusal is written.
    method MeasureDrift(r: RunId, drift: bool)
      requires Valid() && r in rows && facts[r].ladder == AtDrift
      modifies this
      ensures Valid()
      ensures var s := old(rows)[r].state;
        rows == old(rows)[r := if drift
          then old(rows)[r].(lease := Unhold(old(rows)[r].lease), state := if IsActive(s) then LeaseRefused else s)
          else old(rows)[r]] &&
        facts == old(facts)[r := old(facts)[r].(ladder := if drift then Gone else AtDispatch)]
    {
      if drift {
        ReleaseLease(r);
        var refused := Transition(r, LeaseRefused, None);
      }
      Stand(r, if drift then Gone else AtDispatch);
    }

    // The process exists; then its spawn is recorded.
    method Boot(r: RunId, pid: int, stamp: Stamp)
      requires Valid() && r in rows
      modifies this
      ensures Valid()
      ensures rows == old(rows)[r := old(rows)[r].(worker := true)]
      ensures facts == old(facts)[r := old(facts)[r].(ladder := Gone, proc := Proc(Booted, true, pid, stamp))]
    {
      facts := facts[r := facts[r].(proc := Proc(Booted, true, pid, stamp))];
      RecordSpawn(r);
      Stand(r, Gone);
    }

    // DISPATCHED is durable before the process exists; a failed spawn keeps the lease.
    method Launch(r: RunId, spawned: Option<(int, Stamp)>) returns (out: Outcome)
      requires Valid() && r in rows && facts[r].ladder == AtDispatch
      modifies this
      ensures Valid()
      ensures var legal := CanTransition(old(rows)[r].state, Dispatched);
        out == (if !legal then Raised else if spawned.None? then Refused(WorkerFailed) else Admitted(true)) &&
        rows == old(rows)[r := if !legal then old(rows)[r]
          else if spawned.None? then old(rows)[r].(state := WorkerFailed)
          else old(rows)[r].(state := Dispatched, worker := true)] &&
        facts == old(facts)[r := old(facts)[r].(ladder := Gone, proc := if legal && spawned.Some?
          then Proc(Booted, true, spawned.value.0, spawned.value.1) else old(facts)[r].proc)]
    {
      var ok := Transition(r, Dispatched, None);
      if !ok {
        Stand(r, Gone);
        return Raised;
      }
      if spawned.None? {
        var failed := Transition(r, WorkerFailed, None);
        Stand(r, Gone);
        return Refused(WorkerFailed);
      }
      Boot(r, spawned.value.0, spawned.value.1);
      return Admitted(true);
    }

    // The whole ladder, run without interruption. What authority, preflight and the concurrency
    // ceiling decide (`gate`), the drift measured and the spawn's result are inputs. A known key
    // changes nothing; otherwise only the new run's rows change.
    method Dispatch(rid: RunId, id: Ident, gate: Option<ExecState>, drift: bool, spawn: bool,
                    spawned: Option<(int, Stamp)>)
      returns (out: Outcome)
      requires Valid() && rid !in rows
      requires gate.Some? ==> GateRefusal(gate.value)
      modifies this
      ensures Valid()
      ensures out.Duplicate? <==> exists r :: r in old(rows) && old(rows)[r].id.key == id.key
      ensures out.Duplicate? ==> rows == old(rows) && facts == old(facts) && out.existing in rows &&
                                 rows[out.existing].id.key == id.key && rows[out.existing].state == out.state
      ensures !out.Duplicate? ==>
        var plan := Plan(Taken(old(rows), id.path), id, gate, drift, spawn, spawned);
        out == plan.out && rows == old(rows)[rid := plan.rows] && facts == old(facts)[rid := plan.facts]
      ensures !out.Duplicate? ==>
        Settles(id.needsLease && Taken(old(rows), id.path), id, gate, drift, spawn, spawned, out, rows[rid], facts[rid])
    {
      var created, run := Admit(rid, id);
      if !created {
        return Duplicate(run, rows[run].state);
      }
      PlanSettles(Taken(old(rows), id.path), id, gate, drift, spawn, spawned);
      TakenByOthers(old(rows), rid, NewRows(id), id.path);
      PlanSplits(Taken(old(rows), id.path), id, gate, drift, spawn, spawned);
      out := Climb(rid, gate, drift, spawn, spawned);
      Overwrite(old(rows), rid, NewRows(id), rows[rid]);
      Overwrite(old(facts), rid, Facts(AtPreflight, NOBODY, 0, false), facts[rid]);
    }

    // The rungs above admission.
    method Climb(rid: RunId, gate: Option<ExecState>, drift: bool, spawn: bool, spawned: Option<(int, Stamp)>)
      returns (out: Outcome)
      requires Valid() && rid in rows && rows[rid] == NewRows(rows[rid].id)
      requires facts[rid] == Facts(AtPreflight, NOBODY, 0, false)
      requires gate.Some? ==> GateRefusal(gate.value)
      modifies this
      ensures Valid()
      ensures var id := old(rows)[rid].id;
        var end := Halves(Taken(old(rows), id.path), id, gate, drift, spawn, spawned);
        out == end.out && rows == old(rows)[rid := end.rows] && facts == old(facts)[rid := end.facts]
    {
      ghost var r0, f0 := rows, facts;
      var refusal := Enter(rid, gate);
      if refusal.Some? {
        return Refused(refusal.value);
      }
      ghost var r1, f1 := rows[rid], facts[rid];
      out := Finish(rid, drift, spawn, spawned);
      Overwrite(r0, rid, r1, rows[rid]);
      Overwrite(f0, rid, f1, facts[rid]);
    }

    // From the worktree to the worker.
    method Finish(r: RunId, drift: bool, spawn: bool, spawned: Option<(int, Stamp)>) returns (out: Outcome)
      requires Valid() && r in rows && facts[r].ladder == AtDrift
      requires rows[r].state == Preflight || rows[r].state == Leased
      modifies this
      ensures Valid()
      ensures var end := FinishPlan(old(rows)[r], old(facts)[r], drift, spawn, spawned);
        out == end.out && rows == old(rows)[r := end.rows] && facts == old(facts)[r := end.facts]
    {
      MeasureDrift(r, drift);
      if drift {
        return Refused(LeaseRefused);
      }
      if !spawn {
        return Admitted(false);
      }
      assert CanTransition(rows[r].state, Dispatched);
      out := Launch(r, spawned);
    }

    // From admission to the worktree: the gates, then the lease when one is needed.
    method Enter(rid: RunId, gate: Option<ExecState>) returns (refusal: Option<ExecState>)
      requires Valid() && rid in rows && rows[rid] == NewRows(rows[rid].id)
      requires facts[rid] == Facts(AtPreflight, NOBODY, 0, false)
      requires gate.Some? ==> GateRefusal(gate.value)
      modifies this
      ensures Valid()
      ensures var id := old(rows)[rid].id;
        refusal == EnterRefusal(Taken(old(rows), id.path), id, gate) &&
        rows == old(rows)[rid := EnterRows(id, refusal)] && facts == old(facts)[rid := EnterFacts(refusal)]
    {
      ghost var was := rows;
      var ok := PassGates(rid, gate);
      if !ok {
        return gate;
      }
      TakenByOthers(was, rid, rows[rid], was[rid].id.path);
      if rows[rid].id.needsLease {
        ok := TakeWorktree(rid);
        if !ok {
          return Some(LeaseRefused);
        }
      }
      return None;
    }

    // reconcile_run with apply=True. Three readings of the worker are taken, in this order: for the
    // classification, and, once the classified state is written, for the reclaim.
    method ReconcileRun(r: RunId, rd1: Reading, rd2: Reading, resultValid: Option<bool>, observedChange: Option<bool>)
      returns (rec: Reconciliation)
      requires Valid() && r in rows
      modifies this
      ensures Valid()
      ensures var was := Join(old(rows)[r], old(facts)[r]);
        rec == OnSnapshot(was, rd1, resultValid, observedChange)
      ensures var row := old(rows)[r];
        Decides(row.state, row.id.isWrite, Observe(rd1, row.pid, row.stamp), row.pid.Some?, row.receipt, resultValid,
                observedChange, row.worker, rec)
      ensures rows == old(rows)[r := AfterReconcile(old(rows)[r], rec.target, rd2)]
      ensures facts == old(facts)[r := old(facts)[r].(seenDead := old(facts)[r].seenDead ||
                                                      (rec.target.Some? && HolderDead(old(rows)[r], rd2)))]
    {
      rec := JudgeRun(r, rd1, resultValid, observedChange);
      Settle(r, rec.target, rd2);
    }

    // The classification.
    method JudgeRun(r: RunId, rd: Reading, resultValid: Option<bool>, observedChange: Option<bool>)
      returns (rec: Reconciliation)
      requires Valid() && r in rows
      ensures rec == OnSnapshot(Join(rows[r], facts[r]), rd, resultValid, observedChange)
      ensures var row := rows[r];
        Decides(row.state, row.id.isWrite, Observe(rd, row.pid, row.stamp), row.pid.Some?, row.receipt, resultValid,
                observedChange, row.worker, rec)
    {
      var row := rows[r];
      rec := Classify(row.state, row.id.isWrite, Observe(rd, row.pid, row.stamp), row.pid.Some?,
                      row.receipt, resultValid, observedChange, row.worker);
      ClassifyDecides(row.state, row.id.isWrite, Observe(rd, row.pid, row.stamp), row.pid.Some?, row.receipt,
                      resultValid, observedChange, row.worker, rec);
    }

    // The classified state, if there is one, and then perhaps the lease.
    method Settle(r: RunId, target: Option<ExecState>, rd: Reading)
      requires Valid() && r in rows
      modifies this
      ensures Valid() && rows == old(rows)[r := AfterReconcile(old(rows)[r], target, rd)]
      ensures facts == old(facts)[r := old(facts)[r].(seenDead := old(facts)[r].seenDead ||
                                                      (target.Some? && HolderDead(old(rows)[r], rd)))]
    {
      assert rows == rows[r := rows[r]] && facts == facts[r := facts[r]];
      if target.Some? {
        var moved := Transition(r, target.value, None);
        Reclaim(r, rd);
      }
    }

    method ReconcileOne(r: RunId, look: Look) returns (rec: Reconciliation)
      requires Valid() && r in rows
      modifies this
      ensures Valid() && rec == Judge(old(rows)[r], look)
      ensures rows == old(rows)[r := AfterLook(old(rows)[r], look)]
    {
      rec := ReconcileRun(r, look.first, look.second, look.resultValid, look.observedChange);
    }

    // reconcile_all: every run active at the start, once each.
    method ReconcileAll(active: seq<RunId>, looks: map<RunId, Look>) returns (out: seq<Reconciliation>)
      requires Valid() && (forall i, j :: 0 <= i < j < |active| ==> active[i] != active[j])
      requires forall r :: r in active ==> r in rows && r in looks
      modifies this
      ensures Valid() && rows.Keys == old(rows).Keys && |out| == |active|
      ensures forall n :: 0 <= n < |active| ==> out[n] == Judge(old(rows)[active[n]], looks[active[n]])
      ensures forall r :: r in rows ==>
        rows[r] == if r in active then AfterLook(old(rows)[r], looks[r]) else old(rows)[r]
    {
      out := [];
      ghost var was := rows;
      assert Settled(was, active[..0], looks) == was;
      for n := 0 to |active|
        invariant Valid() && |out| == n && rows == Settled(was, active[..n], looks)
        invariant forall m :: 0 <= m < n ==> out[m] == Judge(was[active[m]], looks[active[m]])
      {
        SettledOn(was, active, n, looks);
        var rec := ReconcileOne(active[n], looks[active[n]]);
        out := out + [rec];
      }
      assert active[..|active|] == active;
    }

    // Release a holder's lease on its behalf, if it is provably dead and its run is over.
    method Reclaim(r: RunId, rd: Reading)
      requires Valid() && r in rows
      modifies this
      ensures Valid()
      ensures var was := old(rows)[r];
        rows == old(rows)[r := if HolderDead(was, rd) && IsTerminal(was.state) then was.(lease := Released) else was] &&
        facts == old(facts)[r := old(facts)[r].(seenDead := old(facts)[r].seenDead || HolderDead(was, rd))]
    {
      if rows[r].lease == Held {
        var live := Observe(rd, rows[r].pid, rows[r].stamp);
        facts := facts[r := facts[r].(seenDead := facts[r].seenDead || live == Dead)];
        if MayReclaim(Some(LeaseRow(r, false)), rows[r].state, live) {
          ReleaseLease(r);
        }
      }
    }
  }

  // What reconciliation reads about one run besides its rows.
  datatype Look = Look(first: Reading, second: Reading, resultValid: Option<bool>, observedChange: Option<bool>)

  function Judge(row: Rows, look: Look): Reconciliation {
    Classify(row.state, row.id.isWrite, Observe(look.first, row.pid, row.stamp), row.pid.Some?, row.receipt,
             look.resultValid, look.observedChange, row.worker)
  }

  function AfterLook(row: Rows, look: Look): Rows {
    AfterReconcile(row, Judge(row, look).target, look.second)
  }

  // The runs in `active` settled, the others as they were.
  function Settled(was: map<RunId, Rows>, active: seq<RunId>, looks: map<RunId, Look>): map<RunId, Rows>
    requires forall r :: r in active ==> r in looks
  {
    map r | r in was :: if r in active then AfterLook(was[r], looks[r]) else was[r]
  }

  lemma SettledOn(was: map<RunId, Rows>, active: seq<RunId>, n: nat, looks: map<RunId, Look>)
    requires n < |active| && forall i, j :: 0 <= i < j < |active| ==> active[i] != active[j]
    requires forall r :: r in active ==> r in was && r in looks
    ensures var r := active[n];
      Settled(was, active[..n], looks)[r] == was[r] &&
      Settled(was, active[..n + 1], looks) == Settled(was, active[..n], looks)[r := AfterLook(was[r], looks[r])]
  {
    assert active[..n + 1] == active[..n] + [active[n]];
  }

  // Reconciliation leaves a run active exactly when it was never handed to a worker, or its worker reads
  // alive; any other active run ends in a terminal state, and in no case does it move a terminal run.
  lemma ReconciliationSettles(row: Rows, look: Look)
    ensures IsActive(AfterLook(row, look).state) <==>
      (IsActive(row.state) &&
       ((!row.worker && PreSpawn(row.state) && row.receipt.None?) || Observe(look.first, row.pid, row.stamp) == Alive))
    ensures IsTerminal(row.state) ==> AfterLook(row, look) == row
    ensures AfterLook(row, look).lease != row.lease ==>
      row.lease == Held && Observe(look.second, row.pid, row.stamp) == Dead && IsTerminal(AfterLook(row, look).state)
  {
  }

  // What settling does to a row: the state becomes the target if that is a legal successor, and the lease of a
  // holder that reads dead goes, once the run is over. Nothing else changes.
  lemma SettlingIsGuarded(row: Rows, target: Option<ExecState>, rd: Reading)
    ensures var next := AfterReconcile(row, target, rd);
      next == row.(state := next.state, lease := next.lease) &&
      (target.Some? && CanTransition(row.state, target.value) ==> next.state == target.value) &&
      (target.None? || !CanTransition(row.state, target.value) ==> next.state == row.state) &&
      (next.lease != row.lease ==> next.lease == Released) &&
      (next.lease != row.lease <==>
         row.lease == Held && target.Some? && Observe(rd, row.pid, row.stamp) == Dead && IsTerminal(next.state))
  {
  }

  // What the row of a run whose child has started says of its worker.
  lemma ChildLeavesTraces(c: Config, r: RunId)
    requires Reachable(c) && r in c && c[r].trail.children > 0
    ensures c[r].trail.pid.Some? && c[r].trail.row && (c[r].trail.receipt.Some? ==> c[r].trail.receipt.value.started)
  {
    ReachableInv(c);
    assert RecInv(c[r]);
  }

  // NO BLIND RETRY. Of any reachable run whose child started and that is still active, its worker not reading
  // alive, reconciling ends exactly these in doubt: without a receipt, those whose worker's death is not
  // established or that may have written; with one, those that may have written and left neither a valid
  // result nor a failing exit code. Only the others end as failed or interrupted, to be retried.
  lemma NoBlindRetry(c: Config, r: RunId, row: Rows, f: Facts, look: Look)
    requires Reachable(c) && r in c && c[r] == Join(row, f) && IsActive(row.state) && f.children > 0
    requires Observe(look.first, row.pid, row.stamp) != Alive
    ensures var after, wrote := AfterLook(row, look).state, MayHaveWritten(row.id.isWrite, look.observedChange);
      (after == AmbiguousExecution <==>
         if row.receipt.None? then Observe(look.first, row.pid, row.stamp) == Unknown || wrote
         else wrote && look.resultValid != Some(true) && !Nonzero(row.receipt.value)) &&
      (after != AmbiguousExecution ==> after == Interrupted || after == ClaudeFailed)
  {
    ChildLeavesTraces(c, r);
    FallEndsNamed(row, look);
  }

  lemma FallEndsNamed(row: Rows, look: Look)
    requires IsActive(row.state) && row.worker && row.pid.Some? && (row.receipt.Some? ==> row.receipt.value.started)
    requires Observe(look.first, row.pid, row.stamp) != Alive
    ensures var after, wrote := AfterLook(row, look).state, MayHaveWritten(row.id.isWrite, look.observedChange);
      (after == AmbiguousExecution <==>
         if row.receipt.None? then Observe(look.first, row.pid, row.stamp) == Unknown || wrote
         else wrote && look.resultValid != Some(true) && !Nonzero(row.receipt.value)) &&
      (after != AmbiguousExecution ==> after == Interrupted || after == ClaudeFailed)
  {
    var live := Observe(look.first, row.pid, row.stamp);
    FallIsNamed(row.state, row.id.isWrite, live, true, row.receipt, look.resultValid, look.observedChange, true);
    VerdictFollows(row.state, row.id.isWrite, live, true, row.receipt, look.resultValid, look.observedChange, true);
    StandingIsNamed(row.state, row.id.isWrite, live, true, row.receipt, look.resultValid, look.observedChange, true);
    SettlingIsGuarded(row, Judge(row, look).target, look.second);
  }

  predicate HolderDead(row: Rows, rd: Reading) {
    row.lease == Held && Observe(rd, row.pid, row.stamp) == Dead
  }

  // The classified state if it is a legal successor; then the lease, if holder and run are both over.
  function AfterReconcile(row: Rows, target: Option<ExecState>, rd: Reading): Rows {
    if target.None? then row
    else
      var next := if CanTransition(row.state, target.value) then row.(state := target.value) else row;
      if HolderDead(row, rd) && IsTerminal(next.state) then next.(lease := Released) else next
  }

  lemma TakenByOthers(rows: map<RunId, Rows>, r: RunId, next: Rows, path: string)
    requires next.lease != Held && (r in rows ==> rows[r].lease != Held)
    ensures Taken(rows[r := next], path) <==> Taken(rows, path)
  {
    var d := rows[r := next];
    assert forall o :: o in d && d[o].lease == Held ==> o in rows && d[o] == rows[o];
    assert forall o :: o in rows && rows[o].lease == Held ==> o in d && d[o] == rows[o];
  }

  datatype Planned = Planned(out: Outcome, rows: Rows, facts: Facts)

  // What an uninterrupted ladder comes to: gates, then the lease, then drift, then the spawn.
  function Plan(taken: bool, id: Ident, gate: Option<ExecState>, drift: bool, spawn: bool,
                spawned: Option<(int, Stamp)>): Planned
  {
    var held := if id.needsLease then Held else NoLease;
    if gate.Some? then Stopped(id, gate.value, NoLease)
    else if id.needsLease && taken then Stopped(id, LeaseRefused, NoLease)
    else if drift then Stopped(id, LeaseRefused, Unhold(held))
    else if !spawn then
      Planned(Admitted(false), NewRows(id).(state := if id.needsLease then Leased else Preflight, lease := held),
              Facts(AtDispatch, NOBODY, 0, false))
    else if spawned.None? then Stopped(id, WorkerFailed, held)
    else
      Planned(Admitted(true), NewRows(id).(state := Dispatched, lease := held, worker := true),
              Facts(Gone, Proc(Booted, true, spawned.value.0, spawned.value.1), 0, false))
  }

  // Refused by name: in that very state, with that lease, and without a process.
  predicate EndsRefused(out: Outcome, row: Rows, f: Facts, to: ExecState, lease: Lease) {
    out == Refused(to) && row.state == to && row.lease == lease && f.ladder == Gone && f.proc == NOBODY && !row.worker
  }

  // What a dispatch that was no duplicate comes to. blocked: a lease it needs is taken.
  predicate Settles(blocked: bool, id: Ident, gate: Option<ExecState>, drift: bool, spawn: bool,
                    spawned: Option<(int, Stamp)>, out: Outcome, row: Rows, f: Facts)
  {
    // Nobody but the worker writes the rest of the rows.
    row.id == id && row.pid == None && row.stamp == None && row.receipt == None && f.children == 0 && !f.seenDead &&
    // A process exists exactly if nothing refused, a spawn was asked for, and it succeeded.
    (f.proc.alive <==> gate.None? && !blocked && !drift && spawn && spawned.Some?) &&
    (f.proc.alive ==>
       out == Admitted(true) && row.state == Dispatched && row.worker && f.ladder == Gone &&
       f.proc == Proc(Booted, true, spawned.value.0, spawned.value.1)) &&
    // The lease is held exactly by a run that has a process, may yet get one, or whose spawn failed.
    (row.lease == Held <==> id.needsLease && gate.None? && !blocked && !drift) &&
    (row.lease == Released <==> id.needsLease && gate.None? && !blocked && drift) &&
    // The first of gate, conflict, drift and failed spawn names the refusal.
    (gate.Some? ==> EndsRefused(out, row, f, gate.value, NoLease)) &&
    (gate.None? && blocked ==> EndsRefused(out, row, f, LeaseRefused, NoLease)) &&
    (gate.None? && !blocked && drift ==> EndsRefused(out, row, f, LeaseRefused, row.lease)) &&
    (gate.None? && !blocked && !drift && spawn && spawned.None? ==>
       EndsRefused(out, row, f, WorkerFailed, row.lease)) &&
    // Asked not to spawn, it stops one rung short.
    (gate.None? && !blocked && !drift && !spawn ==>
       out == Admitted(false) && row.state == (if id.needsLease then Leased else Preflight) && !row.worker &&
       f.proc == NOBODY && f.ladder == AtDispatch)
  }

  lemma PlanSettles(taken: bool, id: Ident, gate: Option<ExecState>, drift: bool, spawn: bool,
                    spawned: Option<(int, Stamp)>)
    ensures var plan := Plan(taken, id, gate, drift, spawn, spawned);
      Settles(id.needsLease && taken, id, gate, drift, spawn, spawned, plan.out, plan.rows, plan.facts)
  {
  }

  function EnterRefusal(taken: bool, id: Ident, gate: Option<ExecState>): Option<ExecState> {
    if gate.Some? then gate else if id.needsLease && taken then Some(LeaseRefused) else None
  }

  function EnterRows(id: Ident, refusal: Option<ExecState>): Rows {
    NewRows(id).(state := if refusal.Some? then refusal.value else if id.needsLease then Leased else Preflight,
                 lease := if refusal.None? && id.needsLease then Held else NoLease)
  }

  function EnterFacts(refusal: Option<ExecState>): Facts {
    Facts(if refusal.Some? then Gone else AtDrift, NOBODY, 0, false)
  }

  // From the worktree on: drift refuses and gives the lease back, a failed spawn keeps it.
  function FinishPlan(was: Rows, f: Facts, drift: bool, spawn: bool, spawned: Option<(int, Stamp)>): Planned {
    if drift then
      Planned(Refused(LeaseRefused), was.(state := LeaseRefused, lease := Unhold(was.lease)), f.(ladder := Gone))
    else if !spawn then Planned(Admitted(false), was, f.(ladder := AtDispatch))
    else if spawned.None? then Planned(Refused(WorkerFailed), was.(state := WorkerFailed), f.(ladder := Gone))
    else Planned(Admitted(true), was.(state := Dispatched, worker := true),
                 f.(ladder := Gone, proc := Proc(Booted, true, spawned.value.0, spawned.value.1)))
  }

  // The ladder's two halves, in sequence.
  function Halves(taken: bool, id: Ident, gate: Option<ExecState>, drift: bool, spawn: bool,
                  spawned: Option<(int, Stamp)>): Planned
  {
    var refusal := EnterRefusal(taken, id, gate);
    if refusal.Some? then Planned(Refused(refusal.value), EnterRows(id, refusal), EnterFacts(refusal))
    else FinishPlan(EnterRows(id, refusal), EnterFacts(refusal), drift, spawn, spawned)
  }

  lemma PlanSplits(taken: bool, id: Ident, gate: Option<ExecState>, drift: bool, spawn: bool,
                   spawned: Option<(int, Stamp)>)
    ensures Plan(taken, id, gate, drift, spawn, spawned) == Halves(taken, id, gate, drift, spawn, spawned)
  {
  }

  function Stopped(id: Ident, s: ExecState, lease: Lease): Planned {
    Planned(Refused(s), NewRows(id).(state := s, lease := lease), Facts(Gone, NOBODY, 0, false))
  }

  // ---- the methods and the protocol ------------------------------------------------------------

  // However the dispatch ends, the run it leaves is one the protocol's invariant allows beside the
  // others: the safety of RunProtocol carries over the method call.
  lemma {:induction false} DispatchKeepsInv(c: Config, rid: RunId, id: Ident, gate: Option<ExecState>, drift: bool,
                                            spawn: bool, spawned: Option<(int, Stamp)>)
    requires Inv(c) && rid !in c && !Known(c, id.key)
    requires gate.Some? ==> GateRefusal(gate.value)
    requires spawned.Some? ==> spawned.value.0 > 0
    ensures var plan := Plan(PathHeld(c, id.path), id, gate, drift, spawn, spawned);
      Inv(c[rid := Join(plan.rows, plan.facts)])
  {
    var plan := Plan(PathHeld(c, id.path), id, gate, drift, spawn, spawned);
    PlanIsLocalInv(PathHeld(c, id.path), id, gate, drift, spawn, spawned);
    InsertKeepsInv(c, rid, Join(plan.rows, plan.facts));
  }

  predicate PathHeld(c: Config, path: string) {
    exists o :: o in c && c[o].lease == Held && c[o].id.path == path
  }

  lemma InsertKeepsInv(c: Config, rid: RunId, rec: Rec)
    requires Inv(c) && rid !in c && !Known(c, rec.id.key) && RecInv(rec)
    requires rec.lease == Held ==> !PathHeld(c, rec.id.path)
    ensures Inv(c[rid := rec])
  {
  }

  lemma PlanIsLocalInv(taken: bool, id: Ident, gate: Option<ExecState>, drift: bool, spawn: bool,
                       spawned: Option<(int, Stamp)>)
    requires gate.Some? ==> GateRefusal(gate.value)
    requires spawned.Some? ==> spawned.value.0 > 0
    ensures var plan := Plan(taken, id, gate, drift, spawn, spawned);
      RecInv(Join(plan.rows, plan.facts)) && plan.rows.id == id && (plan.rows.lease == Held ==> !taken)
  {
  }

  // What reconcile_run does to a run is three of the protocol's steps by an outsider: a guarded
  // transition, a reading, and a reclaim that only a DEAD reading and a terminal run permit.
  lemma ReconcileIsThreeSteps(row: Rows, f: Facts, target: ExecState, rd: Reading)
    requires RecInv(Join(row, f)) && Honest(Join(row, f), rd) && IsRefusal(target)
    requires row.lease == Held && !f.seenDead
    ensures var moved := OutsiderStep(Join(row, f), Outside(target));
      var seen := OutsiderStep(moved, ObserveDead(rd));
      OutsiderStep(seen, Step.Reclaim) ==
        Join(AfterReconcile(row, Some(target), rd), f.(seenDead := HolderDead(row, rd)))
  {
    var next := if CanTransition(row.state, target) then row.(state := target) else row;
    OutsideOnRows(row, f, target);
    ObserveOnRows(next, f, rd);
    assert HolderDead(next, rd) <==> HolderDead(row, rd);
  }

  lemma OutsideOnRows(row: Rows, f: Facts, target: ExecState)
    requires IsRefusal(target)
    ensures OutsiderStep(Join(row, f), Outside(target)) ==
            Join(if CanTransition(row.state, target) then row.(state := target) else row, f)
  {
  }

  lemma ObserveOnRows(row: Rows, f: Facts, rd: Reading)
    requires Honest(Join(row, f), rd) && row.lease == Held && !f.seenDead
    ensures OutsiderStep(Join(row, f), ObserveDead(rd)) == Join(row, f.(seenDead := HolderDead(row, rd)))
  {
  }
}
