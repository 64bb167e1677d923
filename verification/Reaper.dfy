// Crash recovery by the reaper (core/orchestrator.py: the first loop of reap, _hold_unknown_liveness,
// _clear_unknown_liveness): what one pass does to an unfinished run, and the bounded hold of a run
// whose worker can be neither proved alive nor proved dead.
module Reaper {
  import opened Wrappers
  import opened Domain
  import opened Liveness
  import opened RunProtocol
  import opened ControlPlane
  import opened Programs

  const ESCALATION_PASSES := 3

  // The lane's one checkpoint key for the hold: which run, how many passes, already escalated.
  datatype Mark = Mark(run: RunId, passes: nat, escalated: bool)

  // blockers: messages on the owner's desk, by run.
  datatype Desk = Desk(state: LaneState, mark: Option<Mark>, possibleWrite: bool, blockers: seq<RunId>)

  // What one pass measures for one run: liveness, again after collecting its own child, the worktree
  // (None: no path recorded), and liveness once more.
  datatype Pass = Pass(first: Reading, again: Reading, clean: bool, last: Reading)

  datatype Decision = Skip | Clear | Hold | Recover | Ambiguate

  function FirstVerdict(row: Rows, p: Pass): Verdict {
    var v := Observe(p.first, row.pid, row.stamp);
    if v == Unknown then Observe(p.again, row.pid, row.stamp) else v
  }

  function Decide(row: Rows, p: Pass): Decision {
    if !IsActive(row.state) || row.pid.None? || row.pid == Some(0) then Skip
    else match FirstVerdict(row, p)
      case Alive => Clear
      case Unknown => Hold
      case Dead =>
        if !p.clean then Ambiguate
        else match Observe(p.last, row.pid, row.stamp)
          case Alive => Clear
          case Unknown => Hold
          case Dead => Recover
  }

  // The readings of one pass, in words: the worker lives, is gone, or cannot be told, the second reading being
  // taken only if the first cannot tell.
  predicate SeenAs(row: Rows, p: Pass, v: Verdict) {
    Observe(p.first, row.pid, row.stamp) == v ||
    (Observe(p.first, row.pid, row.stamp) == Unknown && Observe(p.again, row.pid, row.stamp) == v)
  }

  predicate ReadsAlive(row: Rows, p: Pass) {
    SeenAs(row, p, Alive) || (SeenAs(row, p, Dead) && p.clean && Observe(p.last, row.pid, row.stamp) == Alive)
  }

  // No reading could tell, or the one that would have authorised recovery could not.
  predicate ReadsUnknown(row: Rows, p: Pass) {
    (Observe(p.first, row.pid, row.stamp) == Unknown && Observe(p.again, row.pid, row.stamp) == Unknown) ||
    (SeenAs(row, p, Dead) && p.clean && Observe(p.last, row.pid, row.stamp) == Unknown)
  }

  // A run the reaper looks at: active, its worker recorded.
  predicate Watched(row: Rows) {
    IsActive(row.state) && row.pid.Some? && row.pid.value != 0
  }

  // Each decision, exactly when the readings call for it.
  predicate CalledFor(row: Rows, p: Pass, decision: Decision) {
    (decision == Skip <==> !Watched(row)) &&
    (decision == Clear <==> Watched(row) && ReadsAlive(row, p)) &&
    (decision == Hold <==> Watched(row) && ReadsUnknown(row, p)) &&
    (decision == Recover <==>
       Watched(row) && SeenAs(row, p, Dead) && p.clean && Observe(p.last, row.pid, row.stamp) == Dead) &&
    (decision == Ambiguate <==> Watched(row) && SeenAs(row, p, Dead) && !p.clean)
  }

  lemma DecisionIsCalledFor(row: Rows, p: Pass)
    ensures CalledFor(row, p, Decide(row, p))
  {
  }

  // The count this run inherits: none from another run's mark.
  function Inherited(mark: Option<Mark>, r: RunId): Mark {
    if mark.Some? && mark.value.run == r then mark.value else Mark(r, 0, false)
  }

  predicate Escalates(mark: Option<Mark>, r: RunId) {
    !Inherited(mark, r).escalated && Inherited(mark, r).passes + 1 >= ESCALATION_PASSES
  }

  function Marked(mark: Option<Mark>, r: RunId): Option<Mark> {
    if Inherited(mark, r).escalated then mark
    else Some(Mark(r, Inherited(mark, r).passes + 1, Escalates(mark, r)))
  }

  function Escalated(d: Desk, r: RunId): Desk {
    d.(state := WaitingOwner, blockers := d.blockers + [r])
  }

  function AfterHold(d: Desk, r: RunId): Desk {
    (if Escalates(d.mark, r) then Escalated(d, r) else d).(mark := Marked(d.mark, r))
  }

  function AfterPass(d: Desk, r: RunId, decision: Decision): Desk {
    match decision
    case Skip => d
    case Clear => d.(mark := None)
    case Hold => AfterHold(d, r)
    case Recover => d
    case Ambiguate => Escalated(d, r).(possibleWrite := true)
  }

  function RowAfter(row: Rows, decision: Decision): Rows {
    match decision
    case Recover => row.(state := WorkerFailed, lease := Unhold(row.lease))
    case Ambiguate => row.(state := AmbiguousExecution)
    case _ => row
  }

  class Reap {
    var rows: map<RunId, Rows>
    var desk: Desk
    var processed: set<RunId>

    constructor (rows: map<RunId, Rows>, desk: Desk)
      ensures this.rows == rows && this.desk == desk && processed == {}
    {
      this.rows, this.desk, processed := rows, desk, {};
    }

    method Transition(r: RunId, to: ExecState) returns (ok: bool)
      requires r in rows
      modifies this`rows
      ensures ok <==> CanTransition(old(rows)[r].state, to)
      ensures rows == if ok then old(rows)[r := old(rows)[r].(state := to)] else old(rows)
    {
      ok := CanTransition(rows[r].state, to);
      if ok { rows := rows[r := rows[r].(state := to)]; }
    }

    // Escalation is performed before it is recorded as performed.
    method HoldUnknownLiveness(r: RunId)
      modifies this`desk
      ensures desk == AfterHold(old(desk), r)
    {
      var mark := if desk.mark.Some? && desk.mark.value.run == r then desk.mark.value else Mark(r, 0, false);
      if mark.escalated { return; }
      var passes := mark.passes + 1;
      var escalate := passes >= ESCALATION_PASSES;
      if escalate {
        desk := desk.(state := WaitingOwner);
        desk := desk.(blockers := desk.blockers + [r]);
      }
      desk := desk.(mark := Some(Mark(r, passes, escalate)));
    }

    method ClearUnknownLiveness()
      modifies this`desk
      ensures desk == old(desk).(mark := None)
    {
      if desk.mark.Some? { desk := desk.(mark := None); }
    }

    // Fail the run, then give its lease back, the run's state read back rather than assumed.
    method RecoverRun(r: RunId, live: Verdict)
      requires r in rows && IsActive(rows[r].state) && live == Dead
      modifies this`rows
      ensures rows == old(rows)[r := RowAfter(old(rows)[r], Recover)]
    {
      var moved := Transition(r, WorkerFailed);
      if rows[r].lease == Held && MayReclaim(Some(LeaseRow(r, false)), rows[r].state, live) {
        rows := rows[r := rows[r].(lease := Released)];
      }
    }

    method AmbiguateRun(r: RunId)
      requires r in rows && IsActive(rows[r].state)
      modifies this
      ensures rows == old(rows)[r := RowAfter(old(rows)[r], Ambiguate)] && desk == AfterPass(old(desk), r, Ambiguate)
      ensures processed == old(processed) + {r}
    {
      var moved := Transition(r, AmbiguousExecution);
      desk := desk.(state := WaitingOwner);
      desk := desk.(possibleWrite := true);
      desk := desk.(blockers := desk.blockers + [r]);
      processed := processed + {r};
    }

    // One pass over one unprocessed run of the lane.
    method ReapRun(r: RunId, p: Pass) returns (decision: Decision)
      requires r in rows
      modifies this
      ensures decision == Decide(old(rows)[r], p)
      ensures rows == old(rows)[r := RowAfter(old(rows)[r], decision)] && desk == AfterPass(old(desk), r, decision)
      ensures processed == if decision == Ambiguate then old(processed) + {r} else old(processed)
      ensures CalledFor(old(rows)[r], p, decision)
    {
      var row := rows[r];
      assert rows == rows[r := row];
      DecisionIsCalledFor(row, p);
      decision := Skip;
      if !IsActive(row.state) || row.pid.None? || row.pid == Some(0) { return; }
      var live := Observe(p.first, row.pid, row.stamp);
      if live != Alive && live != Dead { live := Observe(p.again, row.pid, row.stamp); }
      if live == Dead && p.clean {
        // The reading that authorises recovery is taken after the worktree was measured.
        live := Observe(p.last, row.pid, row.stamp);
        if live == Dead {
          RecoverRun(r, live);
          return Recover;
        }
      }
      if live == Alive {
        ClearUnknownLiveness();
        return Clear;
      }
      if live != Dead {
        HoldUnknownLiveness(r);
        return Hold;
      }
      AmbiguateRun(r);
      return Ambiguate;
    }
  }

  // ---- leases --------------------------------------------------------------------------------------

  // A pass releases a lease only when it read DEAD both before and after finding the worktree clean and
  // at its base, and then the run is terminal; a pass that ends in doubt changes nothing about the run;
  // and a run read as dead over changed files ends ambiguous, its lease still held.
  lemma PassReleasesOnlyDeadAndClean(row: Rows, p: Pass)
    ensures var after := RowAfter(row, Decide(row, p));
      (row.lease == Held && after.lease != Held ==>
         FirstVerdict(row, p) == Dead && p.clean && Observe(p.last, row.pid, row.stamp) == Dead &&
         after.state == WorkerFailed) &&
      (after.state != row.state ==> IsActive(row.state) && IsTerminal(after.state) && FirstVerdict(row, p) == Dead) &&
      (FirstVerdict(row, p) == Unknown ==> after == row) &&
      (after.state == AmbiguousExecution && IsActive(row.state) ==> after.lease == row.lease && !p.clean)
  {
  }

  // What a recovering pass does to a run is four steps of the run protocol, the readings honest: two
  // DEAD readings, the guarded transition, the reclaim. So the protocol's guarantees hold of the reaper.
  lemma RecoveryIsProtocolSteps(row: Rows, f: Facts, p: Pass)
    requires RecInv(Join(row, f)) && Decide(row, p) == Recover && row.lease == Held
    requires Honest(Join(row, f), p.last)
    ensures var seen := OutsiderStep(Join(row, f), ObserveDead(p.last));
      var failed := OutsiderStep(seen, Outside(WorkerFailed));
      OutsiderStep(failed, Step.Reclaim) == Join(RowAfter(row, Recover), f.(seenDead := true))
  {
  }

  lemma AmbiguityIsProtocolStep(row: Rows, f: Facts, p: Pass)
    requires Decide(row, p) == Ambiguate
    ensures OutsiderStep(Join(row, f), Outside(AmbiguousExecution)) == Join(RowAfter(row, Ambiguate), f)
  {
  }

  // The readings forbid it where it matters: a recovering pass over honest readings never fails a run
  // whose worker still lives.
  lemma RecoveredWorkersAreGone(row: Rows, f: Facts, p: Pass)
    requires RecInv(Join(row, f)) && Decide(row, p) == Recover && Honest(Join(row, f), p.last)
    ensures !f.proc.alive
  {
    DeadForcesRecordedPid(p.last, row.pid, row.stamp);
  }

  // ---- the bounded hold ----------------------------------------------------------------------------

  function Desks(d: Desk, r: RunId, ds: seq<Decision>): Desk {
    if ds == [] then d else AfterPass(Desks(d, r, ds[..|ds| - 1]), r, ds[|ds| - 1])
  }

  // How many of the latest passes in a row held.
  function Streak(ds: seq<Decision>): nat {
    if ds == [] || ds[|ds| - 1] != Hold then 0 else Streak(ds[..|ds| - 1]) + 1
  }

  predicate Undecided(ds: seq<Decision>) {
    forall i :: 0 <= i < |ds| ==> ds[i] == Hold || ds[i] == Clear
  }

  // No mark left over for this very run.
  predicate Unmarked(d: Desk, r: RunId) {
    d.mark.Some? ==> d.mark.value.run != r
  }

  lemma {:induction false} MarkCountsTheStreak(d: Desk, r: RunId, ds: seq<Decision>)
    requires Unmarked(d, r) && Undecided(ds)
    ensures var now, n := Desks(d, r, ds).mark, Streak(ds);
      if n == 0 then now.Some? ==> now.value.run != r
      else now == Some(Mark(r, if n < 3 then n else 3, n >= 3))
  {
    if ds != [] {
      MarkCountsTheStreak(d, r, ds[..|ds| - 1]);
    }
  }

  // Escalation happens at exactly the third consecutive pass that could not tell, and once: until a
  // pass reads ALIVE, further holds add nothing to the owner's desk.
  lemma {:induction false} EscalatesExactlyAtTheThirdHold(d: Desk, r: RunId, ds: seq<Decision>)
    requires Unmarked(d, r) && Undecided(ds) && ds != []
    ensures var before, after := Desks(d, r, ds[..|ds| - 1]), Desks(d, r, ds);
      if Streak(ds) == ESCALATION_PASSES
      then after.state == WaitingOwner && after.blockers == before.blockers + [r]
      else after.state == before.state && after.blockers == before.blockers
  {
    MarkCountsTheStreak(d, r, ds[..|ds| - 1]);
  }

  // The number of blockers filed is the number of times a streak reached three.
  function Thirds(ds: seq<Decision>): nat {
    if ds == [] then 0 else Thirds(ds[..|ds| - 1]) + if Streak(ds) == ESCALATION_PASSES then 1 else 0
  }

  lemma {:induction false} BlockersCountThirds(d: Desk, r: RunId, ds: seq<Decision>)
    requires Unmarked(d, r) && Undecided(ds)
    ensures |Desks(d, r, ds).blockers| == |d.blockers| + Thirds(ds)
  {
    if ds != [] {
      BlockersCountThirds(d, r, ds[..|ds| - 1]);
      EscalatesExactlyAtTheThirdHold(d, r, ds);
    }
  }

  // ---- the same, over readings ---------------------------------------------------------------------

  // Pass after pass over one run whose row stays as it is.
  function Passes(d: Desk, r: RunId, row: Rows, ps: seq<Pass>): Desk {
    if ps == [] then d else AfterPass(Passes(d, r, row, ps[..|ps| - 1]), r, Decide(row, ps[|ps| - 1]))
  }

  // How many of the latest passes in a row could not tell.
  function UnknownStreak(row: Rows, ps: seq<Pass>): nat {
    if ps == [] || !ReadsUnknown(row, ps[|ps| - 1]) then 0 else UnknownStreak(row, ps[..|ps| - 1]) + 1
  }

  // Nothing reads as dead.
  predicate Undead(row: Rows, ps: seq<Pass>) {
    Watched(row) && forall i :: 0 <= i < |ps| ==> ReadsAlive(row, ps[i]) || ReadsUnknown(row, ps[i])
  }

  function Decisions(row: Rows, ps: seq<Pass>): (ds: seq<Decision>)
    ensures |ds| == |ps| && forall i :: 0 <= i < |ps| ==> ds[i] == Decide(row, ps[i])
  {
    seq(|ps|, i requires 0 <= i < |ps| => Decide(row, ps[i]))
  }

  lemma {:induction false} PassesAreDecisions(d: Desk, r: RunId, row: Rows, ps: seq<Pass>)
    requires Undead(row, ps)
    ensures Passes(d, r, row, ps) == Desks(d, r, Decisions(row, ps)) && Undecided(Decisions(row, ps))
    ensures Streak(Decisions(row, ps)) == UnknownStreak(row, ps)
  {
    if ps != [] {
      var front := ps[..|ps| - 1];
      assert Decisions(row, ps)[..|ps| - 1] == Decisions(row, front);
      PassesAreDecisions(d, r, row, front);
      DecisionIsCalledFor(row, ps[|ps| - 1]);
    }
  }

  // THE OWNER IS ASKED AT THE THIRD PASS that cannot tell, in a row, and at no other; a pass that reads ALIVE
  // starts the count again.
  lemma {:induction false} OwnerAskedExactlyAtThirdUnknown(d: Desk, r: RunId, row: Rows, ps: seq<Pass>)
    requires Unmarked(d, r) && Undead(row, ps) && ps != []
    ensures var before, after := Passes(d, r, row, ps[..|ps| - 1]), Passes(d, r, row, ps);
      (if UnknownStreak(row, ps) == 3 then after.state == WaitingOwner && after.blockers == before.blockers + [r]
       else after.state == before.state && after.blockers == before.blockers) &&
      (ReadsAlive(row, ps[|ps| - 1]) ==> after.mark == None)
  {
    assert Decisions(row, ps)[..|ps| - 1] == Decisions(row, ps[..|ps| - 1]);
    PassesAreDecisions(d, r, row, ps);
    PassesAreDecisions(d, r, row, ps[..|ps| - 1]);
    EscalatesExactlyAtTheThirdHold(d, r, Decisions(row, ps));
    DecisionIsCalledFor(row, ps[|ps| - 1]);
  }

  // So a worker that reads alive in every pass never brings its lane before the owner.
  lemma {:induction false} LivingWorkersAreLeftAlone(d: Desk, r: RunId, row: Rows, ps: seq<Pass>)
    requires Watched(row) && forall i :: 0 <= i < |ps| ==> ReadsAlive(row, ps[i])
    ensures var after := Passes(d, r, row, ps);
      after == d.(mark := after.mark) && (ps != [] ==> after.mark == None)
  {
    if ps != [] {
      LivingWorkersAreLeftAlone(d, r, row, ps[..|ps| - 1]);
      DecisionIsCalledFor(row, ps[|ps| - 1]);
    }
  }

  // What else a decision does: recovery fails the run and frees its lease; an ambiguous end keeps the lease and
  // brings run and lane before the owner, with the possible write on record; nothing else touches the run.
  lemma DecisionsAct(row: Rows, d: Desk, r: RunId, p: Pass)
    requires Watched(row)
    ensures var decision := Decide(row, p);
      var next, desk := RowAfter(row, decision), AfterPass(d, r, decision);
      next == row.(state := next.state, lease := next.lease) &&
      (next.lease == row.lease || (row.lease == Held && next.lease == Released)) &&
      (next.state == WorkerFailed <==>
         SeenAs(row, p, Dead) && p.clean && Observe(p.last, row.pid, row.stamp) == Dead) &&
      (next.state == WorkerFailed ==> next.lease != Held && desk == d) &&
      (next.state == AmbiguousExecution <==> SeenAs(row, p, Dead) && !p.clean) &&
      (next.state == AmbiguousExecution ==>
         next.lease == row.lease &&
         desk == d.(state := WaitingOwner, possibleWrite := true, blockers := d.blockers + [r])) &&
      (ReadsAlive(row, p) || ReadsUnknown(row, p) ==> next == row && desk.possibleWrite == d.possibleWrite)
  {
    DecisionIsCalledFor(row, p);
  }

  // ---- crashes in the middle of a hold -------------------------------------------------------------

  // A hold may stop after parking the lane, or after filing the blocker, before its mark is written.
  datatype Cut = Whole | BeforePark | BeforeBlocker | BeforeMark

  function CutHold(d: Desk, r: RunId, cut: Cut): Desk {
    if cut == Whole then AfterHold(d, r)
    else if cut == BeforePark || !Escalates(d.mark, r) then d
    else if cut == BeforeBlocker then d.(state := WaitingOwner)
    else Escalated(d, r)
  }

  // Each cut stands one write after the one before: the lane is parked, then the blocker filed, then the mark
  // written; a hold that does not escalate writes the mark alone.
  lemma CutsAreInOrder(d: Desk, r: RunId)
    ensures CutHold(d, r, BeforePark) == d
    ensures Escalates(d.mark, r) ==>
      CutHold(d, r, BeforeBlocker) == d.(state := WaitingOwner) &&
      CutHold(d, r, BeforeMark) == CutHold(d, r, BeforeBlocker).(blockers := d.blockers + [r]) &&
      CutHold(d, r, Whole) == CutHold(d, r, BeforeMark).(mark := Some(Mark(r, Inherited(d.mark, r).passes + 1, true)))
    ensures !Escalates(d.mark, r) ==>
      CutHold(d, r, BeforeBlocker) == d && CutHold(d, r, BeforeMark) == d &&
      CutHold(d, r, Whole).(mark := d.mark) == d
  {
  }

  function CutHolds(d: Desk, r: RunId, cuts: seq<Cut>): Desk {
    if cuts == [] then d else CutHold(CutHolds(d, r, cuts[..|cuts| - 1]), r, cuts[|cuts| - 1])
  }

  function Wholes(cuts: seq<Cut>): nat {
    if cuts == [] then 0 else Wholes(cuts[..|cuts| - 1]) + if cuts[|cuts| - 1] == Whole then 1 else 0
  }

  // However holds are cut short, an escalation recorded as performed has been performed, and three
  // whole passes are always enough: it may be filed twice, never lost.
  lemma {:induction false} EscalationIsNeverLost(d: Desk, r: RunId, cuts: seq<Cut>)
    requires Unmarked(d, r)
    ensures var now := CutHolds(d, r, cuts);
      Inherited(now.mark, r).passes == (if Wholes(cuts) < 3 then Wholes(cuts) else 3) &&
      (Inherited(now.mark, r).escalated <==> Wholes(cuts) >= ESCALATION_PASSES) &&
      (Inherited(now.mark, r).escalated ==> now.state == WaitingOwner && r in now.blockers)
  {
    if cuts != [] {
      EscalationIsNeverLost(d, r, cuts[..|cuts| - 1]);
    }
  }

  // ---- one mark for the whole lane -----------------------------------------------------------------

  // One pass over one of the lane's unprocessed runs, and how it ended.
  datatype Beat = Beat(run: RunId, decision: Decision)

  function Beats(d: Desk, bs: seq<Beat>): Desk {
    if bs == [] then d else AfterPass(Beats(d, bs[..|bs| - 1]), bs[|bs| - 1].run, bs[|bs| - 1].decision)
  }

  // How many of the lane's latest holds in a row, no clear reading between them, were of this run.
  function RunStreak(bs: seq<Beat>, r: RunId): nat {
    if bs == [] then 0
    else
      var last, front := bs[|bs| - 1], RunStreak(bs[..|bs| - 1], r);
      match last.decision
      case Hold => if last.run == r then front + 1 else 0
      case Clear => 0
      case _ => front
  }

  lemma {:induction false} MarkCountsTheRunStreak(d: Desk, bs: seq<Beat>, r: RunId)
    requires Unmarked(d, r)
    ensures var now, n := Inherited(Beats(d, bs).mark, r), RunStreak(bs, r);
      now.run == r && now.passes == (if n < 3 then n else 3) && (now.escalated <==> n >= 3)
  {
    if bs != [] {
      MarkCountsTheRunStreak(d, bs[..|bs| - 1], r);
    }
  }

  // The count is per lane. With any number of unprocessed runs on it, a hold reaches the owner's desk
  // exactly when it is the third in a row of one and the same run.
  lemma {:induction false} EscalatesExactlyAtItsOwnThirdHold(d: Desk, bs: seq<Beat>, r: RunId)
    requires Unmarked(d, r) && bs != [] && bs[|bs| - 1] == Beat(r, Hold)
    ensures var before, after := Beats(d, bs[..|bs| - 1]), Beats(d, bs);
      if RunStreak(bs, r) == ESCALATION_PASSES
      then after.state == WaitingOwner && after.blockers == before.blockers + [r]
      else after.state == before.state && after.blockers == before.blockers
  {
    MarkCountsTheRunStreak(d, bs[..|bs| - 1], r);
  }

  function Alternating(d: Desk, r: RunId, s: RunId, n: nat): Desk {
    if n == 0 then d else AfterHold(AfterHold(Alternating(d, r, s, n - 1), r), s)
  }

  // So the bound holds only while a lane has one unprocessed run: two runs held in the same passes take
  // the mark from each other and are never escalated.
  lemma {:induction false} TwoRunsAreNeverEscalated(d: Desk, r: RunId, s: RunId, n: nat)
    requires r != s && d.mark.None?
    ensures Alternating(d, r, s, n).state == d.state && Alternating(d, r, s, n).blockers == d.blockers
    ensures n > 0 ==> Alternating(d, r, s, n).mark == Some(Mark(s, 1, false))
    ensures n == 0 ==> Alternating(d, r, s, n) == d
  {
    if n > 0 {
      TwoRunsAreNeverEscalated(d, r, s, n - 1);
    }
  }
}
