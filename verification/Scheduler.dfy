// The imperative half of the lane engine (core/orchestrator.py): the lanes of one program as a mutable
// table, each operation as the sequence of writes the source makes, and the passes of one tick. What
// each operation leaves behind is the corresponding step of LaneEngine.
module Scheduler {
  import opened Wrappers
  import opened Graphs
  import opened Programs
  import opened Runs
  import opened LaneEngine

  class Board {
    var lanes: map<LaneId, Lane>
    const policy: Policy

    constructor (policy: Policy, lanes: map<LaneId, Lane>)
      ensures this.policy == policy && this.lanes == lanes
    {
      this.policy, this.lanes := policy, lanes;
    }

    ghost predicate Valid()
      reads this
    {
      forall id :: id in lanes ==> OneRun(lanes[id])
    }

    method SetLaneState(id: LaneId, s: LaneState)
      requires id in lanes
      modifies this`lanes
      ensures lanes == old(lanes)[id := old(lanes)[id].(state := s)]
    {
      lanes := lanes[id := lanes[id].(state := s)];
    }

    method BumpAttempt(id: LaneId) returns (n: int)
      requires id in lanes
      modifies this`lanes
      ensures n == old(lanes)[id].attempt + 1 && lanes == old(lanes)[id := old(lanes)[id].(attempt := n)]
    {
      n := lanes[id].attempt + 1;
      lanes := lanes[id := lanes[id].(attempt := n)];
    }

    method BindRun(id: LaneId, role: Role)
      requires id in lanes
      modifies this`lanes
      ensures lanes == old(lanes)[id := old(lanes)[id].(open := old(lanes)[id].open + [role])]
    {
      lanes := lanes[id := lanes[id].(open := lanes[id].open + [role])];
    }

    // Blocking findings consume an attempt; none complete the lane.
    method ResolveFindingsFrom(id: LaneId, findings: bool)
      requires id in lanes
      modifies this`lanes
      ensures lanes == old(lanes)[id := Resolve(policy, old(lanes)[id], findings)]
    {
      if findings {
        var attempt := BumpAttempt(id);
        if attempt > policy.maxReviewCycles {
          SetLaneState(id, WaitingStrategist);
          return;
        }
        SetLaneState(id, Planned);
        return;
      }
      SetLaneState(id, Complete);
    }

    // A refused reviewer parks the lane (the caller then overwrites that).
    method DispatchReviewer(id: LaneId, admitted: bool)
      requires id in lanes
      modifies this`lanes
      ensures lanes == old(lanes)[id := if admitted then old(lanes)[id].(open := old(lanes)[id].open + [Review])
                                        else old(lanes)[id].(state := WaitingStrategist)]
    {
      if admitted { BindRun(id, Review); } else { SetLaneState(id, WaitingStrategist); }
    }

    method ConsumeImplementation(id: LaneId, rep: Report)
      requires id in lanes
      modifies this`lanes
      ensures lanes == old(lanes)[id := AfterImplementation(policy, old(lanes)[id], rep)]
    {
      if policy.requireAdversarial && rep.committed {
        DispatchReviewer(id, rep.reviewer);
        lanes := lanes[id := lanes[id].(work := Work(lanes[id].work.held || rep.findings, Unreviewed))];
        SetLaneState(id, Active);
        return;
      }
      ResolveFindingsFrom(id, rep.findings);
    }

    method ConsumeReview(id: LaneId, findings: bool)
      requires id in lanes
      modifies this`lanes
      ensures lanes == old(lanes)[id := AfterReview(policy, old(lanes)[id], findings)]
    {
      var surviving := findings || lanes[id].work.held;
      lanes := lanes[id := lanes[id].(work := Work(false, if surviving then Flagged else Passed))];
      ResolveFindingsFrom(id, surviving);
    }

    method ConsumeRun(id: LaneId, role: Role, end: RunEnd)
      requires id in lanes
      modifies this`lanes
      ensures lanes == old(lanes)[id := AfterRun(policy, old(lanes)[id], role, end)]
      ensures EndsAs(policy, old(lanes)[id], role, end, lanes[id])
    {
      EndsAreNamed(policy, lanes[id], role, end);
      match end {
        case Ambiguous => SetLaneState(id, WaitingOwner);
        case Failed =>
          var attempt := BumpAttempt(id);
          SetLaneState(id, if attempt > policy.maxReviewCycles + 1 then WaitingStrategist else Planned);
        case Refused => SetLaneState(id, WaitingStrategist);
        case Ready(rep) =>
          if role == Review || lanes[id].kind == AdversarialReview {
            ConsumeReview(id, rep.findings);
          } else if lanes[id].kind == Implementation {
            ConsumeImplementation(id, rep);
          } else {
            SetLaneState(id, Complete);
          }
      }
    }

    // The run is marked processed before it is looked at.
    method ReapRun(id: LaneId, i: nat, end: RunEnd)
      requires id in lanes && i < |lanes[id].open|
      modifies this`lanes
      ensures lanes == old(lanes)[id := Step(policy, old(lanes)[id], Consume(i, end))]
      ensures HappensAs(policy, old(lanes)[id], Consume(i, end), lanes[id])
    {
      EventsAreNamed(policy, lanes[id], Consume(i, end));
      var role := lanes[id].open[i];
      lanes := lanes[id := lanes[id].(open := Without(lanes[id].open, i))];
      if lanes[id].state == Abandoned { return; }
      if lanes[id].desk.awaiting { return; }
      ConsumeRun(id, role, end);
    }

    // Consume every finished run: each lane's run, if it has ended, exactly once.
    method Reap(order: seq<LaneId>, ended: map<LaneId, RunEnd>)
      requires Valid() && NoRepeat(order) && forall id :: id in order <==> id in lanes
      modifies this`lanes
      ensures Valid() && lanes.Keys == old(lanes).Keys
      ensures forall id :: id in lanes ==> lanes[id] == Reaped(policy, old(lanes)[id], id, ended)
    {
      for n := 0 to |order|
        invariant lanes.Keys == old(lanes).Keys
        invariant forall j :: 0 <= j < n ==> lanes[order[j]] == Reaped(policy, old(lanes)[order[j]], order[j], ended)
        invariant forall j :: n <= j < |order| ==> lanes[order[j]] == old(lanes)[order[j]]
      {
        var id := order[n];
        if lanes[id].open != [] && id in ended {
          ReapRun(id, 0, ended[id]);
        }
      }
      ReapedKeepsOneRun(policy, old(lanes), lanes, ended);
    }

    // An answer wakes a parked lane, or leaves a note for the next tick.
    method AnswerLane(id: LaneId)
      requires id in lanes
      modifies this`lanes
      ensures lanes == old(lanes)[id := Step(policy, old(lanes)[id], Answer)]
      ensures HappensAs(policy, old(lanes)[id], Answer, lanes[id])
    {
      EventsAreNamed(policy, lanes[id], Answer);
      if IsWaiting(lanes[id].state) {
        SetLaneState(id, Planned);
      } else if !Terminal(lanes[id].state) {
        lanes := lanes[id := lanes[id].(desk := lanes[id].desk.(wake := true))];
      }
    }

    // The flag is cleared before the lane is woken.
    method WakeLane(id: LaneId) returns (woke: bool)
      requires id in lanes
      modifies this`lanes
      ensures lanes == old(lanes)[id := Step(policy, old(lanes)[id], ApplyWakes)]
      ensures woke <==> Wakes(old(lanes)[id])
      ensures HappensAs(policy, old(lanes)[id], ApplyWakes, lanes[id])
    {
      EventsAreNamed(policy, lanes[id], ApplyWakes);
      woke := !Terminal(lanes[id].state) && IsWaiting(lanes[id].state) && lanes[id].desk.wake;
      if woke {
        lanes := lanes[id := lanes[id].(desk := lanes[id].desk.(wake := false))];
        SetLaneState(id, Planned);
      } else {
        assert lanes == lanes[id := lanes[id]];
      }
    }

    method ApplyPendingWakes(order: seq<LaneId>) returns (woken: set<LaneId>)
      requires Valid() && NoRepeat(order) && forall id :: id in order <==> id in lanes
      modifies this`lanes
      ensures Valid() && lanes.Keys == old(lanes).Keys
      ensures forall id :: id in lanes ==> lanes[id] == Step(policy, old(lanes)[id], ApplyWakes)
      ensures woken == set id | id in old(lanes) && Wakes(old(lanes)[id])
      ensures forall id :: id in lanes ==> (id in woken <==> lanes[id] != old(lanes)[id])
    {
      woken := {};
      ghost var was := lanes;
      assert WokenUpTo(was, order[..0]) == was;
      for n := 0 to |order|
        invariant lanes == WokenUpTo(was, order[..n])
        invariant woken == set id | id in order[..n] && id in was && Wakes(was[id])
      {
        WokenOn(was, order, n);
        var woke := WakeLane(order[n]);
        if woke { woken := woken + {order[n]}; }
      }
      assert order[..|order|] == order;
    }

    // One scheduling attempt; the lane is promoted only from PLANNED.
    method ScheduleLane(id: LaneId, a: Admission) returns (started: bool)
      requires id in lanes && Startable(lanes[id])
      modifies this`lanes
      ensures lanes == old(lanes)[id := Step(policy, old(lanes)[id], Schedule(a))]
      ensures started <==> a == Admitted
      ensures SchedulesAs(old(lanes)[id], a, lanes[id])
    {
      AttemptsAreNamed(lanes[id], a);
      started := a == Admitted;
      assert lanes == lanes[id := lanes[id]];
      if a == NotReady || a == Ceiling { return; }
      if a == Admitted {
        BindRun(id, Own);
        assert lanes[id].open == [Own];
        if lanes[id].state == Planned { SetLaneState(id, Active); }
      } else {
        SetLaneState(id, if a == OwnerRefusal then WaitingOwner else WaitingStrategist);
      }
    }

    // What a pass does with one lane it reaches.
    method Attempt(id: LaneId, blocked: bool, a: Admission) returns (started: bool)
      requires id in lanes
      modifies this`lanes
      ensures lanes == old(lanes)[id := Attempted(policy, old(lanes)[id], blocked, a)]
      ensures started <==> !blocked && Startable(old(lanes)[id]) && a == Admitted
    {
      started := false;
      assert lanes == lanes[id := lanes[id]];
      if !blocked && Startable(lanes[id]) { started := ScheduleLane(id, a); }
    }

    method Pass(order: seq<LaneId>, blocked: set<LaneId>, asked: map<LaneId, Admission>, active: nat, ceiling: int,
                spawn: bool)
      returns (started: seq<LaneId>, reached: nat)
      requires NoRepeat(order) && (forall id :: id in order <==> id in lanes) && asked.Keys == lanes.Keys
      modifies this`lanes
      ensures lanes.Keys == old(lanes).Keys && reached <= |order|
      ensures forall j :: 0 <= j < reached ==>
        lanes[order[j]] == Attempted(policy, old(lanes)[order[j]], order[j] in blocked, asked[order[j]])
      ensures forall j :: reached <= j < |order| ==> lanes[order[j]] == old(lanes)[order[j]]
      ensures NoRepeat(started) && forall id :: id in started ==>
        id in old(lanes) && id !in blocked && Startable(old(lanes)[id]) && asked[id] == Admitted
      ensures spawn ==> |started| <= Max(0, Max(1, ceiling) - active)
      ensures reached < |order| ==> spawn && |started| + active >= Max(1, ceiling)
    {
      started, reached := [], 0;
      while reached < |order|
        invariant reached <= |order| && lanes.Keys == old(lanes).Keys && NoRepeat(started)
        invariant forall j :: reached <= j < |order| ==> lanes[order[j]] == old(lanes)[order[j]] && order[j] !in started
        invariant forall j :: 0 <= j < reached ==>
          lanes[order[j]] == Attempted(policy, old(lanes)[order[j]], order[j] in blocked, asked[order[j]])
        invariant forall id :: id in started ==>
          id in old(lanes) && id !in blocked && Startable(old(lanes)[id]) && asked[id] == Admitted
        invariant spawn ==> |started| <= Max(0, Max(1, ceiling) - active)
      {
        if |started| + active >= Max(1, ceiling) && spawn { break; }
        var id := order[reached];
        assert forall j :: 0 <= j < |order| && j != reached ==> order[j] != id;
        var ok := Attempt(id, id in blocked, asked[id]);
        if ok { started := started + [id]; }
        reached := reached + 1;
      }
    }

    // Dispatch what is startable and unblocked, up to the ceiling: every lane is left alone or takes
    // one scheduling step, and a lane is passed over only while something holds it back or once the
    // ceiling is reached.
    method SchedulePass(order: seq<LaneId>, deps: seq<Dependency>, asked: map<LaneId, Admission>, active: nat,
                        ceiling: int, spawn: bool)
      returns (started: seq<LaneId>)
      requires Valid() && NoRepeat(order) && (forall id :: id in order <==> id in lanes) && asked.Keys == lanes.Keys
      modifies this`lanes
      ensures Valid() && lanes.Keys == old(lanes).Keys
      ensures forall id :: id in lanes ==>
        lanes[id] == old(lanes)[id] || lanes[id] == Step(policy, old(lanes)[id], Schedule(asked[id]))
      ensures NoRepeat(started) && forall id :: id in started ==>
        id in old(lanes) && Startable(old(lanes)[id]) && asked[id] == Admitted && !HeldBack(old(lanes), deps, id)
      ensures spawn ==> |started| <= Max(0, Max(1, ceiling) - active)
      ensures (spawn && |started| + active >= Max(1, ceiling)) ||
              forall id :: id in lanes && !HeldBack(old(lanes), deps, id) ==>
                lanes[id] == Step(policy, old(lanes)[id], Schedule(asked[id]))
    {
      var blocked := SchedulingBlockers(States(lanes), deps);
      assert forall id :: id in blocked <==> HeldBack(lanes, deps, id);
      var reached: nat;
      started, reached := Pass(order, blocked, asked, active, ceiling, spawn);
      forall id | id in lanes ensures OneRun(lanes[id]) {
        StepKeepsOneRun(policy, old(lanes)[id], Schedule(asked[id]));
      }
    }

    // One tick: consume what finished, apply pending wakes, then schedule.
    method Tick(order: seq<LaneId>, deps: seq<Dependency>, ended: map<LaneId, RunEnd>, asked: map<LaneId, Admission>,
                active: nat, ceiling: int, spawn: bool)
      returns (started: seq<LaneId>)
      requires Valid() && NoRepeat(order) && (forall id :: id in order <==> id in lanes) && asked.Keys == lanes.Keys
      modifies this`lanes
      ensures Valid() && lanes.Keys == old(lanes).Keys
      ensures forall id :: id in lanes ==> OneTick(policy, old(lanes)[id], lanes[id], id, ended, asked[id])
      ensures spawn ==> |started| <= Max(0, Max(1, ceiling) - active)
    {
      Reap(order, ended);
      var woken := ApplyPendingWakes(order);
      started := SchedulePass(order, deps, asked, active, ceiling, spawn);
    }
  }

  predicate Wakes(l: Lane) {
    IsWaiting(l.state) && l.desk.wake
  }

  // The listed lanes woken if they are to be, the others as they were.
  function WokenUpTo(was: map<LaneId, Lane>, ids: seq<LaneId>): map<LaneId, Lane> {
    map id | id in was :: if id in ids then AfterWakes(was[id]) else was[id]
  }

  lemma WokenOn(was: map<LaneId, Lane>, order: seq<LaneId>, n: nat)
    requires n < |order| && NoRepeat(order) && order[n] in was
    ensures var id := order[n];
      order[..n + 1] == order[..n] + [id] && id !in order[..n] && WokenUpTo(was, order[..n])[id] == was[id] &&
      WokenUpTo(was, order[..n + 1]) == WokenUpTo(was, order[..n])[id := AfterWakes(was[id])]
  {
    assert order[..n + 1] == order[..n] + [order[n]];
  }

  function States(lanes: map<LaneId, Lane>): map<LaneId, LaneState> {
    map id | id in lanes :: lanes[id].state
  }

  ghost predicate HeldBack(lanes: map<LaneId, Lane>, deps: seq<Dependency>, id: LaneId) {
    exists d :: d in deps && d.from == id && HoldsBack(States(lanes), d)
  }

  function Attempted(p: Policy, l: Lane, blocked: bool, a: Admission): Lane {
    if blocked then l else Step(p, l, Schedule(a))
  }

  function Reaped(p: Policy, l: Lane, id: LaneId, ended: map<LaneId, RunEnd>): Lane {
    if l.open != [] && id in ended then Step(p, l, Consume(0, ended[id])) else l
  }

  // Reap, wake, and possibly one scheduling attempt.
  ghost predicate OneTick(p: Policy, before: Lane, after: Lane, id: LaneId, ended: map<LaneId, RunEnd>, a: Admission) {
    var woken := Step(p, Reaped(p, before, id, ended), ApplyWakes);
    after == woken || after == Step(p, woken, Schedule(a))
  }

  function Hand(e: bool, x: Event): seq<Event> {
    if e then [x] else []
  }

  // So what a tick does to a lane is a behaviour of the lane engine: its bounds and guarantees hold of
  // any number of ticks, with answers in between.
  lemma {:induction false} TickIsBehaviour(p: Policy, before: Lane, after: Lane, id: LaneId,
                                           ended: map<LaneId, RunEnd>, a: Admission)
    returns (es: seq<Event>)
    requires OneTick(p, before, after, id, ended, a)
    ensures after == Run(Machine(p), before, es)
    ensures forall e :: e in es ==> e.Consume? || e == ApplyWakes || e == Schedule(a)
  {
    var m := Machine(p);
    var reap := Hand(before.open != [] && id in ended, if id in ended then Consume(0, ended[id]) else ApplyWakes);
    var reaped := Reaped(p, before, id, ended);
    var woken := Step(p, reaped, ApplyWakes);
    var sched := Hand(after != woken, Schedule(a));
    HandRun(p, before, before.open != [] && id in ended, if id in ended then Consume(0, ended[id]) else ApplyWakes);
    HandRun(p, reaped, true, ApplyWakes);
    HandRun(p, woken, after != woken, Schedule(a));
    RunConcat(m, before, reap, [ApplyWakes]);
    RunConcat(m, before, reap + [ApplyWakes], sched);
    es := reap + [ApplyWakes] + sched;
  }

  lemma HandRun(p: Policy, l: Lane, e: bool, x: Event)
    ensures Run(Machine(p), l, Hand(e, x)) == if e then Machine(p)(l, x) else l
  {
    if e { OneStep(Machine(p), StartsOf(p), l, x); }
  }

  lemma ReapedKeepsOneRun(p: Policy, before: map<LaneId, Lane>, after: map<LaneId, Lane>, ended: map<LaneId, RunEnd>)
    requires before.Keys == after.Keys && forall id :: id in before ==> OneRun(before[id])
    requires forall id :: id in after ==> after[id] == Reaped(p, before[id], id, ended)
    ensures forall id :: id in after ==> OneRun(after[id])
  {
    forall id | id in after ensures OneRun(after[id]) {
      if before[id].open != [] && id in ended { StepKeepsOneRun(p, before[id], Consume(0, ended[id])); }
    }
  }
}
