// src/quaestor/core/programs.py: lanes, their dependencies, and which lanes a dependency still holds back.
module Programs {
  type LaneId = string

  datatype LaneState =
    | Planned | Active | WaitingStrategist | WaitingOwner | WaitingLane | WaitingExternal | Complete | Abandoned

  datatype DependencyKind = Blocks | Requires | ProducesFor | Validates | Reviews | Supersedes | MergesAfter

  datatype Dependency = Dependency(from: LaneId, to: LaneId, kind: DependencyKind)

  predicate Terminal(s: LaneState) {
    s == Complete || s == Abandoned
  }

  predicate IsWaiting(s: LaneState) {
    s == WaitingStrategist || s == WaitingOwner || s == WaitingLane || s == WaitingExternal
  }

  // A dependency that still gates its from-lane. A lane the program does not have never completes.
  predicate Gates(lanes: map<LaneId, LaneState>, d: Dependency) {
    (d.kind == Requires || d.kind == MergesAfter) && (d.to !in lanes || lanes[d.to] != Complete)
  }

  // Planned, active, waiting or over: every state is exactly one of these.
  lemma StatesArePartitioned(s: LaneState)
    ensures IsWaiting(s) <==> s != Planned && s != Active && s != Complete && s != Abandoned
    ensures Terminal(s) <==> s == Complete || s == Abandoned
  {
  }

  // A dependency stops gating only when its target is complete; the descriptive kinds never gate.
  lemma GatesExactly(lanes: map<LaneId, LaneState>, d: Dependency)
    ensures d.kind in {Blocks, ProducesFor, Validates, Reviews, Supersedes} ==> !Gates(lanes, d)
    ensures d.kind in {Requires, MergesAfter} ==>
      (!Gates(lanes, d) <==> d.to in lanes && lanes[d.to] == Complete)
  {
  }

  // The lanes k waits for, in the order their dependencies are stored.
  function Waits(lanes: map<LaneId, LaneState>, deps: seq<Dependency>, k: LaneId): (r: seq<LaneId>)
    ensures forall x :: x in r <==> exists d :: d in deps && d.from == k && d.to == x && Gates(lanes, d)
  {
    if deps == [] then []
    else
      var d := deps[|deps| - 1];
      assert deps == deps[..|deps| - 1] + [d];
      Waits(lanes, deps[..|deps| - 1], k) + if d.from == k && Gates(lanes, d) then [d.to] else []
  }

  ghost predicate Tabulates(blocking: map<LaneId, seq<LaneId>>, lanes: map<LaneId, LaneState>, deps: seq<Dependency>) {
    forall k :: (k in blocking <==> Waits(lanes, deps, k) != []) &&
                (k in blocking ==> blocking[k] == Waits(lanes, deps, k))
  }

  lemma TabulatesOneMore(blocking: map<LaneId, seq<LaneId>>, lanes: map<LaneId, LaneState>, deps: seq<Dependency>,
                         d: Dependency)
    requires Tabulates(blocking, lanes, deps)
    ensures Tabulates(
      if !Gates(lanes, d) then blocking
      else blocking[d.from := (if d.from in blocking then blocking[d.from] else []) + [d.to]], lanes, deps + [d])
  {
    assert (deps + [d])[..|deps|] == deps;
  }

  // The order of strings: by the first character that differs, a prefix first.
  predicate Precedes(a: string, b: string) {
    a == "" || (b != "" && (a[0] < b[0] || (a[0] == b[0] && Precedes(a[1..], b[1..]))))
  }

  lemma {:induction false} PrecedesIsTotal(a: string, b: string)
    ensures Precedes(a, b) || Precedes(b, a)
  {
    if a != "" && b != "" { PrecedesIsTotal(a[1..], b[1..]); }
  }

  lemma {:induction false} PrecedesChains(a: string, b: string, c: string)
    requires Precedes(a, b) && Precedes(b, c)
    ensures Precedes(a, c)
  {
    if a != "" && a[0] == b[0] == c[0] { PrecedesChains(a[1..], b[1..], c[1..]); }
  }

  predicate Ascending(s: seq<LaneId>) {
    forall i, j :: 0 <= i < j < |s| ==> Precedes(s[i], s[j])
  }

  function Insert(s: seq<LaneId>, x: LaneId): (r: seq<LaneId>)
    requires Ascending(s)
    ensures Ascending(r) && multiset(r) == multiset(s) + multiset{x}
  {
    if s == [] then [x]
    else
      var front, last := s[..|s| - 1], s[|s| - 1];
      assert s == front + [last];
      PrecedesIsTotal(last, x);
      if Precedes(last, x) then
        InsertLast(s, x);
        s + [x]
      else
        var r := Insert(front, x);
        InsertBefore(front, last, x, r);
        r + [last]
  }

  lemma InsertLast(s: seq<LaneId>, x: LaneId)
    requires Ascending(s) && s != [] && Precedes(s[|s| - 1], x)
    ensures Ascending(s + [x])
  {
    forall i | 0 <= i < |s| - 1 ensures Precedes(s[i], x) { PrecedesChains(s[i], s[|s| - 1], x); }
  }

  lemma InsertBefore(front: seq<LaneId>, last: LaneId, x: LaneId, r: seq<LaneId>)
    requires Ascending(front + [last]) && Precedes(x, last)
    requires Ascending(r) && multiset(r) == multiset(front) + multiset{x}
    ensures Ascending(r + [last])
  {
    forall i | 0 <= i < |r| ensures Precedes(r[i], last) {
      assert r[i] in multiset(r);
      if r[i] != x {
        assert r[i] in front;
        var j :| 0 <= j < |front| && front[j] == r[i];
        assert (front + [last])[j] == r[i] && (front + [last])[|front|] == last;
      }
    }
  }

  // sorted().
  function Sorted(s: seq<LaneId>): (r: seq<LaneId>)
    ensures Ascending(r) && multiset(r) == multiset(s)
  {
    if s == [] then []
    else
      assert s == s[..|s| - 1] + [s[|s| - 1]];
      Insert(Sorted(s[..|s| - 1]), s[|s| - 1])
  }

  // One entry per waiting lane: what it waits for, each as often as it is listed, in order of name.
  method BlockingDependencies(lanes: map<LaneId, LaneState>, deps: seq<Dependency>)
    returns (blocking: map<LaneId, seq<LaneId>>)
    ensures forall k :: k in blocking <==> exists d :: d in deps && d.from == k && Gates(lanes, d)
    ensures forall k :: k in blocking ==>
      Ascending(blocking[k]) && multiset(blocking[k]) == multiset(Waits(lanes, deps, k))
  {
    blocking := map[];
    for i := 0 to |deps|
      invariant Tabulates(blocking, lanes, deps[..i])
    {
      var d := deps[i];
      TabulatesOneMore(blocking, lanes, deps[..i], d);
      assert deps[..i + 1] == deps[..i] + [d];
      if d.kind != Requires && d.kind != MergesAfter { continue; }
      if d.to !in lanes || lanes[d.to] != Complete {
        blocking := blocking[d.from := (if d.from in blocking then blocking[d.from] else []) + [d.to]];
      }
    }
    assert deps[..|deps|] == deps;
    forall k ensures Waits(lanes, deps, k) != [] <==> exists d :: d in deps && d.from == k && Gates(lanes, d) {
      SomethingWaitedFor(lanes, deps, k);
    }
    blocking := map k | k in blocking :: Sorted(blocking[k]);
  }

  lemma SomethingWaitedFor(lanes: map<LaneId, LaneState>, deps: seq<Dependency>, k: LaneId)
    ensures Waits(lanes, deps, k) != [] <==> exists d :: d in deps && d.from == k && Gates(lanes, d)
  {
    var r := Waits(lanes, deps, k);
    if r != [] { assert r[0] in r; }
    if d :| d in deps && d.from == k && Gates(lanes, d) { assert d.to in r; }
  }

  // d holds its from-lane back even after the scheduler forgives abandoned lanes.
  predicate HoldsBack(lanes: map<LaneId, LaneState>, d: Dependency) {
    Gates(lanes, d) && !(d.to in lanes && lanes[d.to] == Abandoned)
  }

  // orchestrator.schedule's filter: a dependency on an abandoned lane no longer counts.
  method SchedulingBlockers(lanes: map<LaneId, LaneState>, deps: seq<Dependency>) returns (blocked: set<LaneId>)
    ensures forall k :: k in blocked <==> exists d :: d in deps && d.from == k && HoldsBack(lanes, d)
  {
    var blocking := BlockingDependencies(lanes, deps);
    var abandoned := set k | k in lanes && lanes[k] == Abandoned;
    blocked := set k | k in blocking && exists x :: x in blocking[k] && x !in abandoned;
    forall k, x | k in blocking ensures x in blocking[k] <==> x in Waits(lanes, deps, k) {
      assert x in blocking[k] <==> x in multiset(blocking[k]);
      assert x in Waits(lanes, deps, k) <==> x in multiset(Waits(lanes, deps, k));
    }
    forall d | d in deps && HoldsBack(lanes, d) ensures d.from in blocked {
      assert d.to in Waits(lanes, deps, d.from);
    }
    forall k | k in blocked ensures exists d :: d in deps && d.from == k && HoldsBack(lanes, d) {
      var x :| x in blocking[k] && x !in abandoned;
      assert x in Waits(lanes, deps, k);
    }
  }
}
