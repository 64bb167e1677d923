// src/quaestor/core/planner.py: the validation of a plan proposal and its hand-written topological sort.
module Planner {
  import opened Wrappers
  import opened Graphs

  // A lane as proposed. None is an explicit null; an absent acceptance or depends_on is the empty list.
  datatype LaneDoc = LaneDoc(key: Key, title: string, task: string, kind: string,
                             acceptance: Option<seq<string>>, dependsOn: Option<seq<Key>>)

  datatype ProposalError =
    | Empty | TooManyLanes | BlankKey(lane: nat) | DuplicateKey(lane: nat) | BadTitle(lane: nat) | BadTask(lane: nat)
    | BlankKind(lane: nat) | UnknownKind(lane: nat) | NoAcceptance(lane: nat) | TooManyAcceptance(lane: nat)
    | BadAcceptance(lane: nat, entry: nat) | BadDependsOn(lane: nat) | TooManyDepends(lane: nat)
    | UnknownDependency(lane: nat, dep: Key) | Cycle(stuck: set<Key>)

  const MAX_LANES := 64
  const MAX_TITLE_CHARS := 200
  const MAX_TASK_CHARS := 8000
  const MAX_ACCEPTANCE_PER_LANE := 32
  const MAX_ACCEPTANCE_CHARS := 500
  const MAX_DEPENDS_PER_LANE := 16

  predicate LaneKind(kind: string) {
    kind == "research" || kind == "implementation" || kind == "verification" || kind == "adversarial_review" ||
    kind == "integration"
  }

  predicate Blank(s: string) {
    forall i :: 0 <= i < |s| ==> IsSpace(s[i])
  }

  predicate Text(s: string, max: nat) {
    !Blank(s) && |s| <= max
  }

  function KeySet(lanes: seq<LaneDoc>): set<Key> {
    set i | 0 <= i < |lanes| :: lanes[i].key
  }

  function Deps(l: LaneDoc): seq<Key> {
    if l.dependsOn.Some? then l.dependsOn.value else []
  }

  function Known(deps: seq<Key>, keys: set<Key>): (r: seq<Key>)
    ensures forall d :: d in r <==> d in deps && d in keys
  {
    if deps == [] then []
    else
      var rest := Known(deps[1..], keys);
      if deps[0] in keys then [deps[0]] + rest else rest
  }

  // The edges the sort works on: a dict comprehension, so the last lane of a repeated key wins.
  function EdgesUpTo(lanes: seq<LaneDoc>, keys: set<Key>, n: nat): (g: Edges)
    requires n <= |lanes| && KeySet(lanes) <= keys
    ensures g.Keys == KeySet(lanes[..n])
    ensures forall k, d :: k in g && d in g[k] ==> d in keys
  {
    if n == 0 then map[]
    else
      assert KeySet(lanes[..n]) == KeySet(lanes[..n - 1]) + {lanes[n - 1].key};
      EdgesUpTo(lanes, keys, n - 1)[lanes[n - 1].key := Known(Deps(lanes[n - 1]), keys)]
  }

  function EdgesOf(lanes: seq<LaneDoc>): (g: Edges)
    ensures g.Keys == KeySet(lanes) && Closed(g)
  {
    assert lanes[..|lanes|] == lanes;
    EdgesUpTo(lanes, KeySet(lanes), |lanes|)
  }

  // Any enumeration of a set stands for the source's `sorted`: the sort's result does not depend on it.
  method Enumerate(s: set<Key>) returns (order: seq<Key>)
    ensures NoRepeat(order) && Elems(order) == s
  {
    var rest := s;
    order := [];
    while rest != {}
      invariant NoRepeat(order) && Elems(order) !! rest && Elems(order) + rest == s
      decreases rest
    {
      var k :| k in rest;
      rest := rest - {k};
      assert Elems(order + [k]) == Elems(order) + {k};
      order := order + [k];
    }
  }

  // ---- the sort ---------------------------------------------------------------------------------

  // In-degree bookkeeping: every listed dependency, less each distinct one already processed.
  ghost predicate Owes(g: Edges, indeg: map<Key, int>, k: Key, seen: set<Key>) {
    k in g && k in indeg && indeg[k] == |g[k]| - |Elems(g[k]) * seen| && indeg[k] > 0
  }

  ghost predicate Settled(g: Edges, k: Key, seen: set<Key>) {
    k in g && NoRepeat(g[k]) && Elems(g[k]) <= seen
  }

  ghost predicate SeenInOrder(g: Edges, seen: seq<Key>) {
    forall i :: 0 <= i < |seen| ==> Settled(g, seen[i], Elems(seen[..i]))
  }

  // What the sort keeps between two turns of its loop.
  ghost predicate Turn(g: Edges, indeg: map<Key, int>, done: set<Key>, queue: seq<Key>) {
    NoRepeat(queue) && (forall k :: k in queue ==> k !in done && Settled(g, k, done)) &&
    forall k :: k in g && k !in done && k !in queue ==> Owes(g, indeg, k, done)
  }

  // What the inner pass keeps: the first i lanes have paid for the newly processed key n.
  ghost predicate Midway(g: Edges, order: seq<Key>, i: nat, indeg: map<Key, int>, seen: set<Key>, n: Key,
                         queue: seq<Key>)
  {
    NoRepeat(queue) && (forall k :: k in queue ==> k !in seen + {n} && Settled(g, k, seen + {n})) &&
    forall j :: 0 <= j < |order| && order[j] !in seen + {n} && order[j] !in queue ==>
      Owes(g, indeg, order[j], if j < i then seen + {n} else seen)
  }

  lemma OneMore(ds: seq<Key>, seen: set<Key>, n: Key)
    requires n !in seen
    ensures |Elems(ds) * (seen + {n})| == |Elems(ds) * seen| + if n in ds then 1 else 0
  {
    if n in ds {
      assert Elems(ds) * (seen + {n}) == Elems(ds) * seen + {n};
    } else {
      assert Elems(ds) * (seen + {n}) == Elems(ds) * seen;
    }
  }

  lemma PaidMeansSettled(ds: seq<Key>, seen: set<Key>)
    requires |ds| == |Elems(ds) * seen|
    ensures NoRepeat(ds) && Elems(ds) <= seen
  {
    ElemsSize(ds);
    SubsetSize(Elems(ds) * seen, Elems(ds));
  }

  lemma StillOwes(g: Edges, indeg: map<Key, int>, k: Key, seen: set<Key>, n: Key)
    requires Owes(g, indeg, k, seen) && n !in seen
    ensures n !in g[k] ==> Owes(g, indeg, k, seen + {n})
    ensures n in g[k] && indeg[k] > 1 ==> Owes(g, indeg[k := indeg[k] - 1], k, seen + {n})
    ensures n in g[k] && indeg[k] == 1 ==> Settled(g, k, seen + {n})
  {
    OneMore(g[k], seen, n);
    if n in g[k] && indeg[k] == 1 { PaidMeansSettled(g[k], seen + {n}); }
  }

  lemma SkipKeeps(g: Edges, order: seq<Key>, i: nat, indeg: map<Key, int>, seen: set<Key>, n: Key, queue: seq<Key>)
    requires Midway(g, order, i, indeg, seen, n, queue) && i < |order| && n !in seen && order[i] in g
    requires order[i] in seen + {n} || order[i] in queue || n !in g[order[i]]
    ensures Midway(g, order, i + 1, indeg, seen, n, queue)
  {
    if order[i] !in seen + {n} && order[i] !in queue { StillOwes(g, indeg, order[i], seen, n); }
  }

  lemma PayKeeps(g: Edges, order: seq<Key>, i: nat, indeg: map<Key, int>, seen: set<Key>, n: Key, queue: seq<Key>)
    requires Midway(g, order, i, indeg, seen, n, queue) && NoRepeat(order) && i < |order| && n !in seen
    requires order[i] in g && order[i] !in seen + {n} && order[i] !in queue && n in g[order[i]]
    ensures order[i] in indeg && indeg[order[i]] >= 1
    ensures Midway(g, order, i + 1, indeg[order[i] := indeg[order[i]] - 1], seen, n,
                   if indeg[order[i]] == 1 then queue + [order[i]] else queue)
  {
    var k := order[i];
    assert Owes(g, indeg, k, seen);
    StillOwes(g, indeg, k, seen, n);
    var next := indeg[k := indeg[k] - 1];
    forall j | 0 <= j < |order| && j != i && order[j] !in seen + {n} && order[j] !in queue
      ensures Owes(g, next, order[j], if j < i + 1 then seen + {n} else seen)
    {
      assert order[j] != k;
      assert Owes(g, indeg, order[j], if j < i then seen + {n} else seen);
    }
  }

  // The inner pass after processing n: pay every unqueued lane that lists n, queue the paid-up ones.
  method Pay(g: Edges, order: seq<Key>, seen: set<Key>, n: Key, indeg0: map<Key, int>, queue0: seq<Key>)
    returns (indeg: map<Key, int>, queue: seq<Key>)
    requires NoRepeat(order) && Elems(order) == g.Keys && n !in seen && n !in queue0
    requires Turn(g, indeg0, seen, [n] + queue0) && NoRepeat(queue0)
    ensures Turn(g, indeg, seen + {n}, queue)
  {
    indeg, queue := indeg0, queue0;
    PassBegins(g, order, indeg, seen, n, queue);
    for i := 0 to |order|
      invariant Midway(g, order, i, indeg, seen, n, queue)
    {
      var k := order[i];
      assert k in Elems(order);
      if n in g[k] && k !in seen + {n} && k !in queue {
        PayKeeps(g, order, i, indeg, seen, n, queue);
        indeg := indeg[k := indeg[k] - 1];
        if indeg[k] == 0 { queue := queue + [k]; }
      } else {
        SkipKeeps(g, order, i, indeg, seen, n, queue);
      }
    }
    PassEnds(g, order, indeg, seen, n, queue);
  }

  lemma PassBegins(g: Edges, order: seq<Key>, indeg: map<Key, int>, seen: set<Key>, n: Key, queue: seq<Key>)
    requires Elems(order) == g.Keys && n !in queue && NoRepeat(queue) && Turn(g, indeg, seen, [n] + queue)
    ensures Midway(g, order, 0, indeg, seen, n, queue)
  {
    forall k | k in queue ensures k !in seen + {n} && Settled(g, k, seen + {n}) { assert k in [n] + queue; }
    forall j | 0 <= j < |order| && order[j] !in seen + {n} && order[j] !in queue
      ensures Owes(g, indeg, order[j], seen)
    {
      assert order[j] in Elems(order) && order[j] !in [n] + queue;
    }
  }

  lemma PassEnds(g: Edges, order: seq<Key>, indeg: map<Key, int>, seen: set<Key>, n: Key, queue: seq<Key>)
    requires Elems(order) == g.Keys && Midway(g, order, |order|, indeg, seen, n, queue)
    ensures Turn(g, indeg, seen + {n}, queue)
  {
    forall k | k in g && k !in seen + {n} && k !in queue ensures Owes(g, indeg, k, seen + {n}) {
      assert k in Elems(order);
    }
  }

  lemma FirstTurn(g: Edges, indeg: map<Key, int>, queue: seq<Key>)
    requires NoRepeat(queue) && forall k :: k in queue <==> k in g && g[k] == []
    requires indeg == map k | k in g :: |g[k]|
    ensures Turn(g, indeg, {}, queue)
  {
    forall k | k in g && k !in queue ensures Owes(g, indeg, k, {}) {
      assert Elems(g[k]) * {} == {};
    }
  }

  // The keys processed so far: each once, each after everything it lists.
  ghost predicate Sorted(g: Edges, seen: seq<Key>) {
    NoRepeat(seen) && Elems(seen) <= g.Keys && SeenInOrder(g, seen)
  }

  lemma SortedGrows(g: Edges, seen: seq<Key>, n: Key)
    requires Sorted(g, seen) && n !in Elems(seen) && Settled(g, n, Elems(seen))
    ensures Sorted(g, seen + [n]) && Elems(seen + [n]) == Elems(seen) + {n}
    ensures |g.Keys - Elems(seen + [n])| < |g.Keys - Elems(seen)|
  {
    assert Elems(seen + [n]) == Elems(seen) + {n};
    assert g.Keys - Elems(seen) == g.Keys - Elems(seen + [n]) + {n};
    OrderGrows(g, seen, n);
  }

  lemma OrderGrows(g: Edges, seen: seq<Key>, n: Key)
    requires SeenInOrder(g, seen) && Settled(g, n, Elems(seen))
    ensures SeenInOrder(g, seen + [n])
  {
    forall i | 0 <= i < |seen + [n]| ensures Settled(g, (seen + [n])[i], Elems((seen + [n])[..i])) {
      assert (seen + [n])[..i] == if i < |seen| then seen[..i] else seen;
    }
  }

  lemma HeadIsReady(g: Edges, indeg: map<Key, int>, done: set<Key>, queue: seq<Key>)
    requires Turn(g, indeg, done, queue) && queue != []
    ensures queue[0] !in done && queue[0] !in queue[1..] && Settled(g, queue[0], done)
    ensures queue == [queue[0]] + queue[1..] && NoRepeat(queue[1..])
  {
    assert queue[0] in queue;
  }

  // The lanes that depend on nothing.
  method Sources(g: Edges, order: seq<Key>, indeg: map<Key, int>) returns (queue: seq<Key>)
    requires NoRepeat(order) && Elems(order) == g.Keys && indeg == map k | k in g :: |g[k]|
    ensures Turn(g, indeg, {}, queue)
  {
    queue := [];
    for i := 0 to |order|
      invariant NoRepeat(queue)
      invariant forall k :: k in queue ==> k in order[..i] && k in g && g[k] == []
      invariant forall j :: 0 <= j < i && order[j] in g && g[order[j]] == [] ==> order[j] in queue
    {
      assert order[i] in Elems(order) && order[..i + 1] == order[..i] + [order[i]];
      if indeg[order[i]] == 0 { queue := queue + [order[i]]; }
    }
    forall k | k in g && g[k] == [] ensures k in queue { assert k in Elems(order); }
    FirstTurn(g, indeg, queue);
  }

  // The loop of the sort: process the head of the queue until the queue is empty.
  method Drain(g: Edges, order: seq<Key>, indeg0: map<Key, int>, queue0: seq<Key>)
    returns (seen: seq<Key>, indeg: map<Key, int>)
    requires NoRepeat(order) && Elems(order) == g.Keys && Turn(g, indeg0, {}, queue0)
    ensures Sorted(g, seen) && Turn(g, indeg, Elems(seen), [])
  {
    indeg := indeg0;
    var queue := queue0;
    seen := [];
    assert Elems(seen) == {};
    while queue != []
      invariant Sorted(g, seen) && Turn(g, indeg, Elems(seen), queue)
      decreases |g.Keys - Elems(seen)|
    {
      var n, rest := queue[0], queue[1..];
      HeadIsReady(g, indeg, Elems(seen), queue);
      SortedGrows(g, seen, n);
      indeg, queue := Pay(g, order, Elems(seen), n, indeg, rest);
      seen := seen + [n];
    }
  }

  // Kahn's sort as written; the result is the set of keys it could not reach.
  method CycleErrors(lanes: seq<LaneDoc>) returns (stuck: set<Key>)
    ensures stuck <= KeySet(lanes)
    ensures stuck == {} <==> Acyclic(EdgesOf(lanes)) && NoRepeatedEdge(EdgesOf(lanes))
    ensures ResidueExact(EdgesOf(lanes), stuck)
  {
    stuck := Sort(EdgesOf(lanes));
  }

  method Sort(g: Edges) returns (stuck: set<Key>)
    requires Closed(g)
    ensures stuck <= g.Keys
    ensures stuck == {} <==> Acyclic(g) && NoRepeatedEdge(g)
    ensures ResidueExact(g, stuck)
  {
    var order := Enumerate(g.Keys);
    var degrees: map<Key, int> := map k | k in g :: |g[k]|;
    var queue := Sources(g, order, degrees);
    var seen, indeg := Drain(g, order, degrees, queue);
    stuck := g.Keys - Elems(seen);
    ResidueIsHeld(g, seen, indeg);
    if stuck == {} { EmptyResidue(g, seen); }
    else if NoRepeatedEdge(g) { Residue(g, stuck); }
  }

  // Why a key is never reached: it lists a key twice, or lists another unreached key.
  ghost predicate Held(g: Edges, k: Key, stuck: set<Key>)
    requires k in g
  {
    !NoRepeat(g[k]) || exists d :: d in g[k] && d in stuck
  }

  ghost predicate ResidueExact(g: Edges, stuck: set<Key>) {
    forall k {:trigger Held(g, k, stuck)} :: k in g ==> (k in stuck <==> Held(g, k, stuck))
  }

  lemma ResidueIsHeld(g: Edges, seen: seq<Key>, indeg: map<Key, int>)
    requires Closed(g) && Sorted(g, seen) && Turn(g, indeg, Elems(seen), [])
    ensures ResidueExact(g, g.Keys - Elems(seen))
  {
    forall k | k in g ensures k in g.Keys - Elems(seen) <==> Held(g, k, g.Keys - Elems(seen)) {
      if k in seen {
        var i :| 0 <= i < |seen| && seen[i] == k;
        assert Settled(g, seen[i], Elems(seen[..i]));
        forall d | d in g[k] ensures d in Elems(seen) { assert d in Elems(g[k]); }
      } else {
        assert Owes(g, indeg, k, Elems(seen));
        OwesMeansHeld(g, indeg, k, Elems(seen));
      }
    }
  }

  lemma OwesMeansHeld(g: Edges, indeg: map<Key, int>, k: Key, seen: set<Key>)
    requires Closed(g) && Owes(g, indeg, k, seen)
    ensures Held(g, k, g.Keys - seen)
  {
    ElemsSize(g[k]);
    if forall d :: d in g[k] ==> d in seen {
      assert Elems(g[k]) * seen == Elems(g[k]);
    }
  }

  lemma EmptyResidue(g: Edges, seen: seq<Key>)
    requires Sorted(g, seen) && Elems(seen) == g.Keys
    ensures Acyclic(g) && NoRepeatedEdge(g)
  {
    forall i, d | 0 <= i < |seen| && d in g[seen[i]] ensures d in seen[..i] {
      assert Settled(g, seen[i], Elems(seen[..i]));
      assert d in Elems(g[seen[i]]);
    }
    assert Topological(g, seen);
    TopologicalMeansAcyclic(g, seen);
    forall k | k in g ensures NoRepeat(g[k]) {
      assert k in Elems(seen);
      var i :| 0 <= i < |seen| && seen[i] == k;
      assert Settled(g, seen[i], Elems(seen[..i]));
    }
  }

  lemma Residue(g: Edges, stuck: set<Key>)
    requires stuck != {} && stuck <= g.Keys && NoRepeatedEdge(g)
    requires ResidueExact(g, stuck)
    ensures !Acyclic(g)
  {
    forall k | k in stuck ensures Into(g, k, stuck) { assert Held(g, k, stuck); }
    StuckMeansCycle(g, stuck);
  }

  // A lane that lists the same known key twice is reported as a cycle, whatever the graph.
  lemma {:induction false} RepeatIsReportedAsCycle() returns (lanes: seq<LaneDoc>)
    ensures Acyclic(EdgesOf(lanes)) && !NoRepeatedEdge(EdgesOf(lanes))
  {
    var a := LaneDoc("a", "t", "t", "research", None, None);
    var b := LaneDoc("b", "t", "t", "research", None, Some(["a", "a"]));
    lanes := [a, b];
    var g := EdgesOf(lanes);
    assert lanes[0].key == "a" && lanes[1].key == "b";
    assert EdgesUpTo(lanes, KeySet(lanes), 1) == map["a" := []];
    assert Known(["a", "a"], KeySet(lanes)) == ["a", "a"];
    assert g == map["a" := [], "b" := ["a", "a"]];
    assert g["b"][0] == g["b"][1];
    var order := ["a", "b"];
    assert order[..0] == [] && order[..1] == ["a"];
    assert Elems(order) == g.Keys;
    TopologicalMeansAcyclic(g, order);
  }

  // ---- validation -------------------------------------------------------------------------------

  predicate GoodHeader(l: LaneDoc) {
    !Blank(l.key) && Text(l.title, MAX_TITLE_CHARS) && Text(l.task, MAX_TASK_CHARS) && !Blank(l.kind)
  }

  predicate GoodKind(l: LaneDoc) {
    LaneKind(l.kind) && (l.kind == "implementation" ==> l.acceptance.Some? && l.acceptance.value != [])
  }

  predicate GoodAcceptance(acc: seq<string>) {
    |acc| <= MAX_ACCEPTANCE_PER_LANE && forall j :: 0 <= j < |acc| ==> Text(acc[j], MAX_ACCEPTANCE_CHARS)
  }

  predicate GoodDeps(deps: seq<Key>, keys: set<Key>) {
    |deps| <= MAX_DEPENDS_PER_LANE && forall j :: 0 <= j < |deps| ==> !Blank(deps[j]) && deps[j] in keys
  }

  // A null acceptance ends the checking of a lane, its dependencies included.
  predicate GoodBody(l: LaneDoc, keys: set<Key>) {
    l.acceptance.Some? ==> GoodAcceptance(l.acceptance.value) && GoodDeps(Deps(l), keys)
  }

  predicate DistinctKeys(lanes: seq<LaneDoc>) {
    forall i, j :: 0 <= i < j < |lanes| ==> lanes[i].key != lanes[j].key
  }

  ghost predicate Admissible(lanes: seq<LaneDoc>) {
    1 <= |lanes| <= MAX_LANES && DistinctKeys(lanes) &&
    (forall i :: 0 <= i < |lanes| ==>
       GoodHeader(lanes[i]) && GoodKind(lanes[i]) && GoodBody(lanes[i], KeySet(lanes))) &&
    Acyclic(EdgesOf(lanes)) && NoRepeatedEdge(EdgesOf(lanes))
  }

  // Text with something to read in it, and not too long.
  predicate Legible(s: string, max: nat) {
    |s| <= max && exists i :: 0 <= i < |s| && !IsSpace(s[i])
  }

  lemma TextIsLegible(s: string, max: nat)
    ensures Text(s, max) <==> Legible(s, max)
  {
  }

  lemma AcceptanceExactly(acc: seq<string>)
    ensures GoodAcceptance(acc) <==> |acc| <= 32 && forall a :: a in acc ==> Legible(a, 500)
  {
    forall a | a in acc ensures Text(a, 500) <==> Legible(a, 500) { TextIsLegible(a, 500); }
    if GoodAcceptance(acc) {
      forall a | a in acc ensures Legible(a, 500) { var j :| 0 <= j < |acc| && acc[j] == a; }
    }
  }

  // What an admissible lane is, in the source's own numbers and names.
  lemma LaneExactly(l: LaneDoc, keys: set<Key>)
    ensures GoodHeader(l) && GoodKind(l) && GoodBody(l, keys) <==>
            (Legible(l.key, |l.key|) && Legible(l.title, 200) && Legible(l.task, 8000) &&
             l.kind in {"research", "implementation", "verification", "adversarial_review", "integration"} &&
             (l.acceptance.Some? ==>
                |l.acceptance.value| <= 32 && (forall a :: a in l.acceptance.value ==> Legible(a, 500)) &&
                |Deps(l)| <= 16 && (forall d :: d in Deps(l) ==> Legible(d, |d|) && d in keys)) &&
             (l.kind == "implementation" ==> l.acceptance.Some? && |l.acceptance.value| > 0))
  {
    TextIsLegible(l.key, |l.key|);
    TextIsLegible(l.title, 200);
    TextIsLegible(l.task, 8000);
    if l.acceptance.Some? { AcceptanceExactly(l.acceptance.value); }
    DepsExactly(Deps(l), keys);
    KindsAreLegible(l.kind);
  }

  lemma DepsExactly(deps: seq<Key>, keys: set<Key>)
    ensures GoodDeps(deps, keys) <==> |deps| <= 16 && forall d :: d in deps ==> Legible(d, |d|) && d in keys
  {
    forall d | d in deps ensures !Blank(d) <==> Legible(d, |d|) { TextIsLegible(d, |d|); }
    if GoodDeps(deps, keys) {
      forall d | d in deps ensures Legible(d, |d|) && d in keys { var j :| 0 <= j < |deps| && deps[j] == d; }
    }
  }

  lemma KindsAreLegible(kind: string)
    ensures LaneKind(kind) <==>
            kind in {"research", "implementation", "verification", "adversarial_review", "integration"}
    ensures LaneKind(kind) ==> !Blank(kind)
  {
    if LaneKind(kind) { assert !IsSpace(kind[0]); }
  }

  function HeaderErrors(l: LaneDoc, i: nat): (errors: seq<ProposalError>)
    ensures errors == [] <==> Text(l.title, MAX_TITLE_CHARS) && Text(l.task, MAX_TASK_CHARS) && !Blank(l.kind)
  {
    (if Text(l.title, MAX_TITLE_CHARS) then [] else [BadTitle(i)]) +
    (if Text(l.task, MAX_TASK_CHARS) then [] else [BadTask(i)]) +
    (if Blank(l.kind) then [BlankKind(i)] else [])
  }

  // First pass: keys, titles, tasks, kinds present.
  method CheckHeaders(lanes: seq<LaneDoc>) returns (keys: set<Key>, errors: seq<ProposalError>)
    ensures forall k :: k in keys <==> k in KeySet(lanes) && !Blank(k)
    ensures errors == [] <==> DistinctKeys(lanes) && forall j :: 0 <= j < |lanes| ==> GoodHeader(lanes[j])
  {
    keys, errors := {}, [];
    for i := 0 to |lanes|
      invariant forall j :: 0 <= j < i && !Blank(lanes[j].key) ==> lanes[j].key in keys
      invariant forall k :: k in keys ==> k in KeySet(lanes[..i]) && !Blank(k)
      invariant errors == [] <==> DistinctKeys(lanes[..i]) && forall j :: 0 <= j < i ==> GoodHeader(lanes[j])
    {
      var key := lanes[i].key;
      KeysStep(lanes, i);
      if Blank(key) { errors := errors + [BlankKey(i)]; }
      else if key in keys { errors := errors + [DuplicateKey(i)]; }
      else { keys := keys + {key}; }
      errors := errors + HeaderErrors(lanes[i], i);
    }
    assert lanes[..|lanes|] == lanes;
  }

  lemma KeysStep(lanes: seq<LaneDoc>, i: nat)
    requires i < |lanes|
    ensures KeySet(lanes[..i + 1]) == KeySet(lanes[..i]) + {lanes[i].key}
    ensures DistinctKeys(lanes[..i + 1]) <==> DistinctKeys(lanes[..i]) && lanes[i].key !in KeySet(lanes[..i])
  {
    var a, b := lanes[..i], lanes[..i + 1];
    assert b == a + [lanes[i]];
    assert forall j :: 0 <= j < i ==> b[j] == a[j];
    if lanes[i].key in KeySet(a) {
      var j :| 0 <= j < i && a[j].key == lanes[i].key;
      assert b[j].key == b[i].key;
    }
  }

  // Second pass, made only when every kind is non-empty.
  method CheckKinds(lanes: seq<LaneDoc>) returns (errors: seq<ProposalError>)
    ensures (forall j :: 0 <= j < |lanes| ==> lanes[j].kind != "") ==>
              (errors == [] <==> forall j :: 0 <= j < |lanes| ==> GoodKind(lanes[j]))
  {
    errors := [];
    if j :| 0 <= j < |lanes| && lanes[j].kind == "" { return; }
    for i := 0 to |lanes|
      invariant errors == [] <==> forall j :: 0 <= j < i ==> GoodKind(lanes[j])
    {
      var l := lanes[i];
      if !LaneKind(l.kind) { errors := errors + [UnknownKind(i)]; }
      if l.kind == "implementation" && (l.acceptance.None? || l.acceptance.value == []) {
        errors := errors + [NoAcceptance(i)];
      }
    }
  }

  method CheckAcceptance(acc: seq<string>, i: nat) returns (errors: seq<ProposalError>)
    ensures errors == [] <==> GoodAcceptance(acc)
  {
    errors := if |acc| > MAX_ACCEPTANCE_PER_LANE then [TooManyAcceptance(i)] else [];
    for j := 0 to |acc|
      invariant errors == [] <==>
        (|acc| <= MAX_ACCEPTANCE_PER_LANE && forall e :: 0 <= e < j ==> Text(acc[e], MAX_ACCEPTANCE_CHARS))
    {
      if !Text(acc[j], MAX_ACCEPTANCE_CHARS) { errors := errors + [BadAcceptance(i, j)]; }
    }
  }

  method CheckDeps(deps: seq<Key>, i: nat, keys: set<Key>) returns (errors: seq<ProposalError>)
    ensures errors == [] <==> GoodDeps(deps, keys)
  {
    if j :| 0 <= j < |deps| && Blank(deps[j]) { return [BadDependsOn(i)]; }
    errors := if |deps| > MAX_DEPENDS_PER_LANE then [TooManyDepends(i)] else [];
    for j := 0 to |deps|
      invariant errors == [] <==>
        (|deps| <= MAX_DEPENDS_PER_LANE && forall e :: 0 <= e < j ==> deps[e] in keys)
    {
      if deps[j] !in keys { errors := errors + [UnknownDependency(i, deps[j])]; }
    }
  }

  // Third pass.
  method CheckBodies(lanes: seq<LaneDoc>, keys: set<Key>) returns (errors: seq<ProposalError>)
    ensures errors == [] <==> forall j :: 0 <= j < |lanes| ==> GoodBody(lanes[j], keys)
  {
    errors := [];
    for i := 0 to |lanes|
      invariant errors == [] <==> forall j :: 0 <= j < i ==> GoodBody(lanes[j], keys)
    {
      if lanes[i].acceptance.Some? {
        var acc := CheckAcceptance(lanes[i].acceptance.value, i);
        var deps := CheckDeps(Deps(lanes[i]), i, keys);
        errors := errors + acc + deps;
      }
    }
  }

  // A proposal is accepted exactly when it is admissible.
  method ValidatePlanProposal(lanes: seq<LaneDoc>) returns (ok: bool, errors: seq<ProposalError>)
    ensures ok == (errors == [])
    ensures ok <==> Admissible(lanes)
  {
    if lanes == [] { return false, [Empty]; }
    errors := if |lanes| > MAX_LANES then [TooManyLanes] else [];
    var keys, headers := CheckHeaders(lanes);
    var kinds := CheckKinds(lanes);
    var bodies := CheckBodies(lanes, keys);
    var stuck := CycleErrors(lanes);
    errors := errors + headers + kinds + bodies + if stuck == {} then [] else [Cycle(stuck)];
    ok := errors == [];
    if headers == [] {
      assert forall j :: 0 <= j < |lanes| ==> GoodHeader(lanes[j]);
      assert keys == KeySet(lanes);
    }
  }

  lemma PlainLaneIsGood(l: LaneDoc, keys: set<Key>)
    requires l.key == "a" && l.title == "t" && l.task == "t" && l.kind == "research" && l.acceptance.None?
    ensures GoodHeader(l) && GoodKind(l) && GoodBody(l, keys)
  {
    assert "a"[0] == 'a' && "t"[0] == 't' && "research"[0] == 'r';
  }

  // The null-acceptance gap is real: this proposal, whose one lane depends on a key no lane has, is
  // admissible.
  lemma {:induction false} NullAcceptanceSkipsDependencies() returns (lanes: seq<LaneDoc>)
    ensures Admissible(lanes)
    ensures exists l, d :: l in lanes && d in Deps(l) && d !in KeySet(lanes)
  {
    var a := LaneDoc("a", "t", "t", "research", None, Some(["b"]));
    lanes := [a];
    PlainLaneIsGood(a, KeySet(lanes));
    assert Deps(a)[0] == "b" && a == lanes[0];
    assert KeySet(lanes) == {"a"};
    assert EdgesUpTo(lanes, KeySet(lanes), 0) == map[];
    assert Known(["b"], KeySet(lanes)) == [];
    var g := EdgesOf(lanes);
    assert g == map["a" := []];
    var order := ["a"];
    assert Elems(order) == g.Keys && order[..0] == [];
    TopologicalMeansAcyclic(g, order);
  }
}
