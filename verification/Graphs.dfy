// Finite dependency graphs: paths, cycles, and the counting facts the planner's sort rests on.
module Graphs {
  type Key = string
  type Edges = map<Key, seq<Key>>

  ghost predicate Closed(g: Edges) {
    forall k, d :: k in g && d in g[k] ==> d in g
  }

  ghost predicate IsPath(g: Edges, p: seq<Key>) {
    (forall i :: 0 <= i < |p| ==> p[i] in g) &&
    forall i, j :: 0 <= i < j < |p| && j == i + 1 ==> p[j] in g[p[i]]
  }

  // No walk along the edges comes back to where it started.
  ghost predicate Acyclic(g: Edges) {
    forall p :: IsPath(g, p) && |p| > 1 ==> p[0] != p[|p| - 1]
  }

  predicate NoRepeat<T(==)>(s: seq<T>) {
    forall i, j :: 0 <= i < j < |s| ==> s[i] != s[j]
  }

  ghost predicate NoRepeatedEdge(g: Edges) {
    forall k :: k in g ==> NoRepeat(g[k])
  }

  function Elems<T(==)>(s: seq<T>): set<T> {
    set x | x in s
  }

  lemma {:induction false} ElemsSize<T>(s: seq<T>)
    ensures |Elems(s)| <= |s|
    ensures |Elems(s)| == |s| <==> NoRepeat(s)
  {
    if s != [] {
      var front, last := s[..|s| - 1], s[|s| - 1];
      ElemsSize(front);
      assert s == front + [last];
      assert Elems(s) == Elems(front) + {last};
      if last in front {
        var i :| 0 <= i < |front| && front[i] == last;
        assert s[i] == s[|s| - 1];
        assert Elems(s) == Elems(front);
      } else {
        assert |Elems(s)| == |Elems(front)| + 1;
        assert NoRepeat(front) ==> NoRepeat(s);
        assert NoRepeat(s) ==> NoRepeat(front);
      }
    }
  }

  lemma SubsetSize<T>(a: set<T>, b: set<T>)
    requires a <= b
    ensures |a| <= |b| && (|a| == |b| ==> a == b)
  {
    assert b == a + (b - a);
    assert |b| == |a| + |b - a|;
  }

  // A walk inside a finite set, longer than the set, meets some element twice.
  lemma {:induction false} Pigeonhole<T>(s: seq<T>, t: set<T>) returns (i: nat, j: nat)
    requires Elems(s) <= t && |t| < |s|
    ensures i < j < |s| && s[i] == s[j]
  {
    ElemsSize(s);
    SubsetSize(Elems(s), t);
    i, j :| 0 <= i < j < |s| && s[i] == s[j];
  }

  ghost predicate Into(g: Edges, k: Key, u: set<Key>) {
    k in g && exists d :: d in g[k] && d in u
  }

  lemma PathExtends(g: Edges, q: seq<Key>, d: Key)
    requires IsPath(g, q) && q != [] && d in g[q[|q| - 1]] && d in g
    ensures IsPath(g, q + [d])
  {
  }

  lemma PathSegment(g: Edges, p: seq<Key>, i: nat, j: nat)
    requires IsPath(g, p) && i <= j <= |p|
    ensures IsPath(g, p[i..j])
  {
  }

  // Follow an edge from u into u, n times over.
  lemma {:induction false} WalkInside(g: Edges, u: set<Key>, n: nat) returns (p: seq<Key>)
    requires u != {} && u <= g.Keys
    requires forall k {:trigger Into(g, k, u)} :: k in u ==> Into(g, k, u)
    ensures |p| == n + 1 && IsPath(g, p) && forall i :: 0 <= i < |p| ==> p[i] in u
  {
    if n == 0 {
      var k :| k in u;
      p := [k];
    } else {
      var q := WalkInside(g, u, n - 1);
      assert Into(g, q[n - 1], u);
      var d :| d in g[q[n - 1]] && d in u;
      PathExtends(g, q, d);
      p := q + [d];
    }
  }

  // If no member of u is free of edges into u, the graph has a cycle.
  lemma {:induction false} StuckMeansCycle(g: Edges, u: set<Key>)
    requires u != {} && u <= g.Keys
    requires forall k {:trigger Into(g, k, u)} :: k in u ==> Into(g, k, u)
    ensures !Acyclic(g)
  {
    var p := WalkInside(g, u, |u|);
    var i, j := Pigeonhole(p, u);
    var loop := p[i..j + 1];
    PathSegment(g, p, i, j + 1);
    assert IsPath(g, loop) && |loop| > 1 && loop[0] == loop[|loop| - 1];
  }

  // An order in which everything an element points to comes before it.
  ghost predicate Topological(g: Edges, order: seq<Key>) {
    NoRepeat(order) && Elems(order) == g.Keys &&
    forall i, d :: 0 <= i < |order| && d in g[order[i]] ==> d in order[..i]
  }

  function Position(order: seq<Key>, k: Key): (i: nat)
    requires k in order
    ensures i < |order| && order[i] == k
  {
    if order[0] == k then 0 else 1 + Position(order[1..], k)
  }

  lemma {:induction false} PathDescends(g: Edges, order: seq<Key>, p: seq<Key>)
    requires Topological(g, order) && IsPath(g, p) && |p| > 1
    ensures p[0] in order && p[|p| - 1] in order
    ensures Position(order, p[|p| - 1]) < Position(order, p[0])
    decreases |p|
  {
    assert p[0] in Elems(order) && p[1] in Elems(order);
    var i := Position(order, p[0]);
    assert p[1] in g[order[i]];
    var j :| 0 <= j < i && order[..i][j] == p[1];
    assert order[j] == order[Position(order, p[1])];
    if |p| > 2 {
      assert p[1..][0] == p[1];
      PathDescends(g, order, p[1..]);
    }
  }

  lemma TopologicalMeansAcyclic(g: Edges, order: seq<Key>)
    requires Topological(g, order)
    ensures Acyclic(g)
  {
    forall p | IsPath(g, p) && |p| > 1 ensures p[0] != p[|p| - 1] {
      PathDescends(g, order, p);
    }
  }
}
