// src/quaestor/core/planner.py (adopt_plan_proposal): an accepted proposal becomes lanes and REQUIRES
// edges; and why such a plan can always go on.
module Adoption {
  import opened Wrappers
  import opened Graphs
  import opened Planner
  import opened Programs

  // KeyError: a depends_on key names no lane of the proposal, found only while wiring.
  datatype Outcome =
    | Invalid | SelfAdoption | NotPending | BlockedByFindings | KeyError
    | Adopted(ids: map<Key, LaneId>, deps: seq<Dependency>)

  // The planner seat's actor and provider; the source puts "@@" for a provider that is missing.
  datatype Provenance = Provenance(actor: string, provider: string)

  // grave: CRITICAL or HIGH.
  datatype Finding = Finding(resolved: bool, grave: bool)

  datatype Status = Awaiting | AlreadyAdopted | Refused

  // The program's stored proposal document.
  datatype Stored = Stored(digest: string, status: Status, reviewed: bool, findings: seq<Finding>, adoptedBy: string)

  predicate StartsWith(s: string, prefix: string) {
    prefix <= s
  }

  predicate EndsWith(s: string, suffix: string) {
    |suffix| <= |s| && s[|s| - |suffix|..] == suffix
  }

  // Nobody, the planner itself, or an executor of the planner's provider.
  predicate SelfAdopts(actor: string, planner: Provenance) {
    actor == "" || actor == planner.actor ||
    (planner.actor != "" && EndsWith(actor, planner.provider) && StartsWith(actor, "executor:"))
  }

  predicate AdoptedBefore(doc: Option<Stored>, digest: string) {
    doc.Some? && doc.value.digest == digest && doc.value.status == AlreadyAdopted
  }

  // This very proposal awaits a decision and a grave finding of its review is unresolved.
  predicate Challenged(doc: Option<Stored>, digest: string) {
    doc.Some? && doc.value.digest == digest && doc.value.status == Awaiting && doc.value.reviewed &&
    exists f :: f in doc.value.findings && !f.resolved && f.grave
  }

  // What stands before the wiring, in the source's order.
  function Bar(actor: string, planner: Provenance, digest: string, doc: Option<Stored>): Option<Outcome> {
    if SelfAdopts(actor, planner) then Some(SelfAdoption)
    else if AdoptedBefore(doc, digest) then Some(NotPending)
    else if Challenged(doc, digest) then Some(BlockedByFindings)
    else None
  }

  // Each bar, exactly when it stands: an unnamed actor, the planner, or an executor of its provider; this very
  // proposal adopted already; or a grave finding of its review neither resolved nor waived.
  lemma BarExactly(actor: string, planner: Provenance, digest: string, doc: Option<Stored>)
    ensures var bar := Bar(actor, planner, digest, doc);
      var self := actor == "" || actor == planner.actor ||
                  (planner.actor != "" && exists mid :: actor == "executor:" + mid && Ends(actor, planner.provider));
      var mine := doc.Some? && doc.value.digest == digest;
      (bar == Some(SelfAdoption) <==> self) &&
      (bar == Some(NotPending) <==> !self && mine && doc.value.status == AlreadyAdopted) &&
      (bar == Some(BlockedByFindings) <==>
         !self && mine && doc.value.status == Awaiting && doc.value.reviewed &&
         exists n :: 0 <= n < |doc.value.findings| && doc.value.findings[n] == Finding(false, true)) &&
      (bar.None? <==> bar != Some(SelfAdoption) && bar != Some(NotPending) && bar != Some(BlockedByFindings))
  {
    if StartsWith(actor, "executor:") { assert actor == "executor:" + actor[|"executor:"|..]; }
    EndsExactly(actor, planner.provider);
    if Challenged(doc, digest) {
      var f :| f in doc.value.findings && !f.resolved && f.grave;
      var n :| 0 <= n < |doc.value.findings| && doc.value.findings[n] == f;
    }
  }

  ghost predicate Ends(s: string, suffix: string) {
    exists front :: s == front + suffix
  }

  lemma EndsExactly(s: string, suffix: string)
    ensures EndsWith(s, suffix) <==> Ends(s, suffix)
  {
    if EndsWith(s, suffix) { assert s == s[..|s| - |suffix|] + suffix; }
  }

  // The document afterwards: a review carried over, or a fresh one.
  function Recorded(actor: string, digest: string, doc: Option<Stored>): Stored {
    if doc.Some? && doc.value.digest == digest && doc.value.status == Awaiting
    then doc.value.(status := AlreadyAdopted, adoptedBy := actor)
    else Stored(digest, AlreadyAdopted, true, [], actor)
  }

  ghost predicate AllKnown(lanes: seq<LaneDoc>) {
    forall i, d :: 0 <= i < |lanes| && d in Deps(lanes[i]) ==> d in KeySet(lanes)
  }

  // Exactly the proposal's edges, between the lanes its keys became.
  ghost predicate Wired(lanes: seq<LaneDoc>, ids: map<Key, LaneId>, deps: seq<Dependency>) {
    (forall x :: x in deps ==> Wire(lanes, ids, |lanes|, x)) &&
    forall i, d :: 0 <= i < |lanes| && d in Deps(lanes[i]) && lanes[i].key in ids && d in ids ==>
      Dependency(ids[lanes[i].key], ids[d], Requires) in deps
  }

  ghost predicate Wire(lanes: seq<LaneDoc>, ids: map<Key, LaneId>, n: nat, x: Dependency)
    requires n <= |lanes|
  {
    exists i, d :: 0 <= i < n && d in Deps(lanes[i]) && lanes[i].key in ids && d in ids &&
                   x == Dependency(ids[lanes[i].key], ids[d], Requires)
  }

  // Distinct keys are given distinct lanes.
  ghost predicate Faithful(lanes: seq<LaneDoc>, ids: map<Key, LaneId>) {
    ids.Keys == KeySet(lanes) && forall k, l :: k in ids && l in ids && k != l ==> ids[k] != ids[l]
  }

  method CreateLanes(lanes: seq<LaneDoc>, newIds: seq<LaneId>) returns (ids: map<Key, LaneId>)
    requires |newIds| == |lanes| && NoRepeat(newIds)
    ensures Faithful(lanes, ids) && ids.Values <= Elems(newIds)
  {
    ids := map[];
    for n := 0 to |lanes|
      invariant ids.Keys == KeySet(lanes[..n])
      invariant forall k :: k in ids ==> exists j :: 0 <= j < n && newIds[j] == ids[k]
      invariant forall k, l :: k in ids && l in ids && k != l ==> ids[k] != ids[l]
    {
      KeysStep(lanes, n);
      ids := ids[lanes[n].key := newIds[n]];
    }
    assert lanes[..|lanes|] == lanes;
  }

  method WireLane(l: LaneDoc, ids: map<Key, LaneId>, deps0: seq<Dependency>) returns (ok: bool, deps: seq<Dependency>)
    requires l.key in ids
    ensures ok <==> forall d :: d in Deps(l) ==> d in ids
    ensures ok ==> forall x :: x in deps <==>
      (x in deps0 || exists d :: d in Deps(l) && x == Dependency(ids[l.key], ids[d], Requires))
  {
    deps := deps0;
    var ds := Deps(l);
    for j := 0 to |ds|
      invariant forall e :: 0 <= e < j ==> ds[e] in ids
      invariant forall x :: x in deps <==>
        (x in deps0 || exists e :: 0 <= e < j && x == Dependency(ids[l.key], ids[ds[e]], Requires))
    {
      if ds[j] !in ids { return false, deps; }
      deps := deps + [Dependency(ids[l.key], ids[ds[j]], Requires)];
    }
    ok := true;
  }

  method WireAll(lanes: seq<LaneDoc>, ids: map<Key, LaneId>) returns (ok: bool, deps: seq<Dependency>)
    requires ids.Keys == KeySet(lanes)
    ensures ok <==> AllKnown(lanes)
    ensures ok ==> Wired(lanes, ids, deps)
  {
    deps := [];
    for n := 0 to |lanes|
      invariant forall i, d :: 0 <= i < n && d in Deps(lanes[i]) ==> d in ids
      invariant forall x :: x in deps <==> Wire(lanes, ids, n, x)
    {
      var was := deps;
      ok, deps := WireLane(lanes[n], ids, deps);
      if !ok { return; }
      forall x ensures x in deps <==> Wire(lanes, ids, n + 1, x) {
        if x in deps && x !in was {
          var d :| d in Deps(lanes[n]) && x == Dependency(ids[lanes[n].key], ids[d], Requires);
        }
      }
    }
    ok := true;
  }

  // Lanes are created first, then wired; an unknown dependency that validation let through surfaces
  // here, after the lanes exist. actor is stripped. A refusal leaves the stored document as it was; an
  // adopted proposal is on record, so that the same adoption is refused the next time.
  method AdoptPlanProposal(lanes: seq<LaneDoc>, newIds: seq<LaneId>, actor: string, planner: Provenance,
                           digest: string, doc: Option<Stored>)
    returns (out: Outcome, after: Option<Stored>)
    requires |newIds| == |lanes| && NoRepeat(newIds)
    ensures out.Invalid? <==> !Admissible(lanes)
    ensures out.SelfAdoption? <==> Admissible(lanes) && SelfAdopts(actor, planner)
    ensures out.NotPending? <==> Admissible(lanes) && !SelfAdopts(actor, planner) && AdoptedBefore(doc, digest)
    ensures out.BlockedByFindings? <==> Admissible(lanes) && !SelfAdopts(actor, planner) && Challenged(doc, digest)
    ensures out.Adopted? <==> Admissible(lanes) && Bar(actor, planner, digest, doc).None? && AllKnown(lanes)
    ensures out.Adopted? ==> Faithful(lanes, out.ids) && Wired(lanes, out.ids, out.deps)
    ensures after == if out.Adopted? then Some(Recorded(actor, digest, doc)) else doc
    ensures out.Adopted? ==> AdoptedBefore(after, digest)
  {
    after := doc;
    var valid, errors := ValidatePlanProposal(lanes);
    if !valid { return Invalid, after; }
    var bar := Bar(actor, planner, digest, doc);
    if bar.Some? { return bar.value, after; }
    var ids := CreateLanes(lanes, newIds);
    var ok, deps := WireAll(lanes, ids);
    if !ok { return KeyError, after; }
    return Adopted(ids, deps), Some(Recorded(actor, digest, doc));
  }

  // The one way validation lets an unknown dependency through: a lane whose acceptance is null names it.
  lemma KnownExactly(lanes: seq<LaneDoc>)
    requires Admissible(lanes)
    ensures AllKnown(lanes) <==>
            forall i, d :: 0 <= i < |lanes| && lanes[i].acceptance.None? && d in Deps(lanes[i]) ==> d in KeySet(lanes)
  {
    forall i, d | 0 <= i < |lanes| && lanes[i].acceptance.Some? && d in Deps(lanes[i]) ensures d in KeySet(lanes) {
      assert GoodBody(lanes[i], KeySet(lanes));
    }
  }

  // ---- progress ---------------------------------------------------------------------------------

  lemma {:induction false} EdgesAt(lanes: seq<LaneDoc>, keys: set<Key>, n: nat, i: nat)
    requires DistinctKeys(lanes) && KeySet(lanes) <= keys && i < n <= |lanes|
    ensures lanes[i].key in EdgesUpTo(lanes, keys, n)
    ensures EdgesUpTo(lanes, keys, n)[lanes[i].key] == Known(Deps(lanes[i]), keys)
  {
    if i < n - 1 { EdgesAt(lanes, keys, n - 1, i); }
  }

  ghost predicate Blocked(state: map<LaneId, LaneState>, deps: seq<Dependency>, l: LaneId) {
    exists d :: d in deps && d.from == l && HoldsBack(state, d)
  }

  // Unfinished, and nothing the scheduler still counts holds it back.
  ghost predicate CanGo(state: map<LaneId, LaneState>, deps: seq<Dependency>, l: LaneId) {
    l in state && !Terminal(state[l]) && !Blocked(state, deps, l)
  }

  ghost function Unfinished(ids: map<Key, LaneId>, state: map<LaneId, LaneState>): set<Key>
    requires ids.Values <= state.Keys
  {
    set k | k in ids && !Terminal(state[ids[k]])
  }

  // The dependencies that start at an adopted lane are still those the adoption wired.
  ghost predicate OnlyWired(ids: map<Key, LaneId>, wired: seq<Dependency>, deps: seq<Dependency>) {
    forall d :: d in deps && d.from in ids.Values ==> d in wired
  }

  // ADOPTED PLANS NEVER DEADLOCK. Take any accepted proposal, wired; any later dependencies as long as
  // none of them starts at an adopted lane; and any states of any lanes. If some adopted lane is
  // unfinished, some unfinished adopted lane has nothing holding it back.
  lemma {:induction false} AdoptedPlansProgress(lanes: seq<LaneDoc>, ids: map<Key, LaneId>, wired: seq<Dependency>,
                             deps: seq<Dependency>, state: map<LaneId, LaneState>)
    requires Admissible(lanes) && AllKnown(lanes) && Faithful(lanes, ids) && Wired(lanes, ids, wired)
    requires OnlyWired(ids, wired, deps) && ids.Values <= state.Keys && Unfinished(ids, state) != {}
    ensures exists k :: k in ids && CanGo(state, deps, ids[k])
  {
    if forall k {:trigger CanGo(state, deps, ids[k])} :: k in ids ==> !CanGo(state, deps, ids[k]) {
      var u := Unfinished(ids, state);
      forall k | k in u ensures Into(EdgesOf(lanes), k, u) {
        assert ids[k] in ids.Values && !CanGo(state, deps, ids[k]);
        BlockersAreInside(lanes, ids, wired, deps, state, k);
      }
      StuckMeansCycle(EdgesOf(lanes), u);
    }
  }

  lemma BlockersAreInside(lanes: seq<LaneDoc>, ids: map<Key, LaneId>, wired: seq<Dependency>, deps: seq<Dependency>,
                          state: map<LaneId, LaneState>, k: Key)
    requires DistinctKeys(lanes) && AllKnown(lanes) && Faithful(lanes, ids) && Wired(lanes, ids, wired)
    requires OnlyWired(ids, wired, deps) && ids.Values <= state.Keys && k in ids && Blocked(state, deps, ids[k])
    ensures Into(EdgesOf(lanes), k, Unfinished(ids, state))
  {
    var d :| d in deps && d.from == ids[k] && HoldsBack(state, d);
    assert ids[k] in ids.Values;
    assert Wire(lanes, ids, |lanes|, d);
    var i, dep :| 0 <= i < |lanes| && dep in Deps(lanes[i]) && lanes[i].key in ids && dep in ids &&
                  d == Dependency(ids[lanes[i].key], ids[dep], Requires);
    assert lanes[i].key == k;
    EdgesAt(lanes, KeySet(lanes), |lanes|, i);
    assert dep in EdgesOf(lanes)[k];
    assert ids[dep] in ids.Values;
  }

  // The hypotheses can be met: the smallest plan.
  lemma {:induction false} OneLanePlan()
    returns (lanes: seq<LaneDoc>, ids: map<Key, LaneId>, state: map<LaneId, LaneState>)
    ensures Admissible(lanes) && AllKnown(lanes) && Faithful(lanes, ids) && Wired(lanes, ids, [])
    ensures ids.Values <= state.Keys && Unfinished(ids, state) != {}
  {
    var a := LaneDoc("a", "t", "t", "research", None, None);
    lanes, ids, state := [a], map["a" := "lane"], map["lane" := Planned];
    PlainLaneIsGood(a, KeySet(lanes));
    assert lanes[0] == a && KeySet(lanes) == {"a"};
    assert EdgesUpTo(lanes, KeySet(lanes), 0) == map[];
    assert EdgesOf(lanes) == map["a" := []];
    var order := ["a"];
    assert Elems(order) == EdgesOf(lanes).Keys && order[..0] == [];
    TopologicalMeansAcyclic(EdgesOf(lanes), order);
    assert "a" in Unfinished(ids, state);
  }
}
