// src/quaestor/adapters/registry.py: provider chains (chain_next, mark_chain_exhaustion, exhausted_for)
// and epistemic independence (check_pairing); core/orchestrator.py: the pairing gate, and the mark made
// when a worker died without effect.
module Failover {
  import opened Wrappers
  import opened Graphs

  type Seat = string
  type Kind = string
  type Family = string

  // What the provider table says. A family of "" is unknown.
  datatype Table = Table(declared: set<Kind>, families: map<Kind, Family>, seats: set<Seat>)

  function Fam(t: Table, k: Kind): Family {
    if k in t.families then t.families[k] else ""
  }

  datatype Refusal = Unresolvable | SingleFamily | BlockedAmbiguousWrite | PolicyRefused | Exhausted

  datatype Decision = Selected(kind: Kind) | Refused(why: Refusal)

  // ---- independence --------------------------------------------------------------------------------

  // pairs: seats that must not share a family. measured: which kind each seat was seen to hold.
  datatype Ctx = Ctx(pairs: seq<(Seat, Seat)>, distinctFor: set<string>, measured: map<Seat, Kind>)

  datatype Pairing = Clean | IndependenceUnmet | ProviderPolicyRefused

  predicate SameFamily(t: Table, a: Kind, b: Kind) {
    Fam(t, a) != "" && Fam(t, a) == Fam(t, b)
  }

  function Measured(ctx: Ctx, s: Seat): Kind {
    if s in ctx.measured then ctx.measured[s] else ""
  }

  predicate Joins(p: (Seat, Seat), a: Seat, b: Seat) {
    (p.0 == a && p.1 == b) || (p.0 == b && p.1 == a)
  }

  // A configured partner of a, other than b, measured with a's family.
  predicate ClashesWith(t: Table, ctx: Ctx, a: Seat, kindA: Kind, b: Seat, p: (Seat, Seat)) {
    (p.1 == a && p.0 != b && SameFamily(t, Measured(ctx, p.0), kindA)) ||
    (p.0 == a && p.1 != b && SameFamily(t, Measured(ctx, p.1), kindA))
  }

  predicate Separates(t: Table, ctx: Ctx, a: Seat, kindA: Kind, b: Seat) {
    exists n :: 0 <= n < |ctx.pairs| && (Joins(ctx.pairs[n], a, b) || ClashesWith(t, ctx, a, kindA, b, ctx.pairs[n]))
  }

  function PairingSpec(t: Table, ctx: Ctx, a: Seat, kindA: Kind, b: Seat, kindB: Kind, hit: set<string>): Pairing {
    if !SameFamily(t, kindA, kindB) then Clean
    else if Separates(t, ctx, a, kindA, b) then IndependenceUnmet
    else if hit * ctx.distinctFor != {} then ProviderPolicyRefused
    else Clean
  }

  // Refused for independence exactly when the two kinds share a family and a pair separates the seats,
  // or separates a from a partner measured with that family; for policy, when they share a family and a
  // risk class asks for distinct providers.
  method CheckPairing(t: Table, ctx: Ctx, a: Seat, kindA: Kind, b: Seat, kindB: Kind, hit: set<string>)
    returns (r: Pairing)
    ensures r == PairingSpec(t, ctx, a, kindA, b, kindB, hit)
    ensures r == IndependenceUnmet <==> SameFamily(t, kindA, kindB) && Separates(t, ctx, a, kindA, b)
    ensures r == ProviderPolicyRefused <==>
      (SameFamily(t, kindA, kindB) && !Separates(t, ctx, a, kindA, b) && hit * ctx.distinctFor != {})
  {
    var same := Fam(t, kindA) != "" && Fam(t, kindB) != "" && Fam(t, kindA) == Fam(t, kindB);
    if same {
      for n := 0 to |ctx.pairs|
        invariant forall m :: 0 <= m < n ==> !Joins(ctx.pairs[m], a, b)
      {
        if Joins(ctx.pairs[n], a, b) { return IndependenceUnmet; }
      }
      for n := 0 to |ctx.pairs|
        invariant forall m :: 0 <= m < n ==> !ClashesWith(t, ctx, a, kindA, b, ctx.pairs[m])
      {
        var x, y := ctx.pairs[n].0, ctx.pairs[n].1;
        if y == a && x != b && SameFamily(t, Measured(ctx, x), kindA) { return IndependenceUnmet; }
        if x == a && y != b && SameFamily(t, Measured(ctx, y), kindA) { return IndependenceUnmet; }
      }
    }
    if hit * ctx.distinctFor != {} && same { return ProviderPolicyRefused; }
    return Clean;
  }

  // A seat's partners: those it is paired with, in either order.
  predicate Partner(ctx: Ctx, a: Seat, s: Seat) {
    (a, s) in ctx.pairs || (s, a) in ctx.pairs
  }

  // Each answer, exactly when it is given: between kinds of one family, for independence if the seats are paired
  // or a third partner of a was measured with that family, else for policy if a class hit asks for it.
  lemma PairingExactly(t: Table, ctx: Ctx, a: Seat, kindA: Kind, b: Seat, kindB: Kind, hit: set<string>)
    ensures var r := PairingSpec(t, ctx, a, kindA, b, kindB, hit);
      var same := Fam(t, kindA) != "" && Fam(t, kindA) == Fam(t, kindB);
      var apart := Partner(ctx, a, b) ||
                   exists s :: s != b && Partner(ctx, a, s) && Fam(t, Measured(ctx, s)) == Fam(t, kindA);
      (r == IndependenceUnmet <==> same && apart) &&
      (r == ProviderPolicyRefused <==> same && !apart && exists c :: c in hit && c in ctx.distinctFor) &&
      (r == Clean <==> !same || (!apart && hit !! ctx.distinctFor))
  {
    if c :| c in hit && c in ctx.distinctFor { assert c in hit * ctx.distinctFor; }
    if Fam(t, kindA) != "" { SeparatesExactly(t, ctx, a, kindA, b); }
  }

  lemma SeparatesExactly(t: Table, ctx: Ctx, a: Seat, kindA: Kind, b: Seat)
    requires Fam(t, kindA) != ""
    ensures Separates(t, ctx, a, kindA, b) <==>
            (Partner(ctx, a, b) ||
             exists s :: s != b && Partner(ctx, a, s) && Fam(t, Measured(ctx, s)) == Fam(t, kindA))
  {
    if Separates(t, ctx, a, kindA, b) {
      var n :| 0 <= n < |ctx.pairs| &&
               (Joins(ctx.pairs[n], a, b) || ClashesWith(t, ctx, a, kindA, b, ctx.pairs[n]));
      var p := ctx.pairs[n];
      assert p == (p.0, p.1) && p in ctx.pairs;
    }
    if Partner(ctx, a, b) {
      var n :| 0 <= n < |ctx.pairs| && (ctx.pairs[n] == (a, b) || ctx.pairs[n] == (b, a));
      assert Joins(ctx.pairs[n], a, b);
    }
    if s :| s != b && Partner(ctx, a, s) && Fam(t, Measured(ctx, s)) == Fam(t, kindA) {
      var n :| 0 <= n < |ctx.pairs| && (ctx.pairs[n] == (a, s) || ctx.pairs[n] == (s, a));
      assert ClashesWith(t, ctx, a, kindA, b, ctx.pairs[n]);
    }
  }

  // A seat's candidate shares the family of a measured, configured partner.
  predicate Breaches(t: Table, ctx: Ctx, role: Seat, candidate: Kind) {
    exists n :: 0 <= n < |ctx.pairs| && BreachesPair(t, ctx, role, candidate, ctx.pairs[n])
  }

  predicate BreachesPair(t: Table, ctx: Ctx, role: Seat, candidate: Kind, p: (Seat, Seat)) {
    (p.0 == role && SameFamily(t, candidate, Measured(ctx, p.1))) ||
    (p.0 != role && p.1 == role && SameFamily(t, candidate, Measured(ctx, p.0)))
  }

  // The gate a chain consults per candidate refuses exactly the breaches.
  method PairingGate(t: Table, ctx: Ctx, role: Seat, candidate: Kind) returns (refuses: bool)
    requires "" !in t.families
    ensures refuses <==> Breaches(t, ctx, role, candidate)
  {
    for n := 0 to |ctx.pairs|
      invariant forall m :: 0 <= m < n ==> !BreachesPair(t, ctx, role, candidate, ctx.pairs[m])
    {
      var p := ctx.pairs[n];
      if p.0 != role && p.1 != role { continue; }
      var other := if p.0 == role then p.1 else p.0;
      var recorded := Measured(ctx, other);
      if recorded == "" { continue; }
      var why := CheckPairing(t, ctx, role, candidate, other, recorded, {});
      if why != Clean {
        return true;
      }
      assert Joins(p, role, other);
    }
    return false;
  }

  // check_pairing alone looks at a recorded partner only once the two kinds it was given already share a
  // family. So of the candidates that breach a recorded pair it refuses exactly those that share a family
  // with the kind given for the other seat.
  lemma RecordedPartnerSeenExactly(t: Table, ctx: Ctx, a: Seat, kindA: Kind, b: Seat, kindB: Kind, hit: set<string>)
    requires Breaches(t, ctx, a, kindA)
    ensures PairingSpec(t, ctx, a, kindA, b, kindB, hit) != Clean <==> SameFamily(t, kindA, kindB)
  {
    var n :| 0 <= n < |ctx.pairs| && BreachesPair(t, ctx, a, kindA, ctx.pairs[n]);
    assert Joins(ctx.pairs[n], a, b) || ClashesWith(t, ctx, a, kindA, b, ctx.pairs[n]);
  }

  // The least miss: a candidate of the recorded partner's own family, beside an unrelated third seat.
  lemma RecordedPartnerCanBeMissed() returns (t: Table, ctx: Ctx)
    ensures ctx.pairs == [("planner", "reviewer")] && Measured(ctx, "planner") == "x"
    ensures Breaches(t, ctx, "reviewer", "x") && PairingSpec(t, ctx, "reviewer", "x", "writer", "y", {}) == Clean
  {
    t := Table({"x", "y"}, map["x" := "f", "y" := "g"], {"reviewer"});
    ctx := Ctx([("planner", "reviewer")], {}, map["planner" := "x"]);
    assert BreachesPair(t, ctx, "reviewer", "x", ctx.pairs[0]);
    RecordedPartnerSeenExactly(t, ctx, "reviewer", "x", "writer", "y", {});
  }

  // ---- chains --------------------------------------------------------------------------------------

  type Checkpoint = map<Seat, set<Kind>>

  function ExhaustedFor(ck: Checkpoint, seat: Seat): set<Kind> {
    if seat in ck then ck[seat] else {}
  }

  function MarkExhausted(ck: Checkpoint, seat: Seat, kind: Kind): (r: Checkpoint)
    ensures ExhaustedFor(r, seat) == ExhaustedFor(ck, seat) + {kind}
    ensures forall s :: s != seat ==> ExhaustedFor(r, s) == ExhaustedFor(ck, s)
    ensures kind in ExhaustedFor(ck, seat) ==> r == ck
  {
    if kind in ExhaustedFor(ck, seat) then ck else ck[seat := ExhaustedFor(ck, seat) + {kind}]
  }

  function FamiliesOf(t: Table, chain: seq<Kind>): set<Family> {
    set k | k in chain :: Fam(t, k)
  }

  // Why a chain may not be consulted at all.
  function Barred(t: Table, seat: Seat, chain: seq<Kind>, possibleWrite: bool): Option<Refusal> {
    if seat !in t.seats || (exists k :: k in chain && k !in t.declared) then Some(Unresolvable)
    else if "" in FamiliesOf(t, chain) || |FamiliesOf(t, chain)| < 2 then Some(SingleFamily)
    else if possibleWrite then Some(BlockedAmbiguousWrite)
    else None
  }

  predicate Live(clean: Kind -> bool, dead: set<Kind>, k: Kind) {
    k !in dead && clean(k)
  }

  // The first live, policy-clean member; failing that, policy is blamed if it rejected a live one.
  function Pick(chain: seq<Kind>, clean: Kind -> bool, dead: set<Kind>, blocked: bool): Decision {
    if chain == [] then Refused(if blocked then PolicyRefused else Exhausted)
    else if chain[0] in dead then Pick(chain[1..], clean, dead, blocked)
    else if !clean(chain[0]) then Pick(chain[1..], clean, dead, true)
    else Selected(chain[0])
  }

  function ChainNextSpec(t: Table, seat: Seat, chain: seq<Kind>, dead: set<Kind>, possibleWrite: bool,
                         clean: Kind -> bool): Decision
  {
    var barred := Barred(t, seat, chain, possibleWrite);
    if barred.Some? then Refused(barred.value) else Pick(chain, clean, dead, false)
  }

  // Every member of a known family, and all of the same.
  predicate OfOneFamily(t: Table, chain: seq<Kind>) {
    forall j, k :: j in chain && k in chain ==> Fam(t, j) == Fam(t, k)
  }

  predicate Resolves(t: Table, seat: Seat, chain: seq<Kind>) {
    seat in t.seats && forall k :: k in chain ==> k in t.declared
  }

  lemma OneFamilyExactly(t: Table, chain: seq<Kind>)
    ensures |FamiliesOf(t, chain)| < 2 <==> OfOneFamily(t, chain)
  {
    var fs := FamiliesOf(t, chain);
    if |fs| < 2 {
      forall j, k | j in chain && k in chain ensures Fam(t, j) == Fam(t, k) {
        if Fam(t, j) != Fam(t, k) { SubsetSize({Fam(t, j), Fam(t, k)}, fs); }
      }
    }
    if OfOneFamily(t, chain) && fs != {} {
      var f :| f in fs;
      assert fs == {f};
    }
  }

  // Each refusal, exactly when it is given: a seat or member the table does not know, first; then a member of
  // unknown family, or no two families in the chain; then a possible write.
  lemma BarredExactly(t: Table, seat: Seat, chain: seq<Kind>, possibleWrite: bool)
    ensures var barred := Barred(t, seat, chain, possibleWrite);
      var lone := (exists k :: k in chain && Fam(t, k) == "") || OfOneFamily(t, chain);
      (barred == Some(Unresolvable) <==> !Resolves(t, seat, chain)) &&
      (barred == Some(SingleFamily) <==> Resolves(t, seat, chain) && lone) &&
      (barred == Some(BlockedAmbiguousWrite) <==> Resolves(t, seat, chain) && !lone && possibleWrite) &&
      (barred == None <==> Resolves(t, seat, chain) && !lone && !possibleWrite)
  {
    OneFamilyExactly(t, chain);
    assert "" in FamiliesOf(t, chain) <==> exists k :: k in chain && Fam(t, k) == "";
  }

  method ChainNext(t: Table, seat: Seat, chain: seq<Kind>, dead: set<Kind>, possibleWrite: bool, clean: Kind -> bool)
    returns (d: Decision)
    ensures d == ChainNextSpec(t, seat, chain, dead, possibleWrite, clean)
  {
    if seat !in t.seats { return Refused(Unresolvable); }
    if exists k :: k in chain && k !in t.declared { return Refused(Unresolvable); }
    var families := set k | k in chain :: Fam(t, k);
    if "" in families { return Refused(SingleFamily); }
    if |families| < 2 { return Refused(SingleFamily); }
    if possibleWrite { return Refused(BlockedAmbiguousWrite); }
    var policyBlocked := false;
    for n := 0 to |chain|
      invariant Pick(chain, clean, dead, false) == Pick(chain[n..], clean, dead, policyBlocked)
    {
      var k := chain[n];
      assert chain[n..][0] == k && chain[n..][1..] == chain[n + 1..];
      if k in dead { continue; }
      if !clean(k) {
        policyBlocked := true;
        continue;
      }
      return Selected(k);
    }
    return Refused(if policyBlocked then PolicyRefused else Exhausted);
  }

  // Policy rejected a member that is not exhausted.
  predicate Rejected(chain: seq<Kind>, clean: Kind -> bool, dead: set<Kind>) {
    exists k :: k in chain && k !in dead && !clean(k)
  }

  // A live member that no live member precedes.
  ghost predicate FirstLive(chain: seq<Kind>, clean: Kind -> bool, dead: set<Kind>, k: Kind, n: nat) {
    n < |chain| && chain[n] == k && Live(clean, dead, k) && forall m :: 0 <= m < n ==> !Live(clean, dead, chain[m])
  }

  lemma LaterInChain(chain: seq<Kind>, clean: Kind -> bool, dead: set<Kind>, k: Kind, n: nat)
    requires chain != [] && !Live(clean, dead, chain[0]) && FirstLive(chain[1..], clean, dead, k, n)
    ensures FirstLive(chain, clean, dead, k, n + 1)
  {
    forall m | 0 <= m < n + 1 ensures !Live(clean, dead, chain[m]) {
      if m > 0 { assert chain[m] == chain[1..][m - 1]; }
    }
  }

  // The pick is the first live member; there is none exactly when it refuses, and policy is then blamed if
  // it rejected one.
  lemma {:induction false} PickIsFirstLive(chain: seq<Kind>, clean: Kind -> bool, dead: set<Kind>, blocked: bool)
    ensures var d := Pick(chain, clean, dead, blocked);
      if d.Selected? then d.kind in chain && exists n :: FirstLive(chain, clean, dead, d.kind, n)
      else (forall k :: k in chain ==> !Live(clean, dead, k)) &&
           d.why == (if blocked || Rejected(chain, clean, dead) then PolicyRefused else Exhausted)
    decreases chain
  {
    if chain != [] {
      assert chain == [chain[0]] + chain[1..];
      var onwards := blocked || chain[0] !in dead;
      if !Live(clean, dead, chain[0]) {
        PickIsFirstLive(chain[1..], clean, dead, onwards);
        assert Rejected(chain[1..], clean, dead) ==> Rejected(chain, clean, dead);
        assert chain[0] !in dead ==> Rejected(chain, clean, dead);
        forall k, n: nat | FirstLive(chain[1..], clean, dead, k, n) ensures FirstLive(chain, clean, dead, k, n + 1) {
          LaterInChain(chain, clean, dead, k, n);
        }
      } else {
        assert FirstLive(chain, clean, dead, chain[0], 0);
      }
    }
  }

  // While a possible write stands, no chain selects anyone.
  lemma PossibleWriteSelectsNothing(t: Table, seat: Seat, chain: seq<Kind>, dead: set<Kind>, clean: Kind -> bool)
    ensures ChainNextSpec(t, seat, chain, dead, true, clean).Refused?
  {
  }

  // ---- repeated failover ---------------------------------------------------------------------------

  datatype Trip = Trip(visits: seq<Kind>, last: Refusal, ck: Checkpoint)

  // Take the next member; it dies without effect and is marked; take the next; until refused.
  function Travel(t: Table, chain: seq<Kind>, clean: Kind -> bool, seat: Seat, ck: Checkpoint): Trip
    decreases |Elems(chain) - ExhaustedFor(ck, seat)|
  {
    var d := ChainNextSpec(t, seat, chain, ExhaustedFor(ck, seat), false, clean);
    PickIsFirstLive(chain, clean, ExhaustedFor(ck, seat), false);
    if d.Refused? then Trip([], d.why, ck)
    else
      var next := MarkExhausted(ck, seat, d.kind);
      assert Elems(chain) - ExhaustedFor(next, seat) == Elems(chain) - ExhaustedFor(ck, seat) - {d.kind};
      var rest := Travel(t, chain, clean, seat, next);
      Trip([d.kind] + rest.visits, rest.last, rest.ck)
  }

  // The distinct live members, in chain order.
  function Roster(chain: seq<Kind>, clean: Kind -> bool, dead: set<Kind>): (r: seq<Kind>)
    ensures forall k :: k in r <==> k in chain && Live(clean, dead, k)
    ensures NoRepeat(r)
  {
    if chain == [] then []
    else if Live(clean, dead, chain[0]) then
      var rest := Roster(chain[1..], clean, dead + {chain[0]});
      assert chain[0] !in rest;
      [chain[0]] + rest
    else Roster(chain[1..], clean, dead)
  }

  lemma {:induction false} RosterStartsWithPick(chain: seq<Kind>, clean: Kind -> bool, dead: set<Kind>, blocked: bool)
    ensures var d := Pick(chain, clean, dead, blocked);
      if d.Selected? then Roster(chain, clean, dead) == [d.kind] + Roster(chain, clean, dead + {d.kind})
      else Roster(chain, clean, dead) == []
    decreases chain
  {
    if chain != [] {
      if chain[0] in dead {
        RosterStartsWithPick(chain[1..], clean, dead, blocked);
      } else if !clean(chain[0]) {
        RosterStartsWithPick(chain[1..], clean, dead, true);
      }
    }
  }

  lemma MarkingIsNoRejection(chain: seq<Kind>, clean: Kind -> bool, dead: set<Kind>, k: Kind)
    requires clean(k)
    ensures Rejected(chain, clean, dead) <==> Rejected(chain, clean, dead + {k})
  {
    forall q ensures q in dead + {k} <==> q in dead || q == k {}
  }

  // On a chain that may be consulted, the next member is the pick, and marking it leaves fewer.
  lemma NextIsPick(t: Table, chain: seq<Kind>, clean: Kind -> bool, seat: Seat, ck: Checkpoint)
    requires Barred(t, seat, chain, false).None?
    ensures var d := Pick(chain, clean, ExhaustedFor(ck, seat), false);
      ChainNextSpec(t, seat, chain, ExhaustedFor(ck, seat), false, clean) == d &&
      (d.Selected? ==> |Elems(chain) - ExhaustedFor(MarkExhausted(ck, seat, d.kind), seat)|
                       < |Elems(chain) - ExhaustedFor(ck, seat)|)
  {
    var d := Pick(chain, clean, ExhaustedFor(ck, seat), false);
    PickIsFirstLive(chain, clean, ExhaustedFor(ck, seat), false);
    if d.Selected? {
      var next := MarkExhausted(ck, seat, d.kind);
      assert Elems(chain) - ExhaustedFor(next, seat) == Elems(chain) - ExhaustedFor(ck, seat) - {d.kind};
    }
  }

  // One leg of the trip.
  lemma FirstLeg(t: Table, chain: seq<Kind>, clean: Kind -> bool, seat: Seat, ck: Checkpoint, d: Decision)
    requires ChainNextSpec(t, seat, chain, ExhaustedFor(ck, seat), false, clean) == d
    ensures var trip := Travel(t, chain, clean, seat, ck);
      if d.Refused? then trip == Trip([], d.why, ck)
      else
        var rest := Travel(t, chain, clean, seat, MarkExhausted(ck, seat, d.kind));
        trip == Trip([d.kind] + rest.visits, rest.last, rest.ck)
  {
  }

  // FAILOVER. On a chain that may be consulted, repeated failover visits exactly the distinct live
  // policy-clean members, in chain order, each once, and ends by blaming policy if and only if policy
  // rejected a member that was never marked. On any other it visits nobody and names the bar.
  lemma {:induction false} FailoverVisitsTheRoster(t: Table, chain: seq<Kind>, clean: Kind -> bool, seat: Seat,
                                                   ck: Checkpoint)
    ensures var trip, barred := Travel(t, chain, clean, seat, ck), Barred(t, seat, chain, false);
      if barred.Some? then trip == Trip([], barred.value, ck)
      else trip.visits == Roster(chain, clean, ExhaustedFor(ck, seat)) &&
           trip.last == (if Rejected(chain, clean, ExhaustedFor(ck, seat)) then PolicyRefused else Exhausted)
    decreases |Elems(chain) - ExhaustedFor(ck, seat)|
  {
    if Barred(t, seat, chain, false).None? {
      var dead := ExhaustedFor(ck, seat);
      var d := Pick(chain, clean, dead, false);
      PickIsFirstLive(chain, clean, dead, false);
      RosterStartsWithPick(chain, clean, dead, false);
      NextIsPick(t, chain, clean, seat, ck);
      FirstLeg(t, chain, clean, seat, ck, d);
      if d.Selected? {
        FailoverVisitsTheRoster(t, chain, clean, seat, MarkExhausted(ck, seat, d.kind));
        MarkingIsNoRejection(chain, clean, dead, d.kind);
      }
    }
  }

  // It marks what it visits, and leaves every other seat's record alone.
  lemma {:induction false} FailoverMarksOnlyItsSeat(t: Table, chain: seq<Kind>, clean: Kind -> bool, seat: Seat,
                                                    ck: Checkpoint, s: Seat)
    ensures var trip := Travel(t, chain, clean, seat, ck);
      forall k :: k in ExhaustedFor(trip.ck, s) <==> k in ExhaustedFor(ck, s) || (s == seat && k in trip.visits)
    decreases |Elems(chain) - ExhaustedFor(ck, seat)|
  {
    if Barred(t, seat, chain, false).None? {
      var d := Pick(chain, clean, ExhaustedFor(ck, seat), false);
      NextIsPick(t, chain, clean, seat, ck);
      FirstLeg(t, chain, clean, seat, ck, d);
      if d.Selected? {
        FailoverMarksOnlyItsSeat(t, chain, clean, seat, MarkExhausted(ck, seat, d.kind), s);
      }
    }
  }

  lemma FailoverHalts(t: Table, chain: seq<Kind>, clean: Kind -> bool, seat: Seat, ck: Checkpoint)
    ensures |Travel(t, chain, clean, seat, ck).visits| <= |Elems(chain)|
  {
    FailoverVisitsTheRoster(t, chain, clean, seat, ck);
    var visits := Travel(t, chain, clean, seat, ck).visits;
    ElemsSize(visits);
    SubsetSize(Elems(visits), Elems(chain));
  }
}
