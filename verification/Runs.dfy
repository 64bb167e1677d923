// Behaviours of any machine: a state, a sequence of events, and quantities summed along the way. Facts
// about sequences are proved here once, so that their proofs never look inside a step.
module Runs {
  function Run<S, E>(step: (S, E) -> S, s: S, es: seq<E>): S
    decreases es
  {
    if es == [] then s else Run(step, step(s, es[0]), es[1..])
  }

  function Total<S, E>(step: (S, E) -> S, f: (S, E) -> nat, s: S, es: seq<E>): nat
    decreases es
  {
    if es == [] then 0 else f(s, es[0]) + Total(step, f, step(s, es[0]), es[1..])
  }

  lemma {:induction false} RunConcat<S, E>(step: (S, E) -> S, s: S, xs: seq<E>, ys: seq<E>)
    ensures Run(step, s, xs + ys) == Run(step, Run(step, s, xs), ys)
    decreases xs
  {
    if xs == [] {
      assert xs + ys == ys;
    } else {
      assert (xs + ys)[0] == xs[0] && (xs + ys)[1..] == xs[1..] + ys;
      RunConcat(step, step(s, xs[0]), xs[1..], ys);
    }
  }

  lemma {:induction false} TotalConcat<S, E>(step: (S, E) -> S, f: (S, E) -> nat, s: S, xs: seq<E>, ys: seq<E>)
    ensures Total(step, f, s, xs + ys) == Total(step, f, s, xs) + Total(step, f, Run(step, s, xs), ys)
    decreases xs
  {
    if xs == [] {
      assert xs + ys == ys;
    } else {
      assert (xs + ys)[0] == xs[0] && (xs + ys)[1..] == xs[1..] + ys;
      TotalConcat(step, f, step(s, xs[0]), xs[1..], ys);
    }
  }

  lemma FourConcat<S, E>(step: (S, E) -> S, f: (S, E) -> nat, g: (S, E) -> nat, h: (S, E) -> nat, k: (S, E) -> nat,
                         s: S, xs: seq<E>, ys: seq<E>)
    ensures Total(step, f, s, xs + ys) == Total(step, f, s, xs) + Total(step, f, Run(step, s, xs), ys)
    ensures Total(step, g, s, xs + ys) == Total(step, g, s, xs) + Total(step, g, Run(step, s, xs), ys)
    ensures Total(step, h, s, xs + ys) == Total(step, h, s, xs) + Total(step, h, Run(step, s, xs), ys)
    ensures Total(step, k, s, xs + ys) == Total(step, k, s, xs) + Total(step, k, Run(step, s, xs), ys)
  {
    TotalConcat(step, f, s, xs, ys);
    TotalConcat(step, g, s, xs, ys);
    TotalConcat(step, h, s, xs, ys);
    TotalConcat(step, k, s, xs, ys);
  }

  lemma OneStep<S, E>(step: (S, E) -> S, f: (S, E) -> nat, s: S, a: E)
    ensures Run(step, s, [a]) == step(s, a) && Total(step, f, s, [a]) == f(s, a)
  {
    assert [a][1..] == [];
  }

  lemma TwoSteps<S, E>(step: (S, E) -> S, f: (S, E) -> nat, s: S, a: E, m: S, b: E)
    requires step(s, a) == m
    ensures Run(step, s, [a, b]) == step(m, b) && Total(step, f, s, [a, b]) == f(s, a) + f(m, b)
  {
    assert [a, b][1..] == [b];
    OneStep(step, f, m, b);
  }

  ghost predicate Traces<S, E>(step: (S, E) -> S, trace: seq<S>, es: seq<E>) {
    |trace| == |es| + 1 && forall k, l :: 0 <= k < |es| && l == k + 1 ==> step(trace[k], es[k]) == trace[l]
  }

  lemma {:induction false} RunTrace<S, E>(step: (S, E) -> S, trace: seq<S>, es: seq<E>)
    requires Traces(step, trace, es)
    ensures Run(step, trace[0], es) == trace[|es|]
    decreases es
  {
    if es != [] {
      assert Traces(step, trace[1..], es[1..]);
      RunTrace(step, trace[1..], es[1..]);
    }
  }

  // ---- invariants ----------------------------------------------------------------------------------

  ghost predicate Allowed<S, E>(step: (S, E) -> S, ok: (S, E) -> bool, s: S, es: seq<E>)
    decreases es
  {
    es == [] || (ok(s, es[0]) && Allowed(step, ok, step(s, es[0]), es[1..]))
  }

  ghost predicate Preserves<S(!new), E(!new)>(step: (S, E) -> S, ok: (S, E) -> bool, inv: S -> bool) {
    forall s, e :: inv(s) && ok(s, e) ==> inv(step(s, e))
  }

  lemma {:induction false} InvariantHolds<S(!new), E(!new)>(step: (S, E) -> S, ok: (S, E) -> bool, inv: S -> bool,
                                                            s: S, es: seq<E>)
    requires Preserves(step, ok, inv) && inv(s) && Allowed(step, ok, s, es)
    ensures inv(Run(step, s, es))
    decreases es
  {
    if es != [] {
      InvariantHolds(step, ok, inv, step(s, es[0]), es[1..]);
    }
  }

  lemma {:induction false} AllAllowed<S(!new), E(!new)>(step: (S, E) -> S, ok: (S, E) -> bool, s: S, es: seq<E>)
    requires forall t, e :: ok(t, e)
    ensures Allowed(step, ok, s, es)
    decreases es
  {
    if es != [] {
      AllAllowed(step, ok, step(s, es[0]), es[1..]);
    }
  }

  lemma {:induction false} AllowedConcat<S(!new), E(!new)>(step: (S, E) -> S, ok: (S, E) -> bool, s: S,
                                                           xs: seq<E>, ys: seq<E>)
    ensures Allowed(step, ok, s, xs + ys) <==> Allowed(step, ok, s, xs) && Allowed(step, ok, Run(step, s, xs), ys)
    decreases xs
  {
    if xs == [] {
      assert xs + ys == ys;
    } else {
      assert (xs + ys)[0] == xs[0] && (xs + ys)[1..] == xs[1..] + ys;
      AllowedConcat(step, ok, step(s, xs[0]), xs[1..], ys);
    }
  }

  // One more event at the end.
  lemma Snoc<S(!new), E(!new)>(step: (S, E) -> S, f: (S, E) -> nat, ok: (S, E) -> bool, s: S, es: seq<E>, e: E)
    ensures var t := Run(step, s, es);
      Run(step, s, es + [e]) == step(t, e) && Total(step, f, s, es + [e]) == Total(step, f, s, es) + f(t, e) &&
      (Allowed(step, ok, s, es + [e]) <==> Allowed(step, ok, s, es) && ok(t, e))
  {
    RunConcat(step, s, es, [e]);
    TotalConcat(step, f, s, es, [e]);
    AllowedConcat(step, ok, s, es, [e]);
    OneStep(step, f, Run(step, s, es), e);
    assert [e][1..] == [];
  }

  // From the i-th event on, a history obeys ok and sums to n.
  ghost predicate Window<S, E>(step: (S, E) -> S, f: (S, E) -> nat, ok: (S, E) -> bool, s: S, es: seq<E>,
                               i: nat, n: nat)
  {
    i <= |es| && Allowed(step, ok, Run(step, s, es[..i]), es[i..]) &&
    Total(step, f, Run(step, s, es[..i]), es[i..]) == n
  }

  lemma WindowOpens<S(!new), E(!new)>(step: (S, E) -> S, f: (S, E) -> nat, ok: (S, E) -> bool, s: S, es: seq<E>)
    ensures Window(step, f, ok, s, es, |es|, 0)
  {
  }

  lemma WindowGrows<S(!new), E(!new)>(step: (S, E) -> S, f: (S, E) -> nat, ok: (S, E) -> bool, s: S, es: seq<E>,
                                      i: nat, n: nat, e: E)
    requires Window(step, f, ok, s, es, i, n) && ok(Run(step, s, es), e)
    ensures Window(step, f, ok, s, es + [e], i, n + f(Run(step, s, es), e))
  {
    var t := Run(step, s, es[..i]);
    assert es == es[..i] + es[i..] && (es + [e])[..i] == es[..i] && (es + [e])[i..] == es[i..] + [e];
    RunConcat(step, s, es[..i], es[i..]);
    Snoc(step, f, ok, t, es[i..], e);
  }

  // ---- amortised bounds ----------------------------------------------------------------------------

  ghost predicate PaysAt<S, E>(step: (S, E) -> S, inv: S -> bool, pot: S -> int, cost: (S, E) -> nat,
                               credit: (S, E) -> nat, s: S, e: E)
  {
    inv(step(s, e)) && cost(s, e) + pot(step(s, e)) <= pot(s) + credit(s, e)
  }

  ghost predicate Amortised<S(!new), E(!new)>(step: (S, E) -> S, inv: S -> bool, pot: S -> int,
                                              cost: (S, E) -> nat, credit: (S, E) -> nat)
  {
    (forall s :: inv(s) ==> pot(s) >= 0) &&
    forall s, e {:trigger PaysAt(step, inv, pot, cost, credit, s, e)} ::
      inv(s) ==> PaysAt(step, inv, pot, cost, credit, s, e)
  }

  // What is spent never exceeds what was there plus what came in.
  lemma {:induction false} SpentIsPaid<S(!new), E(!new)>(step: (S, E) -> S, inv: S -> bool, pot: S -> int,
                                                         cost: (S, E) -> nat, credit: (S, E) -> nat, s: S, es: seq<E>)
    requires Amortised(step, inv, pot, cost, credit) && inv(s)
    ensures Total(step, cost, s, es) + pot(Run(step, s, es)) <= pot(s) + Total(step, credit, s, es)
    ensures inv(Run(step, s, es))
    decreases es
  {
    if es != [] {
      assert PaysAt(step, inv, pot, cost, credit, s, es[0]);
      SpentIsPaid(step, inv, pot, cost, credit, step(s, es[0]), es[1..]);
    }
  }

  lemma {:induction false} TotalLinear<S(!new), E(!new)>(step: (S, E) -> S, f: (S, E) -> nat, b: nat,
                                                         x: (S, E) -> nat, y: (S, E) -> nat, s: S, es: seq<E>)
    requires forall t, e :: f(t, e) == b * x(t, e) + y(t, e)
    ensures Total(step, f, s, es) == b * Total(step, x, s, es) + Total(step, y, s, es)
    decreases es
  {
    if es != [] {
      TotalLinear(step, f, b, x, y, step(s, es[0]), es[1..]);
      var n, m := x(s, es[0]), Total(step, x, step(s, es[0]), es[1..]);
      assert b * (n + m) == b * n + b * m;
    }
  }
}
