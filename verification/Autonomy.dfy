// When a lane's autonomy is bounded: exactly which startable lanes of LaneEngine cannot start more runs than
// their budget, over every history.
module Autonomy {
  import opened Wrappers
  import opened Programs
  import opened Runs
  import opened LaneEngine

  // ---- the bounded side ----------------------------------------------------------------------------

  // No wake is pending, and a lane whose last report asked a question is not startable.
  predicate Calm(l: Lane) {
    OneRun(l) && !l.desk.wake && (l.desk.awaiting ==> l.state != Planned && l.state != Active)
  }

  // Until it is answered, a calm lane stays calm and pays for every start.
  lemma CalmStep(p: Policy, l: Lane, e: Event)
    requires Calm(l) && e != Answer
    ensures Calm(Step(p, l, e)) && Step(p, l, e).attempt >= l.attempt
    ensures Starts(p, l, e) + Potential(p, Step(p, l, e)) <= Potential(p, l) + Refusals(p, l, e)
  {
    StepKeepsOneRun(p, l, e);
    if e.Consume? && e.i < |l.open| { assert Without(l.open, 0) == []; }
  }

  lemma {:induction false} CalmStartsArePaid(p: Policy, l: Lane, es: seq<Event>)
    requires Calm(l) && Total(Machine(p), AnswersOf(), l, es) == 0
    ensures Total(Machine(p), StartsOf(p), l, es) <= Potential(p, l) + Total(Machine(p), RefusalsOf(p), l, es)
    decreases es
  {
    if es != [] {
      CalmStep(p, l, es[0]);
      CalmStartsArePaid(p, Step(p, l, es[0]), es[1..]);
    }
  }

  // A lane with no reviewer to ask for has none refused.
  lemma {:induction false} NoReviewerRefused(p: Policy, l: Lane, es: seq<Event>)
    requires l.kind != Implementation || !p.requireAdversarial
    ensures Total(Machine(p), RefusalsOf(p), l, es) == 0
    decreases es
  {
    if es != [] {
      KindStays(p, l, es[0]);
      NoReviewerRefused(p, Step(p, l, es[0]), es[1..]);
    }
  }

  lemma KindStays(p: Policy, l: Lane, e: Event)
    ensures Step(p, l, e).kind == l.kind
  {
  }

  // ---- the unbounded side --------------------------------------------------------------------------

  const ASK := WorkerReports(Some(WaitingStrategist))

  lemma TwoEvents(p: Policy, l: Lane, a: Event, m: Lane, b: Event)
    requires Step(p, l, a) == m
    ensures Run(Machine(p), l, [a, b]) == Step(p, m, b)
    ensures Count(p, l, [a, b]) ==
            Tally(Starts(p, l, a) + Starts(p, m, b), (if a == Answer then 1 else 0) + (if b == Answer then 1 else 0),
                  Refusals(p, l, a) + Refusals(p, m, b), Swallowed(l, a) + Swallowed(m, b))
  {
    TwoSteps(Machine(p), StartsOf(p), l, a, m, b);
    TwoSteps(Machine(p), AnswersOf(), l, a, m, b);
    TwoSteps(Machine(p), RefusalsOf(p), l, a, m, b);
    TwoSteps(Machine(p), SwallowedOf(), l, a, m, b);
  }

  // One run asks and fails; then an answer, or a wake already pending, makes the lane startable again with
  // the question still standing.
  lemma QuestionStands(p: Policy, l: Lane, wake: Event)
    requires Startable(l) && (wake == Answer || (wake == ApplyWakes && l.desk.wake))
    ensures var es := [START, ASK] + [Consume(0, Failed), wake];
      var t := Run(Machine(p), l, es);
      Startable(t) && t.desk.awaiting && t.attempt == l.attempt &&
      Count(p, l, es) == Tally(1, if wake == Answer then 1 else 0, 0, 1)
  {
    var working := l.(state := Active, open := [Own]);
    var asked := working.(state := WaitingStrategist, desk := l.desk.(awaiting := true));
    var parked := asked.(open := []);
    assert Without([Own], 0) == [];
    TwoEvents(p, l, START, working, ASK);
    TwoEvents(p, asked, Consume(0, Failed), parked, wake);
    RunConcat(Machine(p), l, [START, ASK], [Consume(0, Failed), wake]);
    FourConcat(Machine(p), StartsOf(p), AnswersOf(), RefusalsOf(p), SwallowedOf(), l, [START, ASK],
               [Consume(0, Failed), wake]);
  }

  // The input is real: a new lane, one question, one answer.
  lemma StaleQuestionArises(p: Policy, kind: Kind) returns (es: seq<Event>)
    ensures var t := Run(Machine(p), NewLane(kind), es);
      Startable(t) && t.desk.awaiting && Count(p, NewLane(kind), es).answers == 1
  {
    QuestionStands(p, NewLane(kind), Answer);
    es := [START, ASK] + [Consume(0, Failed), Answer];
  }

  lemma {:induction false} QuestionThenNeverStops(p: Policy, l: Lane, wake: Event, n: nat) returns (es: seq<Event>)
    requires Startable(l) && (wake == Answer || (wake == ApplyWakes && l.desk.wake))
    ensures Count(p, l, es) == Tally(n + 1, if wake == Answer then 1 else 0, 0, n + 1)
  {
    var first := [START, ASK] + [Consume(0, Failed), wake];
    QuestionStands(p, l, wake);
    var rest := StaleQuestionNeverStops(p, Run(Machine(p), l, first), n);
    FourConcat(Machine(p), StartsOf(p), AnswersOf(), RefusalsOf(p), SwallowedOf(), l, first, rest);
    es := first + rest;
  }

  // ---- exactly when --------------------------------------------------------------------------------

  // With at most a answers, no more starts than the budget, once and once more per answer.
  ghost predicate Bounded(p: Policy, l: Lane, a: nat, es: seq<Event>) {
    Count(p, l, es).answers <= a ==> Count(p, l, es).starts <= Budget(p, l.attempt) * (1 + a)
  }

  // The same, of histories in which every reviewer asked for is dispatched.
  ghost predicate BoundedIfReviewed(p: Policy, l: Lane, a: nat, es: seq<Event>) {
    Count(p, l, es).refusals == 0 ==> Bounded(p, l, a, es)
  }

  // Nothing at the outset lets the lane pass its budget: no answer to come, no wake pending, no question of an
  // earlier report standing.
  predicate Undisturbed(l: Lane, a: nat) {
    a == 0 && !l.desk.wake && !l.desk.awaiting
  }

  lemma {:induction false} PassesItsBudget(p: Policy, l: Lane, a: nat) returns (es: seq<Event>)
    requires Startable(l) && !Undisturbed(l, a)
    ensures !BoundedIfReviewed(p, l, a, es)
  {
    var n := Budget(p, l.attempt) * (1 + a) + 1;
    if l.desk.awaiting { es := StaleQuestionNeverStops(p, l, n); }
    else if l.desk.wake { es := QuestionThenNeverStops(p, l, ApplyWakes, n); }
    else { es := QuestionThenNeverStops(p, l, Answer, n); }
  }

  lemma StaysWithinIt(p: Policy, l: Lane, es: seq<Event>)
    requires Startable(l) && Undisturbed(l, 0) && Count(p, l, es).answers == 0
    ensures Count(p, l, es).starts <= Budget(p, l.attempt) + Count(p, l, es).refusals
  {
    CalmStartsArePaid(p, l, es);
  }

  // WHEN AUTONOMY IS BOUNDED, every reviewer dispatched: exactly when nobody answers, no wake is pending and no
  // question stands when the lane is first startable. One answer undoes it, for every lane.
  lemma {:induction false} BoundedExactlyIfReviewed(p: Policy, l: Lane, a: nat)
    requires Startable(l)
    ensures (forall es :: BoundedIfReviewed(p, l, a, es)) <==> Undisturbed(l, a)
  {
    if Undisturbed(l, a) {
      forall es ensures BoundedIfReviewed(p, l, a, es) {
        if Count(p, l, es).refusals == 0 && Count(p, l, es).answers <= a { StaysWithinIt(p, l, es); }
      }
    } else {
      var es := PassesItsBudget(p, l, a);
    }
  }

  // And over all histories: exactly when moreover the lane is not an implementation lane of a program that
  // asks for adversarial review.
  lemma {:induction false} BoundedExactly(p: Policy, l: Lane, a: nat)
    requires Startable(l)
    ensures (forall es :: Bounded(p, l, a, es)) <==>
            (Undisturbed(l, a) && !(l.kind == Implementation && p.requireAdversarial))
  {
    if !Undisturbed(l, a) {
      var es := PassesItsBudget(p, l, a);
      assert !Bounded(p, l, a, es);
    } else if l.kind == Implementation && p.requireAdversarial {
      var es := RefusedReviewersNeverStop(p, l, Budget(p, l.attempt) + 1);
      assert !Bounded(p, l, a, es);
    } else {
      forall es ensures Bounded(p, l, a, es) {
        if Count(p, l, es).answers <= a {
          StaysWithinIt(p, l, es);
          NoReviewerRefused(p, l, es);
        }
      }
    }
  }

  // ---- no second execution -------------------------------------------------------------------------

  // No run outstanding, nothing to wake it, and not schedulable.
  predicate Parked(l: Lane) {
    l.open == [] && !l.desk.wake && l.state != Planned && l.state != Active
  }

  lemma ParkedStep(p: Policy, l: Lane, e: Event)
    requires Parked(l) && e != Answer
    ensures Parked(Step(p, l, e)) && Starts(p, l, e) == 0
  {
  }

  lemma {:induction false} ParkedNeverStarts(p: Policy, l: Lane, es: seq<Event>)
    requires Parked(l) && Count(p, l, es).answers == 0
    ensures Count(p, l, es).starts == 0
    decreases es
  {
    if es != [] {
      ParkedStep(p, l, es[0]);
      ParkedNeverStarts(p, Step(p, l, es[0]), es[1..]);
    }
  }

  // NO SECOND EXECUTION OVER A POSSIBLE WRITE. After a lane's run was consumed as ambiguous, or as refused, no
  // sequence of events starts another on it until somebody answers, no wake pending: exactly then, for one
  // answer and one more attempt are enough.
  lemma {:induction false} AmbiguousEndsWait(p: Policy, l: Lane, i: nat, end: RunEnd)
    requires OneRun(l) && Advances(l, Consume(i, end)) && (end == Ambiguous || end == Refused)
    ensures var next := Step(p, l, Consume(i, end));
      (forall es :: StartsNothing(p, next, es)) <==> !l.desk.wake
    ensures var next := Step(p, l, Consume(i, end));
      Count(p, next, [Answer, START]).starts == 1
  {
    var next := Step(p, l, Consume(i, end));
    assert Without(l.open, i) == [];
    var woken := next.(state := Planned);
    TwoEvents(p, next, Answer, woken, START);
    if l.desk.wake {
      TwoEvents(p, next, ApplyWakes, next.(state := Planned, desk := next.desk.(wake := false)), START);
      assert !StartsNothing(p, next, [ApplyWakes, START]);
    } else {
      forall es ensures StartsNothing(p, next, es) {
        if Count(p, next, es).answers == 0 { ParkedNeverStarts(p, next, es); }
      }
    }
  }

  ghost predicate StartsNothing(p: Policy, l: Lane, es: seq<Event>) {
    Count(p, l, es).answers == 0 ==> Count(p, l, es).starts == 0
  }
}
