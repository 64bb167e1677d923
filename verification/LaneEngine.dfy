// The life of one lane under the scheduler (core/orchestrator.py: schedule, reap, _consume_run,
// _after_implementation, _after_review, _resolve_findings_from, answer, apply_pending_wakes) as a state
// machine: every event is one such operation, with what the world decided as its argument. A behaviour
// is any sequence of events.
module LaneEngine {
  import opened Wrappers
  import opened Programs
  import opened Runs

  datatype Kind = Research | Implementation | Verification | AdversarialReview | Integration

  // Own: bound by the scheduler under the lane's kind. Review: bound after an implementation run.
  datatype Role = Own | Review

  // What is true of the last committed candidate. Nothing stores it.
  datatype Candidate = NoCandidate | Unreviewed | Flagged | Passed

  // Both are checkpoint keys: the last report asked a question; an answer found the lane not parked.
  datatype Desk = Desk(awaiting: bool, wake: bool)

  // held: verification findings kept for the review to add.
  datatype Work = Work(held: bool, cand: Candidate)

  // open: the lane's unprocessed runs.
  datatype Lane = Lane(kind: Kind, state: LaneState, attempt: int, open: seq<Role>, desk: Desk, work: Work)

  datatype Policy = Policy(maxReviewCycles: int, requireAdversarial: bool)

  // How one scheduling attempt on a startable lane ends.
  datatype Admission =
    | NotReady | SyncEscalated | SeatRefused | Admitted | Duplicate | Ceiling | OwnerRefusal | OtherRefusal

  // committed: a new commit was made. reviewer: the reviewer's dispatch was admitted.
  datatype Report = Report(findings: bool, committed: bool, reviewer: bool)

  datatype RunEnd = Ambiguous | Failed | Refused | Ready(report: Report)

  // Park: the reaper hands a lane with an unprocessed run to the owner.
  datatype Event =
    | Schedule(admission: Admission)
    | WorkerReports(asks: Option<LaneState>)
    | Consume(i: nat, end: RunEnd)
    | Park(to: LaneState)
    | Answer
    | ApplyWakes
    | Abandon

  // ---- the operations on a lane ------------------------------------------------------------------

  predicate Startable(l: Lane) {
    (l.state == Planned || l.state == Active) && l.open == []
  }

  function AfterSchedule(l: Lane, a: Admission): Lane {
    if !Startable(l) || a == NotReady || a == Ceiling then l
    else if a == Admitted then l.(state := Active, open := [Own])
    else l.(state := if a == OwnerRefusal then WaitingOwner else WaitingStrategist)
  }

  // One more attempt, or the strategist's desk when the attempts are used up.
  function Retry(l: Lane, limit: int): Lane {
    l.(attempt := l.attempt + 1, state := if l.attempt + 1 > limit then WaitingStrategist else Planned)
  }

  function Resolve(p: Policy, l: Lane, findings: bool): Lane {
    if findings then Retry(l, p.maxReviewCycles) else l.(state := Complete)
  }

  predicate NeedsReview(p: Policy, rep: Report) {
    p.requireAdversarial && rep.committed
  }

  function AfterImplementation(p: Policy, l: Lane, rep: Report): Lane {
    if NeedsReview(p, rep) then
      l.(state := Active, open := if rep.reviewer then l.open + [Review] else l.open,
         work := Work(l.work.held || rep.findings, Unreviewed))
    else Resolve(p, l, rep.findings)
  }

  function AfterReview(p: Policy, l: Lane, findings: bool): Lane {
    var surviving := findings || l.work.held;
    Resolve(p, l.(work := Work(false, if surviving then Flagged else Passed)), surviving)
  }

  function AfterRun(p: Policy, l: Lane, role: Role, end: RunEnd): Lane {
    match end
    case Ambiguous => l.(state := WaitingOwner)
    case Failed => Retry(l, p.maxReviewCycles + 1)
    case Refused => l.(state := WaitingStrategist)
    case Ready(rep) =>
      if role == Review || l.kind == AdversarialReview then AfterReview(p, l, rep.findings)
      else if l.kind == Implementation then AfterImplementation(p, l, rep)
      else l.(state := Complete)
  }

  // One more attempt: planned again while the limit allows, else before the strategist.
  predicate TriesAgain(l: Lane, limit: int, next: Lane) {
    next.attempt == l.attempt + 1 && next.open == l.open &&
    (next.attempt <= limit ==> next.state == Planned) && (next.attempt > limit ==> next.state == WaitingStrategist)
  }

  predicate Stops(l: Lane, to: LaneState, next: Lane) {
    next.state == to && next.attempt == l.attempt && next.open == l.open
  }

  // Which ending leaves which lane, whatever the role and the kind: an ambiguous one is the owner's and a refused
  // one the strategist's, no attempt consumed; a failed one tries again, as does work with faults; a commit that
  // wants a reviewer waits for it; and everything else is complete.
  predicate EndsAs(p: Policy, l: Lane, role: Role, end: RunEnd, next: Lane) {
    var review := role == Review || l.kind == AdversarialReview;
    next.kind == l.kind && next.desk == l.desk &&
    match end
    case Ambiguous => Stops(l, WaitingOwner, next) && next.work == l.work
    case Refused => Stops(l, WaitingStrategist, next) && next.work == l.work
    case Failed => TriesAgain(l, p.maxReviewCycles + 1, next) && next.work == l.work
    case Ready(rep) =>
      if review then
        next.work == Work(false, if rep.findings || l.work.held then Flagged else Passed) &&
        if rep.findings || l.work.held then TriesAgain(l, p.maxReviewCycles, next) else Stops(l, Complete, next)
      else if l.kind != Implementation then Stops(l, Complete, next) && next.work == l.work
      else if p.requireAdversarial && rep.committed then
        next.state == Active && next.attempt == l.attempt &&
        next.open == (if rep.reviewer then l.open + [Review] else l.open) &&
        next.work.cand == Unreviewed && (next.work.held <==> l.work.held || rep.findings)
      else next.work == l.work &&
           if rep.findings then TriesAgain(l, p.maxReviewCycles, next) else Stops(l, Complete, next)
  }

  lemma EndsAreNamed(p: Policy, l: Lane, role: Role, end: RunEnd)
    ensures EndsAs(p, l, role, end, AfterRun(p, l, role, end))
  {
  }

  // What a scheduling attempt leaves: nothing changes on a lane that is not startable, has no worktree yet or
  // meets the ceiling; an admitted run is bound and the lane active; every other refusal parks it, the owner's
  // before the owner.
  predicate SchedulesAs(l: Lane, a: Admission, next: Lane) {
    next == l.(state := next.state, open := next.open) &&
    ((l.state != Planned && l.state != Active) || l.open != [] ==> next == l) &&
    ((l.state == Planned || l.state == Active) && l.open == [] ==>
       (next.open == if a == Admitted then [Own] else []) &&
       match a
       case Admitted => next.state == Active
       case OwnerRefusal => next.state == WaitingOwner
       case NotReady => next.state == l.state
       case Ceiling => next.state == l.state
       case _ => next.state == WaitingStrategist)
  }

  lemma AttemptsAreNamed(l: Lane, a: Admission)
    ensures SchedulesAs(l, a, AfterSchedule(l, a))
  {
  }

  function Without(open: seq<Role>, i: nat): seq<Role>
    requires i < |open|
  {
    open[..i] + open[i + 1..]
  }

  // A finished run is marked processed first; on an abandoned lane, or when the last report asked a
  // question, nothing more happens.
  function AfterConsume(p: Policy, l: Lane, i: nat, end: RunEnd): Lane {
    if i >= |l.open| then l
    else
      var rest := l.(open := Without(l.open, i));
      if l.state == Abandoned || l.desk.awaiting then rest else AfterRun(p, rest, l.open[i], end)
  }

  function AfterAnswer(l: Lane): Lane {
    if IsWaiting(l.state) then l.(state := Planned)
    else if !Terminal(l.state) then l.(desk := l.desk.(wake := true))
    else l
  }

  function AfterWakes(l: Lane): Lane {
    if IsWaiting(l.state) && l.desk.wake then l.(state := Planned, desk := l.desk.(wake := false)) else l
  }

  function Step(p: Policy, l: Lane, e: Event): Lane {
    match e
    case Schedule(a) => AfterSchedule(l, a)
    case WorkerReports(asks) =>
      if l.open == [] then l
      else if asks.Some? && IsWaiting(asks.value) then l.(state := asks.value, desk := l.desk.(awaiting := true))
      else l.(desk := l.desk.(awaiting := false))
    case Consume(i, end) => AfterConsume(p, l, i, end)
    case Park(to) => if l.open != [] && IsWaiting(to) then l.(state := to) else l
    case Answer => AfterAnswer(l)
    case ApplyWakes => AfterWakes(l)
    case Abandon => if Terminal(l.state) then l else l.(state := Abandoned)
  }

  // Each event, in words: an answer plans a parked lane and leaves a note on a running one; a note plans a lane
  // that parked after it, once; a report parks the lane exactly if it asks; a finished run leaves the lane, and
  // unless the lane is abandoned or asked a question, its end is the lane's; the reaper and the owner's abandon
  // set the state alone.
  predicate HappensAs(p: Policy, l: Lane, e: Event, next: Lane) {
    var parked := l.state in {WaitingStrategist, WaitingOwner, WaitingLane, WaitingExternal};
    match e
    case Schedule(a) => SchedulesAs(l, a, next)
    case Answer =>
      next == if parked then l.(state := Planned)
              else if l.state == Planned || l.state == Active then l.(desk := Desk(l.desk.awaiting, true)) else l
    case ApplyWakes =>
      next == if parked && l.desk.wake then l.(state := Planned, desk := Desk(l.desk.awaiting, false)) else l
    case WorkerReports(asks) =>
      if l.open == [] then next == l
      else if asks.Some? && asks.value in {WaitingStrategist, WaitingOwner, WaitingLane, WaitingExternal}
      then next == l.(state := asks.value, desk := Desk(true, l.desk.wake))
      else next == l.(desk := Desk(false, l.desk.wake))
    case Consume(i, end) =>
      if i >= |l.open| then next == l
      else if l.state == Abandoned || l.desk.awaiting then next == l.(open := l.open[..i] + l.open[i + 1..])
      else EndsAs(p, l.(open := l.open[..i] + l.open[i + 1..]), l.open[i], end, next)
    case Park(to) =>
      next == if l.open != [] && to in {WaitingStrategist, WaitingOwner, WaitingLane, WaitingExternal}
              then l.(state := to) else l
    case Abandon => next == if l.state == Complete then l else l.(state := Abandoned)
  }

  lemma EventsAreNamed(p: Policy, l: Lane, e: Event)
    ensures HappensAs(p, l, e, Step(p, l, e))
  {
    match e
    case Schedule(a) => AttemptsAreNamed(l, a);
    case Consume(i, end) => if i < |l.open| { EndsAreNamed(p, l.(open := Without(l.open, i)), l.open[i], end); }
    case _ =>
  }

  function Machine(p: Policy): (Lane, Event) -> Lane {
    (l, e) => Step(p, l, e)
  }

  // ---- counting ------------------------------------------------------------------------------------

  // This event consumes an own run of an implementation lane whose candidate wants a reviewer.
  predicate AsksReviewer(p: Policy, l: Lane, e: Event) {
    e.Consume? && e.i < |l.open| && l.state != Abandoned && !l.desk.awaiting && l.open[e.i] == Own &&
    l.kind == Implementation && e.end.Ready? && NeedsReview(p, e.end.report)
  }

  // Runs started by one event.
  function Starts(p: Policy, l: Lane, e: Event): nat {
    if e == Schedule(Admitted) && Startable(l) then 1
    else if AsksReviewer(p, l, e) && e.end.report.reviewer then 1
    else 0
  }

  // A reviewer was wanted and its dispatch refused.
  function Refusals(p: Policy, l: Lane, e: Event): nat {
    if AsksReviewer(p, l, e) && !e.end.report.reviewer then 1 else 0
  }

  // A run was marked processed without consuming an attempt, because the lane's last report asked a
  // question: one for an own run, two for a review.
  function Swallowed(l: Lane, e: Event): nat {
    if e.Consume? && e.i < |l.open| && l.state != Abandoned && l.desk.awaiting
    then (if l.open[e.i] == Own then 1 else 2) else 0
  }

  function StartsOf(p: Policy): (Lane, Event) -> nat { (l, e) => Starts(p, l, e) }

  function RefusalsOf(p: Policy): (Lane, Event) -> nat { (l, e) => Refusals(p, l, e) }

  function SwallowedOf(): (Lane, Event) -> nat { (l, e) => Swallowed(l, e) }

  function AnswersOf(): (Lane, Event) -> nat { (l: Lane, e: Event) => if e == Answer then 1 else 0 }

  datatype Tally = Tally(starts: nat, answers: nat, refusals: nat, swallowed: nat)

  function Count(p: Policy, l: Lane, es: seq<Event>): Tally {
    Tally(Total(Machine(p), StartsOf(p), l, es), Total(Machine(p), AnswersOf(), l, es),
          Total(Machine(p), RefusalsOf(p), l, es), Total(Machine(p), SwallowedOf(), l, es))
  }

  // ---- at most one run -----------------------------------------------------------------------------

  predicate OneRun(l: Lane) {
    |l.open| <= 1 && (l.state == Complete ==> l.open == [])
  }

  lemma StepKeepsOneRun(p: Policy, l: Lane, e: Event)
    requires OneRun(l)
    ensures OneRun(Step(p, l, e))
  {
  }

  // A lane never has two unprocessed runs, and a complete lane has none.
  lemma AtMostOneRun(p: Policy, l: Lane, es: seq<Event>)
    requires OneRun(l)
    ensures OneRun(Run(Machine(p), l, es))
  {
    var ok := (m: Lane, e: Event) => true;
    forall m, e | OneRun(m) && ok(m, e) ensures OneRun(Machine(p)(m, e)) {
      StepKeepsOneRun(p, m, e);
    }
    AllAllowed(Machine(p), ok, l, es);
    InvariantHolds(Machine(p), ok, OneRun, l, es);
  }

  // ---- bounded autonomy ----------------------------------------------------------------------------

  // The starts a lane at attempt a may make before it must stop.
  function Budget(p: Policy, a: int): (b: nat)
    ensures b >= 2
  {
    2 * Max(1, p.maxReviewCycles + 2 - a)
  }

  // What of the budget is left: all of it when startable, none when parked or over.
  function Potential(p: Policy, l: Lane): int {
    (if |l.open| == 1 then Budget(p, l.attempt) - (if l.open[0] == Own then 1 else 2)
     else if l.state == Planned || l.state == Active then Budget(p, l.attempt)
     else 0) +
    (if l.desk.wake then Budget(p, l.attempt) else 0)
  }

  // What an event may add, given that no attempt number is below a.
  function Credit(p: Policy, a: int, l: Lane, e: Event): nat {
    Budget(p, a) * (if e == Answer then 1 else 0) + (Refusals(p, l, e) + Swallowed(l, e))
  }

  function Credits(p: Policy, a: int): (Lane, Event) -> nat { (l, e) => Credit(p, a, l, e) }

  function Losses(p: Policy): (Lane, Event) -> nat { (l, e) => Refusals(p, l, e) + Swallowed(l, e) }

  function Potentials(p: Policy): Lane -> int { l => Potential(p, l) }

  function From(a: int): Lane -> bool { l => OneRun(l) && l.attempt >= a }

  lemma ConsumePays(p: Policy, a: int, l: Lane, e: Event)
    requires OneRun(l) && l.attempt >= a && e.Consume?
    ensures Starts(p, l, e) + Potential(p, Step(p, l, e)) <= Potential(p, l) + Credit(p, a, l, e)
    ensures Step(p, l, e).attempt >= l.attempt
  {
    if e.i < |l.open| {
      assert Without(l.open, 0) == [];
    }
    assert Budget(p, a) * 0 == 0;
  }

  lemma StepPays(p: Policy, a: int, l: Lane, e: Event)
    requires OneRun(l) && l.attempt >= a
    ensures PaysAt(Machine(p), From(a), Potentials(p), StartsOf(p), Credits(p, a), l, e)
  {
    StepKeepsOneRun(p, l, e);
    if e.Consume? { ConsumePays(p, a, l, e); }
  }

  lemma {:induction false} EngineIsAmortised(p: Policy, a: int)
    ensures Amortised(Machine(p), From(a), Potentials(p), StartsOf(p), Credits(p, a))
  {
    forall l, e | From(a)(l) ensures PaysAt(Machine(p), From(a), Potentials(p), StartsOf(p), Credits(p, a), l, e) {
      StepPays(p, a, l, e);
    }
  }

  lemma CreditsAdd(p: Policy, a: int, l: Lane, es: seq<Event>)
    ensures var t := Count(p, l, es);
      Total(Machine(p), Credits(p, a), l, es) == Budget(p, a) * t.answers + (t.refusals + t.swallowed)
  {
    TotalLinear(Machine(p), Losses(p), 1, RefusalsOf(p), SwallowedOf(), l, es);
    TotalLinear(Machine(p), Credits(p, a), Budget(p, a), AnswersOf(), Losses(p), l, es);
  }

  lemma {:induction false} StartsArePaid(p: Policy, l: Lane, es: seq<Event>)
    requires OneRun(l)
    ensures Count(p, l, es).starts <= Potential(p, l) + Total(Machine(p), Credits(p, l.attempt), l, es)
  {
    EngineIsAmortised(p, l.attempt);
    SpentIsPaid(Machine(p), From(l.attempt), Potentials(p), StartsOf(p), Credits(p, l.attempt), l, es);
    var pot := Potentials(p);
    assert pot(Run(Machine(p), l, es)) >= 0;
  }

  // BOUNDED AUTONOMY. Whatever happens to a lane at attempt a, the number of runs started on it is at
  // most 2 * max(1, max_review_cycles + 2 - a), once, and once more per answer (and for a wake already
  // pending); plus one per refused reviewer; plus the runs whose end is ignored because the lane's last
  // report asked a question.
  lemma {:induction false} BoundedAutonomy(p: Policy, l: Lane, es: seq<Event>)
    requires OneRun(l)
    ensures var t := Count(p, l, es);
      t.starts <= Budget(p, l.attempt) * (1 + t.answers + (if l.desk.wake then 1 else 0)) + t.refusals + t.swallowed
  {
    StartsArePaid(p, l, es);
    CreditsAdd(p, l.attempt, l, es);
    Distribute(Budget(p, l.attempt), Count(p, l, es).answers, if l.desk.wake then 1 else 0);
  }

  lemma Distribute(b: nat, n: nat, w: nat)
    ensures b * (1 + n + w) == b + b * n + b * w
  {
  }

  // The bound with nothing to add: no answer, no wake pending, every reviewer admitted, no question.
  lemma {:induction false} BoundedAutonomyUndisturbed(p: Policy, l: Lane, es: seq<Event>)
    requires OneRun(l) && !l.desk.wake
    requires var t := Count(p, l, es); t.answers == 0 && t.refusals == 0 && t.swallowed == 0
    ensures Count(p, l, es).starts <= 2 * Max(1, p.maxReviewCycles + 2 - l.attempt)
  {
    BoundedAutonomy(p, l, es);
  }

  predicate Quiet(l: Lane) {
    l.kind == Implementation && Startable(l) && l.desk == Desk(false, false)
  }

  const START := Schedule(Admitted)
  const COMMIT := Consume(0, Ready(Report(false, true, true)))
  const CYCLE := [START, COMMIT, Consume(0, Failed)]

  // One scheduled run of a startable lane, ending in `end`.
  lemma StartAndEnd(p: Policy, l: Lane, end: RunEnd)
    requires Startable(l)
    ensures var working := l.(state := Active, open := [Own]);
      Run(Machine(p), l, [START, Consume(0, end)]) == AfterConsume(p, working, 0, end) &&
      Count(p, l, [START, Consume(0, end)]) ==
        Tally(1 + Starts(p, working, Consume(0, end)), 0, Refusals(p, working, Consume(0, end)),
              Swallowed(working, Consume(0, end)))
  {
    var working := l.(state := Active, open := [Own]);
    var last := Consume(0, end);
    assert Machine(p)(l, START) == working;
    TwoSteps(Machine(p), StartsOf(p), l, START, working, last);
    TwoSteps(Machine(p), AnswersOf(), l, START, working, last);
    TwoSteps(Machine(p), RefusalsOf(p), l, START, working, last);
    TwoSteps(Machine(p), SwallowedOf(), l, START, working, last);
  }

  lemma EndReview(p: Policy, l: Lane, end: RunEnd)
    requires l.open == [Review] && l.state == Active && !l.desk.awaiting
    ensures Run(Machine(p), l, [Consume(0, end)]) == AfterRun(p, l.(open := []), Review, end)
    ensures Count(p, l, [Consume(0, end)]) == Tally(0, 0, 0, 0)
  {
    var last := Consume(0, end);
    assert Without([Review], 0) == [];
    OneStep(Machine(p), StartsOf(p), l, last);
    OneStep(Machine(p), AnswersOf(), l, last);
    OneStep(Machine(p), RefusalsOf(p), l, last);
    OneStep(Machine(p), SwallowedOf(), l, last);
  }

  // An attempt whose run commits, whose reviewer is admitted, and whose review ends in `end`.
  lemma Reviewed(p: Policy, l: Lane, end: RunEnd)
    requires Quiet(l) && p.requireAdversarial
    ensures var reviewing := l.(state := Active, open := [], work := l.work.(cand := Unreviewed));
      Run(Machine(p), l, [START, COMMIT, Consume(0, end)]) == AfterRun(p, reviewing, Review, end) &&
      Count(p, l, [START, COMMIT, Consume(0, end)]) == Tally(2, 0, 0, 0)
  {
    var last := Consume(0, end);
    assert Without([Own], 0) == [];
    StartAndEnd(p, l, Ready(Report(false, true, true)));
    assert [START, COMMIT] + [last] == [START, COMMIT, last];
    RunConcat(Machine(p), l, [START, COMMIT], [last]);
    FourConcat(Machine(p), StartsOf(p), AnswersOf(), RefusalsOf(p), SwallowedOf(), l, [START, COMMIT], [last]);
    EndReview(p, l.(state := Active, open := [Review], work := l.work.(cand := Unreviewed)), end);
  }

  // The bound is attained, for every policy that reviews and every attempt: each attempt's run commits,
  // its reviewer is admitted and fails.
  lemma {:induction false} BudgetIsAttained(p: Policy, l: Lane) returns (es: seq<Event>)
    requires Quiet(l) && p.requireAdversarial
    ensures Count(p, l, es) == Tally(Budget(p, l.attempt), 0, 0, 0)
    decreases Max(0, p.maxReviewCycles + 1 - l.attempt)
  {
    Reviewed(p, l, Failed);
    es := CYCLE;
    if l.attempt <= p.maxReviewCycles {
      var rest := BudgetIsAttained(p, Run(Machine(p), l, CYCLE));
      RunConcat(Machine(p), l, CYCLE, rest);
      FourConcat(Machine(p), StartsOf(p), AnswersOf(), RefusalsOf(p), SwallowedOf(), l, CYCLE, rest);
      es := CYCLE + rest;
    }
  }

  lemma OneRefusal(p: Policy, l: Lane)
    requires Quiet(l) && p.requireAdversarial
    ensures var first := [START, Consume(0, Ready(Report(false, true, false)))];
      Run(Machine(p), l, first) == l.(state := Active, work := l.work.(cand := Unreviewed)) &&
      Count(p, l, first) == Tally(1, 0, 1, 0)
  {
    StartAndEnd(p, l, Ready(Report(false, true, false)));
    assert Without([Own], 0) == [];
  }

  // Each of the two additions is needed. With every reviewer refused, a lane starts run after run
  // without an answer and without consuming an attempt ...
  lemma {:induction false} RefusedReviewersNeverStop(p: Policy, l: Lane, n: nat) returns (es: seq<Event>)
    requires Quiet(l) && p.requireAdversarial
    ensures Count(p, l, es) == Tally(n, 0, n, 0)
    ensures Run(Machine(p), l, es).attempt == l.attempt && Quiet(Run(Machine(p), l, es))
    decreases n
  {
    es := [];
    if n > 0 {
      var first := [START, Consume(0, Ready(Report(false, true, false)))];
      OneRefusal(p, l);
      var rest := RefusedReviewersNeverStop(p, Run(Machine(p), l, first), n - 1);
      RunConcat(Machine(p), l, first, rest);
      FourConcat(Machine(p), StartsOf(p), AnswersOf(), RefusalsOf(p), SwallowedOf(), l, first, rest);
      es := first + rest;
    }
  }

  // ... and so does a lane that once asked a question and whose later runs fail before reporting: the
  // answered question still marks every one of them as a pause.
  lemma {:induction false} StaleQuestionNeverStops(p: Policy, l: Lane, n: nat) returns (es: seq<Event>)
    requires Startable(l) && l.desk.awaiting
    ensures Count(p, l, es) == Tally(n, 0, 0, n) && Run(Machine(p), l, es).attempt == l.attempt
    ensures Startable(Run(Machine(p), l, es)) && Run(Machine(p), l, es).desk.awaiting
    decreases n
  {
    es := [];
    if n > 0 {
      var first := [START, Consume(0, Failed)];
      StartAndEnd(p, l, Failed);
      assert Without([Own], 0) == [];
      var rest := StaleQuestionNeverStops(p, Run(Machine(p), l, first), n - 1);
      RunConcat(Machine(p), l, first, rest);
      FourConcat(Machine(p), StartsOf(p), AnswersOf(), RefusalsOf(p), SwallowedOf(), l, first, rest);
      es := first + rest;
    }
  }

  // ---- what COMPLETE means -------------------------------------------------------------------------

  // The run this event consumes, if it is advanced at all.
  predicate Advances(l: Lane, e: Event) {
    e.Consume? && e.i < |l.open| && l.state != Abandoned && !l.desk.awaiting
  }

  // An implementation lane becomes complete in exactly two ways: its reviewer reported and nothing
  // survived, its own findings included; or its own run verified clean and there was no commit to
  // review, in which case whatever the last review said stands.
  lemma {:induction false} CompletionIsExact(p: Policy, l: Lane, e: Event)
    requires OneRun(l) && l.kind == Implementation && l.state != Complete
    ensures Step(p, l, e).state == Complete <==>
              (Advances(l, e) && e.end.Ready? && !e.end.report.findings &&
               if l.open[e.i] == Review then !l.work.held else !NeedsReview(p, e.end.report))
    ensures Step(p, l, e).state == Complete ==>
              Step(p, l, e).work.cand == if l.open[e.i] == Review then Passed else l.work.cand
  {
  }

  // A reviewer refused, or a review run processed without its report being read.
  predicate Gap(p: Policy, l: Lane, e: Event) {
    Refusals(p, l, e) > 0 ||
    (e.Consume? && e.i < |l.open| && l.open[e.i] == Review &&
     !(l.state != Abandoned && !l.desk.awaiting && e.end.Ready?))
  }

  // A fix attempt that had nothing to commit.
  predicate EmptyFix(p: Policy, l: Lane, e: Event) {
    Advances(l, e) && l.open[e.i] == Own && e.end.Ready? && !e.end.report.committed && l.work.cand == Flagged
  }

  predicate ReviewInv(l: Lane) {
    OneRun(l) && l.kind == Implementation && (l.work.cand == Unreviewed ==> l.open == [Review])
  }

  function NoGap(p: Policy): (Lane, Event) -> bool { (l, e) => !Gap(p, l, e) }

  lemma StepKeepsReviewInv(p: Policy, l: Lane, e: Event)
    requires ReviewInv(l) && !Gap(p, l, e)
    ensures ReviewInv(Step(p, l, e))
  {
    StepKeepsOneRun(p, l, e);
  }

  // REVIEWED BEFORE COMPLETE. If no reviewer is refused and every review run's report is read, a lane
  // is never complete over a candidate no reviewer looked at.
  lemma ReviewedBeforeComplete(p: Policy, l: Lane, es: seq<Event>)
    requires ReviewInv(l) && Allowed(Machine(p), NoGap(p), l, es)
    ensures Run(Machine(p), l, es).state == Complete ==> Run(Machine(p), l, es).work.cand != Unreviewed
  {
    forall m, e | ReviewInv(m) && NoGap(p)(m, e) ensures ReviewInv(Machine(p)(m, e)) {
      StepKeepsReviewInv(p, m, e);
    }
    InvariantHolds(Machine(p), NoGap(p), ReviewInv, l, es);
  }

  predicate FixInv(l: Lane) {
    ReviewInv(l) && (l.work.cand == Flagged ==> l.state != Complete)
  }

  function NoShortcut(p: Policy): (Lane, Event) -> bool { (l, e) => !Gap(p, l, e) && !EmptyFix(p, l, e) }

  lemma StepKeepsFixInv(p: Policy, l: Lane, e: Event)
    requires FixInv(l) && p.requireAdversarial && !Gap(p, l, e) && !EmptyFix(p, l, e)
    ensures FixInv(Step(p, l, e))
  {
    StepKeepsReviewInv(p, l, e);
    if l.state != Complete { CompletionIsExact(p, l, e); }
  }

  // ... and if moreover every fix attempt commits something, the review it completes under found
  // nothing.
  lemma PassedBeforeComplete(p: Policy, l: Lane, es: seq<Event>)
    requires FixInv(l) && p.requireAdversarial && Allowed(Machine(p), NoShortcut(p), l, es)
    ensures Run(Machine(p), l, es).state == Complete ==>
              Run(Machine(p), l, es).work.cand == NoCandidate || Run(Machine(p), l, es).work.cand == Passed
  {
    forall m, e | FixInv(m) && NoShortcut(p)(m, e) ensures FixInv(Machine(p)(m, e)) {
      StepKeepsFixInv(p, m, e);
    }
    InvariantHolds(Machine(p), NoShortcut(p), FixInv, l, es);
  }

  function NewLane(kind: Kind): Lane {
    Lane(kind, Planned, 0, [], Desk(false, false), Work(false, NoCandidate))
  }

  const SECOND_LOOK := [START, Consume(0, Ready(Report(false, false, false)))]

  lemma SecondLookCompletes(p: Policy, l: Lane, es: seq<Event>)
    requires Quiet(Run(Machine(p), l, es))
    ensures Run(Machine(p), l, es + SECOND_LOOK).state == Complete
    ensures Run(Machine(p), l, es + SECOND_LOOK).work.cand == Run(Machine(p), l, es).work.cand
  {
    RunConcat(Machine(p), l, es, SECOND_LOOK);
    FourConcat(Machine(p), StartsOf(p), AnswersOf(), RefusalsOf(p), SwallowedOf(), l, es, SECOND_LOOK);
    StartAndEnd(p, Run(Machine(p), l, es), Ready(Report(false, false, false)));
  }

  // No hypothesis can go. After one refused reviewer, or one review run that failed, the next own run
  // finds nothing to commit and completes the lane over the unreviewed candidate.
  lemma RefusedReviewIsSkipped(p: Policy) returns (es: seq<Event>)
    requires p.requireAdversarial
    ensures Run(Machine(p), NewLane(Implementation), es).state == Complete
    ensures Run(Machine(p), NewLane(Implementation), es).work.cand == Unreviewed
  {
    var first := [START, Consume(0, Ready(Report(false, true, false)))];
    OneRefusal(p, NewLane(Implementation));
    SecondLookCompletes(p, NewLane(Implementation), first);
    es := first + SECOND_LOOK;
  }

  lemma FailedReviewIsSkipped(p: Policy) returns (es: seq<Event>)
    requires p.requireAdversarial && p.maxReviewCycles >= 0
    ensures Run(Machine(p), NewLane(Implementation), es).state == Complete
    ensures Run(Machine(p), NewLane(Implementation), es).work.cand == Unreviewed
  {
    Reviewed(p, NewLane(Implementation), Failed);
    SecondLookCompletes(p, NewLane(Implementation), CYCLE);
    es := CYCLE + SECOND_LOOK;
  }

  // After a review that found something, a fix attempt that commits nothing completes the lane with
  // every finding outstanding.
  lemma EmptyFixCompletes(p: Policy) returns (es: seq<Event>)
    requires p.requireAdversarial && p.maxReviewCycles >= 1
    ensures Run(Machine(p), NewLane(Implementation), es).state == Complete
    ensures Run(Machine(p), NewLane(Implementation), es).work.cand == Flagged
  {
    var found := Ready(Report(true, false, false));
    Reviewed(p, NewLane(Implementation), found);
    SecondLookCompletes(p, NewLane(Implementation), [START, COMMIT, Consume(0, found)]);
    es := [START, COMMIT, Consume(0, found)] + SECOND_LOOK;
  }
}
