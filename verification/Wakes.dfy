// The race between an answer, a park and the tick that applies pending wakes (core/orchestrator.py:
// answer, apply_pending_wakes; core/worker.py: the park and the checkpoint save), at the grain of single
// reads and writes of one non-terminal lane. A behaviour is any interleaving.
module Wakes {
  import opened Runs

  // The checkpoint key: never written, cleared to the spent sentinel, or naming an answered message.
  datatype Flag = Absent | Spent | Set

  // answer: read the lane's state; then wake a parked lane, or else save the flag.
  datatype Answerer = Asked | SawParked | SawRunning | Woke | Flagged

  // Anyone who reads the whole checkpoint and later saves all of it back: the worker, the scheduler.
  datatype Writer = Unread | Holding(snapshot: Flag) | Saved

  // apply_pending_wakes on this lane: read the state, read the flag, clear it, wake.
  datatype Ticker = Idle | SawWaiting | SawFlag | Cleared

  // wakes: wakes by a tick. parks: park writes still to come.
  datatype Sys = Sys(waiting: bool, flag: Flag, answers: seq<Answerer>, writers: seq<Writer>, tick: Ticker,
                     parks: nat, wakes: nat)

  datatype Action = Answer(i: nat) | Write(i: nat) | Tick | Park

  function AnswerStep(s: Sys, i: nat): Sys
    requires i < |s.answers|
  {
    match s.answers[i]
    case Asked => s.(answers := s.answers[i := if s.waiting then SawParked else SawRunning])
    case SawParked => s.(answers := s.answers[i := Woke], waiting := false)
    case SawRunning => s.(answers := s.answers[i := Flagged], flag := Set)
    case _ => s
  }

  // A save merges: a key the snapshot does not have is left alone.
  function WriteStep(s: Sys, i: nat): Sys
    requires i < |s.writers|
  {
    match s.writers[i]
    case Unread => s.(writers := s.writers[i := Holding(s.flag)])
    case Holding(snap) => s.(writers := s.writers[i := Saved], flag := if snap == Absent then s.flag else snap)
    case Saved => s
  }

  function TickStep(s: Sys): Sys {
    match s.tick
    case Idle => s.(tick := if s.waiting then SawWaiting else Idle)
    case SawWaiting => s.(tick := if s.flag == Set then SawFlag else Idle)
    case SawFlag => s.(tick := Cleared, flag := Spent)
    case Cleared => s.(tick := Idle, waiting := false, wakes := s.wakes + 1)
  }

  function Step(s: Sys, a: Action): Sys {
    match a
    case Answer(i) => if i < |s.answers| then AnswerStep(s, i) else s
    case Write(i) => if i < |s.writers| then WriteStep(s, i) else s
    case Tick => TickStep(s)
    case Park => if s.parks == 0 then s else s.(parks := s.parks - 1, waiting := true)
  }

  function Machine(): (Sys, Action) -> Sys { (s, a) => Step(s, a) }

  function Begin(waiting: bool, flag: Flag, answers: nat, writers: nat, parks: nat): Sys {
    Sys(waiting, flag, seq(answers, _ => Asked), seq(writers, _ => Unread), Idle, parks, 0)
  }

  // Nothing is in progress any more.
  predicate Quiet(s: Sys) {
    s.parks == 0 && s.tick == Idle && (forall x :: x in s.answers ==> x == Woke || x == Flagged) &&
    forall x :: x in s.writers ==> x == Saved
  }

  const ONE_TICK := [Tick, Tick, Tick, Tick]

  // ---- no lost wake-up -----------------------------------------------------------------------------

  // Nothing has spoiled the flag yet: no tick has cleared it and no snapshot holds the sentinel.
  predicate Unspoiled(s: Sys) {
    s.flag != Spent && (forall x :: x in s.writers ==> x != Holding(Spent)) &&
    ((exists x :: x in s.answers && x == Flagged) ==> s.flag == Set) && s.tick != Cleared
  }

  // One park at most: before it no one has seen the lane parked; a lane still parked has been woken by
  // no one, and either its flag is intact or a tick is about to wake it.
  predicate WakeInv(s: Sys) {
    s.parks <= 1 && (s.parks == 1 ==> !s.waiting) &&
    (s.parks == 1 ==> s.tick == Idle && forall x :: x in s.answers ==> x != SawParked && x != Woke) &&
    (s.waiting ==> (forall x :: x in s.answers ==> x != Woke) && (Unspoiled(s) || s.tick == Cleared)) &&
    (s.parks == 1 ==> Unspoiled(s))
  }

  lemma AnswerKeepsWakeInv(s: Sys, i: nat)
    requires WakeInv(s) && i < |s.answers|
    ensures WakeInv(AnswerStep(s, i))
  {
    var t := AnswerStep(s, i);
    assert s.answers[i] in s.answers;
    forall x | x in t.answers ensures x == t.answers[i] || x in s.answers {
      var j :| 0 <= j < |t.answers| && t.answers[j] == x;
      assert j != i ==> t.answers[j] == s.answers[j];
    }
  }

  lemma WriteKeepsWakeInv(s: Sys, i: nat)
    requires WakeInv(s) && i < |s.writers|
    ensures WakeInv(WriteStep(s, i))
  {
    var t := WriteStep(s, i);
    assert s.writers[i] in s.writers;
    forall x | x in t.writers ensures x == t.writers[i] || x in s.writers {
      var j :| 0 <= j < |t.writers| && t.writers[j] == x;
      assert j != i ==> t.writers[j] == s.writers[j];
    }
  }

  lemma StepKeepsWakeInv(s: Sys, a: Action)
    requires WakeInv(s)
    ensures WakeInv(Step(s, a))
  {
    match a
    case Answer(i) => if i < |s.answers| { AnswerKeepsWakeInv(s, i); }
    case Write(i) => if i < |s.writers| { WriteKeepsWakeInv(s, i); }
    case Tick =>
    case Park =>
  }

  lemma {:induction false} SameCrowd(s: Sys, es: seq<Action>)
    ensures |Run(Machine(), s, es).answers| == |s.answers| && |Run(Machine(), s, es).writers| == |s.writers|
    decreases es
  {
    if es != [] { SameCrowd(Step(s, es[0]), es[1..]); }
  }

  lemma TickWakesFlagged(s: Sys)
    requires s.tick == Idle && (s.waiting ==> s.flag == Set)
    ensures !Run(Machine(), s, ONE_TICK).waiting
  {
    var s1 := Step(s, Tick);
    var s2 := Step(s1, Tick);
    var s3 := Step(s2, Tick);
    assert ONE_TICK[1..] == [Tick, Tick, Tick] && ONE_TICK[1..][1..] == [Tick, Tick];
    OneStep(Machine(), (x: Sys, a: Action) => 0, s3, Tick);
    TwoSteps(Machine(), (x: Sys, a: Action) => 0, s2, Tick, s3, Tick);
    assert Run(Machine(), s, ONE_TICK) == Run(Machine(), s1, ONE_TICK[1..]);
    assert Run(Machine(), s1, ONE_TICK[1..]) == Run(Machine(), s2, ONE_TICK[1..][1..]);
  }

  // NO LOST WAKE-UP. A lane that is parked at most once and answered at least once is awake after all
  // is done and one more tick, in every interleaving with ticks and with any number of whole-checkpoint
  // saves: unless the key held the spent sentinel when it all began and there is such a save.
  lemma NoLostWake(waiting: bool, flag: Flag, answers: nat, writers: nat, parks: nat, es: seq<Action>)
    requires answers >= 1 && parks <= 1 && (waiting ==> parks == 0)
    requires flag != Spent || writers == 0
    requires Quiet(Run(Machine(), Begin(waiting, flag, answers, writers, parks), es))
    ensures !Run(Machine(), Begin(waiting, flag, answers, writers, parks), es + ONE_TICK).waiting
  {
    var s := Begin(waiting, flag, answers, writers, parks);
    var t := Run(Machine(), s, es);
    RunConcat(Machine(), s, es, ONE_TICK);
    SameCrowd(s, es);
    if flag != Spent { WakeInvHolds(s, es); } else { SpentInvHolds(s, es); }
    if t.waiting {
      assert t.answers[0] in t.answers;
    }
    TickWakesFlagged(t);
  }

  lemma WakeInvHolds(s: Sys, es: seq<Action>)
    requires WakeInv(s)
    ensures WakeInv(Run(Machine(), s, es))
  {
    var ok := (x: Sys, a: Action) => true;
    forall x, a | WakeInv(x) && ok(x, a) ensures WakeInv(Machine()(x, a)) { StepKeepsWakeInv(x, a); }
    AllAllowed(Machine(), ok, s, es);
    InvariantHolds(Machine(), ok, WakeInv, s, es);
  }

  // Without writers the sentinel is as good as absence.
  predicate SpentInv(s: Sys) {
    s.writers == [] && s.parks <= 1 && (s.parks == 1 ==> !s.waiting) &&
    (s.parks == 1 ==> s.tick == Idle && forall x :: x in s.answers ==> x != SawParked && x != Woke) &&
    (s.waiting ==> (forall x :: x in s.answers ==> x != Woke)) &&
    (s.waiting && s.tick != Cleared ==> FlagStands(s)) && (s.parks == 1 ==> FlagStands(s))
  }

  predicate FlagStands(s: Sys) {
    (exists x :: x in s.answers && x == Flagged) ==> s.flag == Set
  }

  lemma StepKeepsSpentInv(s: Sys, a: Action)
    requires SpentInv(s)
    ensures SpentInv(Step(s, a))
  {
    if a.Answer? && a.i < |s.answers| {
      var t := AnswerStep(s, a.i);
      assert s.answers[a.i] in s.answers;
      forall x | x in t.answers ensures x == t.answers[a.i] || x in s.answers {
        var j :| 0 <= j < |t.answers| && t.answers[j] == x;
        assert j != a.i ==> t.answers[j] == s.answers[j];
      }
    }
  }

  lemma SpentInvHolds(s: Sys, es: seq<Action>)
    requires SpentInv(s)
    ensures SpentInv(Run(Machine(), s, es))
  {
    var ok := (x: Sys, a: Action) => true;
    forall x, a | SpentInv(x) && ok(x, a) ensures SpentInv(Machine()(x, a)) { StepKeepsSpentInv(x, a); }
    AllAllowed(Machine(), ok, s, es);
    InvariantHolds(Machine(), ok, SpentInv, s, es);
  }

  // ---- no wake without an answer -------------------------------------------------------------------

  function FlaggedCount(answers: seq<Answerer>): nat {
    if answers == [] then 0
    else FlaggedCount(answers[..|answers| - 1]) + if answers[|answers| - 1] == Flagged then 1 else 0
  }

  lemma {:induction false} FlagOneMore(answers: seq<Answerer>, i: nat, x: Answerer)
    requires i < |answers|
    ensures FlaggedCount(answers[i := x]) ==
            FlaggedCount(answers) - (if answers[i] == Flagged then 1 else 0) + (if x == Flagged then 1 else 0)
    ensures FlaggedCount(answers) <= |answers|
  {
    var front := answers[..|answers| - 1];
    if i < |front| {
      assert answers[i := x][..|answers| - 1] == front[i := x];
      FlagOneMore(front, i, x);
    } else {
      assert answers[i := x][..|answers| - 1] == front;
      CountBounded(front);
    }
  }

  lemma {:induction false} CountBounded(answers: seq<Answerer>)
    ensures FlaggedCount(answers) <= |answers|
  {
    if answers != [] { CountBounded(answers[..|answers| - 1]); }
  }

  // Wakes made, one being made, and one still promised by the flag, against flags saved.
  predicate PaidInv(initial: nat, s: Sys) {
    s.writers == [] && (s.tick == SawFlag ==> s.flag == Set) &&
    s.wakes + (if s.tick == Cleared then 1 else 0) + (if s.flag == Set then 1 else 0)
      <= FlaggedCount(s.answers) + initial
  }

  lemma StepKeepsPaidInv(initial: nat, s: Sys, a: Action)
    requires PaidInv(initial, s)
    ensures PaidInv(initial, Step(s, a))
  {
    if a.Answer? && a.i < |s.answers| {
      FlagOneMore(s.answers, a.i, AnswerStep(s, a.i).answers[a.i]);
    }
  }

  function Paid(initial: nat): Sys -> bool { s => PaidInv(initial, s) }

  lemma {:induction false} NoneFlagged(n: nat)
    ensures FlaggedCount(seq(n, _ => Asked)) == 0
  {
    if n > 0 {
      assert seq(n, _ => Asked)[..n - 1] == seq(n - 1, _ => Asked);
      NoneFlagged(n - 1);
    }
  }

  // However many parks there are, ticks wake the lane at most once per answer (once more if the flag
  // was already set), provided nobody saves back a whole checkpoint meanwhile.
  lemma WakesArePaidFor(waiting: bool, flag: Flag, answers: nat, parks: nat, es: seq<Action>)
    ensures Run(Machine(), Begin(waiting, flag, answers, 0, parks), es).wakes <= answers + if flag == Set then 1 else 0
  {
    var s := Begin(waiting, flag, answers, 0, parks);
    var initial := if flag == Set then 1 else 0;
    var ok := (x: Sys, a: Action) => true;
    NoneFlagged(answers);
    assert PaidInv(initial, s);
    forall x, a | Paid(initial)(x) && ok(x, a) ensures Paid(initial)(Machine()(x, a)) {
      StepKeepsPaidInv(initial, x, a);
    }
    AllAllowed(Machine(), ok, s, es);
    InvariantHolds(Machine(), ok, Paid(initial), s, es);
    SameCrowd(s, es);
    CountBounded(Run(Machine(), s, es).answers);
  }

  // ---- each condition is needed --------------------------------------------------------------------

  // States of three short races, event by event.
  lemma Chain(s0: Sys, s1: Sys, s2: Sys, a: Action, b: Action, es: seq<Action>)
    requires Step(s0, a) == s1 && Step(s1, b) == s2
    ensures Run(Machine(), s0, [a, b] + es) == Run(Machine(), s2, es)
  {
    RunConcat(Machine(), s0, [a, b], es);
    TwoSteps(Machine(), (x: Sys, y: Action) => 0, s0, a, s1, b);
  }

  // From answer k on, each finds the lane running and saves the flag.
  lemma {:induction false} AnswersFlag(s: Sys, k: nat) returns (es: seq<Action>)
    requires k < |s.answers| && !s.waiting && forall i :: k <= i < |s.answers| ==> s.answers[i] == Asked
    ensures Run(Machine(), s, es) ==
            s.(answers := s.answers[..k] + seq(|s.answers| - k, _ => Flagged), flag := Set)
    decreases |s.answers| - k
  {
    var s1 := s.(answers := s.answers[k := SawRunning]);
    var s2 := s.(answers := s.answers[k := Flagged], flag := Set);
    assert s1.answers[k := Flagged] == s2.answers;
    es := [];
    if k + 1 < |s.answers| { es := AnswersFlag(s2, k + 1); }
    Chain(s, s1, s2, Answer(k), Answer(k), es);
    es := [Answer(k), Answer(k)] + es;
    var n := |s.answers|;
    assert s2.answers[..k + 1] + seq(n - (k + 1), _ => Flagged) == s.answers[..k] + seq(n - k, _ => Flagged);
    assert k + 1 == n ==> s2.answers == s.answers[..k] + seq(n - k, _ => Flagged);
  }

  // From writer k on, each saves back what it just read.
  lemma {:induction false} WritersSave(s: Sys, k: nat) returns (es: seq<Action>)
    requires k <= |s.writers| && forall i :: k <= i < |s.writers| ==> s.writers[i] == Unread
    ensures Run(Machine(), s, es) == s.(writers := s.writers[..k] + seq(|s.writers| - k, _ => Saved))
    decreases |s.writers| - k
  {
    es := [];
    if k == |s.writers| {
      assert s.writers[..k] + seq(0, _ => Saved) == s.writers;
    } else {
      var s1 := s.(writers := s.writers[k := Holding(s.flag)]);
      var s2 := s.(writers := s.writers[k := Saved]);
      assert s1.writers[k := Saved] == s2.writers;
      es := WritersSave(s2, k + 1);
      Chain(s, s1, s2, Write(k), Write(k), es);
      es := [Write(k), Write(k)] + es;
      var n := |s.writers|;
      assert s2.writers[..k + 1] + seq(n - (k + 1), _ => Saved) == s.writers[..k] + seq(n - k, _ => Saved);
    }
  }

  // From answer k on, each finds the lane parked.
  lemma {:induction false} AnswersSee(s: Sys, k: nat) returns (es: seq<Action>)
    requires k <= |s.answers| && s.waiting && forall i :: k <= i < |s.answers| ==> s.answers[i] == Asked
    ensures Run(Machine(), s, es) == s.(answers := s.answers[..k] + seq(|s.answers| - k, _ => SawParked))
    decreases |s.answers| - k
  {
    es := [];
    if k == |s.answers| {
      assert s.answers[..k] + seq(0, _ => SawParked) == s.answers;
    } else {
      var s1 := s.(answers := s.answers[k := SawParked]);
      es := AnswersSee(s1, k + 1);
      First(s, s1, Answer(k), es);
      es := [Answer(k)] + es;
      var n := |s.answers|;
      assert s1.answers[..k + 1] + seq(n - (k + 1), _ => SawParked) == s.answers[..k] + seq(n - k, _ => SawParked);
    }
  }

  // From answer k on, each wakes the lane it found parked.
  lemma {:induction false} AnswersWake(s: Sys, k: nat) returns (es: seq<Action>)
    requires k <= |s.answers| && forall i :: k <= i < |s.answers| ==> s.answers[i] == SawParked
    ensures Run(Machine(), s, es) ==
            s.(answers := s.answers[..k] + seq(|s.answers| - k, _ => Woke), waiting := s.waiting && k == |s.answers|)
    decreases |s.answers| - k
  {
    es := [];
    if k == |s.answers| {
      assert s.answers[..k] + seq(0, _ => Woke) == s.answers;
    } else {
      var s1 := s.(answers := s.answers[k := Woke], waiting := false);
      es := AnswersWake(s1, k + 1);
      First(s, s1, Answer(k), es);
      es := [Answer(k)] + es;
      var n := |s.answers|;
      assert s1.answers[..k + 1] + seq(n - (k + 1), _ => Woke) == s.answers[..k] + seq(n - k, _ => Woke);
    }
  }

  lemma {:induction false} ParkAll(s: Sys) returns (es: seq<Action>)
    requires s.parks >= 1
    ensures Run(Machine(), s, es) == s.(parks := 0, waiting := true)
    decreases s.parks
  {
    var s1 := s.(parks := s.parks - 1, waiting := true);
    es := [];
    if s1.parks > 0 { es := ParkAll(s1); }
    First(s, s1, Park, es);
    es := [Park] + es;
  }

  lemma First(s: Sys, s1: Sys, a: Action, es: seq<Action>)
    requires Step(s, a) == s1
    ensures Run(Machine(), s, [a] + es) == Run(Machine(), s1, es)
  {
    assert ([a] + es)[1..] == es;
  }

  // A save of a snapshot taken while the sentinel stood erases the flag, and the wake is lost: however
  // many answers and savers there are.
  lemma {:induction false} StaleSaveLosesWake(answers: nat, writers: nat) returns (es: seq<Action>)
    requires answers >= 1 && writers >= 1
    ensures var end := Run(Machine(), Begin(false, Spent, answers, writers, 1), es);
      Quiet(end) && end.waiting && Run(Machine(), end, ONE_TICK) == end
  {
    var s := Begin(false, Spent, answers, writers, 1);
    var s1 := s.(writers := s.writers[0 := Holding(Spent)]);
    var ws := WritersSave(s1, 1);
    var s2 := Run(Machine(), s1, ws);
    var ans := AnswersFlag(s2, 0);
    var s3 := Run(Machine(), s2, ans);
    var s4 := s3.(writers := s3.writers[0 := Saved], flag := Spent);
    var s5 := s4.(waiting := true, parks := 0);
    OneStep(Machine(), (x: Sys, y: Action) => 0, s, Write(0));
    RunConcat(Machine(), s, [Write(0)], ws);
    RunConcat(Machine(), s, [Write(0)] + ws, ans);
    RunConcat(Machine(), s, [Write(0)] + ws + ans, [Write(0), Park] + []);
    Chain(s3, s4, s5, Write(0), Park, []);
    es := [Write(0)] + ws + ans + ([Write(0), Park] + []);
    StillParked(s5);
  }

  lemma StillParked(s: Sys)
    requires s.tick == Idle && s.waiting && s.flag != Set
    ensures Run(Machine(), s, ONE_TICK) == s
  {
    assert ONE_TICK == [Tick, Tick] + ([Tick, Tick] + []);
    Chain(s, s.(tick := SawWaiting), s, Tick, Tick, [Tick, Tick] + []);
    Chain(s, s.(tick := SawWaiting), s, Tick, Tick, []);
  }

  // A lane parked now and again later: answers that all find it parked now are spent on that, and the last
  // park finds every question already answered and nothing left to wake it.
  lemma {:induction false} ParkedAgainLosesWake(s: Sys) returns (es: seq<Action>)
    requires s.waiting && s.tick == Idle && s.parks >= 1 && s.answers != [] && s.writers == seq(|s.writers|, _ => Saved)
    requires s.answers == seq(|s.answers|, _ => Asked)
    ensures var end := Run(Machine(), s, es);
      Quiet(end) && end.waiting && Run(Machine(), end, ONE_TICK) == end
  {
    var sees := AnswersSee(s, 0);
    var s1 := s.(answers := seq(|s.answers|, _ => SawParked));
    assert s1 == Run(Machine(), s, sees);
    var tick := TickOff(s1);
    var s2 := Run(Machine(), s1, tick);
    var wakes := AnswersWake(s2, 0);
    var s3 := s2.(answers := seq(|s.answers|, _ => Woke), waiting := false);
    assert s3 == Run(Machine(), s2, wakes);
    var last := ParkAll(s3);
    es := sees + (tick + (wakes + last));
    RunConcat(Machine(), s, sees, tick + (wakes + last));
    RunConcat(Machine(), s1, tick, wakes + last);
    RunConcat(Machine(), s2, wakes, last);
    StillParked(s3.(parks := 0, waiting := true));
  }

  lemma {:induction false} SecondParkLosesWake(waiting: bool, flag: Flag, answers: nat, writers: nat, parks: nat)
    returns (es: seq<Action>)
    requires answers >= 1 && parks >= 1 && (!waiting ==> parks >= 2)
    ensures var end := Run(Machine(), Begin(waiting, flag, answers, writers, parks), es);
      Quiet(end) && end.waiting && Run(Machine(), end, ONE_TICK) == end
  {
    var s := Begin(waiting, flag, answers, writers, parks);
    var saves := WritersSave(s, 0);
    var s1 := s.(writers := seq(writers, _ => Saved));
    assert s1 == Run(Machine(), s, saves);
    if waiting {
      var rest := ParkedAgainLosesWake(s1);
      es := saves + rest;
      RunConcat(Machine(), s, saves, rest);
    } else {
      var s2 := s1.(waiting := true, parks := parks - 1);
      var rest := ParkedAgainLosesWake(s2);
      es := saves + ([Park] + rest);
      RunConcat(Machine(), s, saves, [Park] + rest);
      First(s1, s2, Park, rest);
    }
  }

  // A tick, if the flag gives it anything to do.
  lemma TickOff(s: Sys) returns (es: seq<Action>)
    requires s.tick == Idle && s.waiting
    ensures var t := Run(Machine(), s, es);
      t.flag != Set && t == s.(flag := t.flag, waiting := t.waiting, wakes := t.wakes)
  {
    es := [];
    if s.flag == Set {
      es := [Tick, Tick] + ([Tick, Tick] + []);
      FullTick(s, []);
    }
  }

  ghost predicate Wakened(s: Sys, es: seq<Action>) {
    Quiet(Run(Machine(), s, es)) ==> !Run(Machine(), s, es + ONE_TICK).waiting
  }

  // WHEN NO WAKE IS LOST. Of a lane's answers, no schedule loses the wake exactly when the lane is never parked
  // again, or runs at the outset, is parked once, and either the sentinel does not stand at the outset or
  // nobody saves whole checkpoints.
  lemma {:induction false} NoLostWakeExactly(waiting: bool, flag: Flag, answers: nat, writers: nat, parks: nat)
    requires answers >= 1
    ensures (forall es :: Wakened(Begin(waiting, flag, answers, writers, parks), es)) <==>
            (parks == 0 || (!waiting && parks == 1 && (flag != Spent || writers == 0)))
  {
    var s := Begin(waiting, flag, answers, writers, parks);
    if parks == 0 {
      forall es ensures Wakened(s, es) {
        if Quiet(Run(Machine(), s, es)) {
          StaysAwake(s, es);
          SameCrowd(s, es);
          assert Run(Machine(), s, es).answers[0] in Run(Machine(), s, es).answers;
          RunConcat(Machine(), s, es, ONE_TICK);
          StaysAwake(Run(Machine(), s, es), ONE_TICK);
        }
      }
    } else if !waiting && parks == 1 && (flag != Spent || writers == 0) {
      forall es ensures Wakened(s, es) {
        if Quiet(Run(Machine(), s, es)) { NoLostWake(false, flag, answers, writers, 1, es); }
      }
    } else {
      var es;
      if !waiting && parks == 1 { es := StaleSaveLosesWake(answers, writers); }
      else { es := SecondParkLosesWake(waiting, flag, answers, writers, parks); }
      RunConcat(Machine(), s, es, ONE_TICK);
      assert !Wakened(s, es);
    }
  }

  // With no park to come, an answer that is done has found the lane awake or woken it.
  predicate AwakeInv(s: Sys) {
    s.parks == 0 && (s.waiting ==> forall x :: x in s.answers ==> x == Asked || x == SawParked)
  }

  lemma StepKeepsAwake(s: Sys, a: Action)
    requires AwakeInv(s)
    ensures AwakeInv(Step(s, a)) && (!s.waiting ==> !Step(s, a).waiting)
  {
    if a.Answer? && a.i < |s.answers| && Step(s, a).waiting {
      var t := AnswerStep(s, a.i);
      assert s.answers[a.i] in s.answers;
      forall x | x in t.answers ensures x == Asked || x == SawParked {
        var j :| 0 <= j < |t.answers| && t.answers[j] == x;
        if j != a.i { assert s.answers[j] == x && x in s.answers; }
      }
    }
  }

  lemma {:induction false} StaysAwake(s: Sys, es: seq<Action>)
    requires AwakeInv(s)
    ensures AwakeInv(Run(Machine(), s, es)) && (!s.waiting ==> !Run(Machine(), s, es).waiting)
    decreases es
  {
    if es != [] {
      StepKeepsAwake(s, es[0]);
      StaysAwake(Step(s, es[0]), es[1..]);
    }
  }

  lemma FullTick(s: Sys, es: seq<Action>)
    requires s.tick == Idle && s.waiting && s.flag == Set
    ensures Run(Machine(), s, [Tick, Tick] + ([Tick, Tick] + es)) ==
            Run(Machine(), s.(flag := Spent, waiting := false, wakes := s.wakes + 1), es)
  {
    var woken := s.(flag := Spent, waiting := false, wakes := s.wakes + 1);
    Chain(s, s.(tick := SawWaiting), s.(tick := SawFlag), Tick, Tick, [Tick, Tick] + es);
    Chain(s.(tick := SawFlag), s.(tick := Cleared, flag := Spent), woken, Tick, Tick, es);
  }

  // A park, and the tick after it.
  const PARK_TICK := [Park, Tick, Tick, Tick, Tick]

  lemma ParkIsWoken(s: Sys)
    requires s.tick == Idle && s.flag == Set && s.parks >= 1
    ensures Run(Machine(), s, PARK_TICK) ==
            s.(flag := Spent, waiting := false, parks := s.parks - 1, wakes := s.wakes + 1)
  {
    var parked := s.(waiting := true, parks := s.parks - 1);
    First(s, parked, Park, [Tick, Tick] + ([Tick, Tick] + []));
    FullTick(parked, []);
    assert PARK_TICK == [Park] + ([Tick, Tick] + ([Tick, Tick] + []));
  }

  // A park that finds the flag set.
  lemma ParkAndWake(s: Sys, park: seq<Action>, es: seq<Action>)
    requires s.tick == Idle && s.flag == Set && s.parks >= 1 && park == PARK_TICK
    ensures Run(Machine(), s, park + es) ==
            Run(Machine(), s.(flag := Spent, waiting := false, parks := s.parks - 1, wakes := s.wakes + 1), es)
  {
    ParkIsWoken(s);
    RunConcat(Machine(), s, park, es);
  }

  // From answer k on, each saves its flag and the next park is woken by a tick.
  lemma {:induction false} OneWakeEach(s: Sys, k: nat) returns (es: seq<Action>)
    requires k <= |s.answers| && !s.waiting && s.tick == Idle && s.parks >= |s.answers| - k
    requires forall i :: k <= i < |s.answers| ==> s.answers[i] == Asked
    ensures Run(Machine(), s, es).wakes == s.wakes + (|s.answers| - k)
    decreases |s.answers| - k
  {
    es := [];
    if k < |s.answers| {
      var s1 := s.(answers := s.answers[k := SawRunning]);
      var s2 := s.(answers := s.answers[k := Flagged], flag := Set);
      assert s1.answers[k := Flagged] == s2.answers;
      var s3 := s2.(flag := Spent, waiting := false, parks := s.parks - 1, wakes := s.wakes + 1);
      es := OneWakeEach(s3, k + 1);
      ParkAndWake(s2, PARK_TICK, es);
      Chain(s, s1, s2, Answer(k), Answer(k), PARK_TICK + es);
      es := [Answer(k), Answer(k)] + (PARK_TICK + es);
    }
  }

  // A flag set at the outset pays for one wake more than there are answers ...
  lemma {:induction false} StandingFlagWakesOnceMore(answers: nat, writers: nat, parks: nat) returns (es: seq<Action>)
    requires parks > answers
    ensures Run(Machine(), Begin(false, Set, answers, writers, parks), es).wakes == answers + 1
  {
    var s := Begin(false, Set, answers, writers, parks);
    es := OneWakeEach(s.(flag := Spent, parks := parks - 1, wakes := 1), 0);
    ParkAndWake(s, PARK_TICK, es);
    es := PARK_TICK + es;
  }

  // A snapshot of the set flag, saved between two parks: woken twice.
  lemma ReplayedFlag(s: Sys, park: seq<Action>, es: seq<Action>)
    requires s.tick == Idle && s.flag == Set && s.parks >= 2 && s.writers != [] && s.writers[0] == Holding(Set)
    requires park == PARK_TICK
    ensures Run(Machine(), s, park + ([Write(0)] + (park + es))) ==
            Run(Machine(), s.(flag := Spent, waiting := false, parks := s.parks - 2, wakes := s.wakes + 2,
                              writers := s.writers[0 := Saved]), es)
  {
    var woken := s.(flag := Spent, waiting := false, parks := s.parks - 1, wakes := s.wakes + 1);
    var saved := woken.(writers := s.writers[0 := Saved], flag := Set);
    ParkAndWake(s, park, [Write(0)] + (park + es));
    First(woken, saved, Write(0), park + es);
    ParkAndWake(saved, park, es);
  }

  // ... and a whole-checkpoint save can bring a spent flag back.
  lemma {:induction false} StaleSaveRepeatsWake(flag: Flag, answers: nat, writers: nat, parks: nat)
    returns (es: seq<Action>)
    requires answers >= 1 && writers >= 1 && parks > answers
    ensures Run(Machine(), Begin(false, flag, answers, writers, parks), es).wakes == answers + 1
  {
    var s := Begin(false, flag, answers, writers, parks);
    var asked := s.(answers := s.answers[0 := SawRunning]);
    var flagged := s.(answers := s.answers[0 := Flagged], flag := Set);
    assert asked.answers[0 := Flagged] == flagged.answers;
    var held := flagged.(writers := s.writers[0 := Holding(Set)]);
    var again := flagged.(flag := Spent, parks := parks - 2, wakes := 2, writers := s.writers[0 := Saved]);
    assert held.writers[0 := Saved] == again.writers;
    var rest := OneWakeEach(again, 1);
    var replay := PARK_TICK + ([Write(0)] + (PARK_TICK + rest));
    ReplayedFlag(held, PARK_TICK, rest);
    First(flagged, held, Write(0), replay);
    Chain(s, asked, flagged, Answer(0), Answer(0), [Write(0)] + replay);
    es := [Answer(0), Answer(0)] + ([Write(0)] + replay);
  }

  // Wakes made, and one perhaps to come for a lane that is or was seen parked, against parks made.
  predicate ParkedInv(parks: nat, s: Sys) {
    s.parks <= parks && s.wakes + (if s.waiting || s.tick != Idle then 1 else 0) <= parks - s.parks
  }

  // Nobody has an answer to flag.
  predicate UnflaggedInv(s: Sys) {
    s.answers == [] && s.flag != Set && (forall x :: x in s.writers ==> x != Holding(Set)) &&
    (s.tick == Idle || s.tick == SawWaiting) && s.wakes == 0
  }

  lemma StepKeepsUnflaggedInv(s: Sys, a: Action)
    requires UnflaggedInv(s)
    ensures UnflaggedInv(Step(s, a))
  {
    if a.Write? && a.i < |s.writers| {
      var t := WriteStep(s, a.i);
      assert s.writers[a.i] in s.writers;
      forall x | x in t.writers ensures x != Holding(Set) {
        var j :| 0 <= j < |t.writers| && t.writers[j] == x;
        if j == a.i { assert x == t.writers[a.i]; } else { assert s.writers[j] == x && x in s.writers; }
      }
    }
  }

  lemma {:induction false} WakesAtMostParks(parks: nat, s: Sys, es: seq<Action>)
    requires ParkedInv(parks, s)
    ensures Run(Machine(), s, es).wakes <= parks
    decreases es
  {
    if es != [] { WakesAtMostParks(parks, Step(s, es[0]), es[1..]); }
  }

  lemma {:induction false} NoAnswerNoWake(s: Sys, es: seq<Action>)
    requires UnflaggedInv(s)
    ensures Run(Machine(), s, es).wakes == 0
    decreases es
  {
    if es != [] {
      StepKeepsUnflaggedInv(s, es[0]);
      NoAnswerNoWake(Step(s, es[0]), es[1..]);
    }
  }

  ghost predicate WakesPaid(s: Sys, answers: nat, es: seq<Action>) {
    Run(Machine(), s, es).wakes <= answers
  }

  // WHEN WAKES ARE PAID FOR. Ticks wake a running lane at most once per answer, in every schedule, exactly
  // when it is parked no more often than answered, or no flag stands at the outset and either nobody
  // answers or nobody saves whole checkpoints.
  lemma {:induction false} WakesArePaidExactly(flag: Flag, answers: nat, writers: nat, parks: nat)
    ensures (forall es :: WakesPaid(Begin(false, flag, answers, writers, parks), answers, es)) <==>
            (parks <= answers || (flag != Set && (answers == 0 || writers == 0)))
  {
    var s := Begin(false, flag, answers, writers, parks);
    if parks <= answers {
      forall es ensures WakesPaid(s, answers, es) { WakesAtMostParks(parks, s, es); }
    } else if flag != Set && writers == 0 {
      forall es ensures WakesPaid(s, answers, es) { WakesArePaidFor(false, flag, answers, parks, es); }
    } else if flag != Set && answers == 0 {
      forall es ensures WakesPaid(s, answers, es) { NoAnswerNoWake(s, es); }
    } else {
      var es;
      if flag == Set { es := StandingFlagWakesOnceMore(answers, writers, parks); }
      else { es := StaleSaveRepeatsWake(flag, answers, writers, parks); }
      assert !WakesPaid(s, answers, es);
    }
  }
}
