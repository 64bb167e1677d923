// What COMPLETE means for an implementation lane, over every history of LaneEngine from a new lane: exactly
// when it covers a candidate nobody reviewed, and exactly when it covers one a review found fault with.
module Completion {
  import opened Programs
  import opened Runs
  import opened LaneEngine

  // The lane before the k-th event.
  function Before(p: Policy, es: seq<Event>, k: nat): Lane
    requires k <= |es|
  {
    Run(Machine(p), NewLane(Implementation), es[..k])
  }

  // ---- one event -----------------------------------------------------------------------------------

  // A review run whose report is read.
  predicate ReadsReview(l: Lane, e: Event) {
    Advances(l, e) && l.open[e.i] == Review && e.end.Ready?
  }

  // This event is the last word on the candidate so far: a new commit, not reviewed; or a review of it.
  predicate Speaks(p: Policy, l: Lane, e: Event, c: Candidate) {
    (AsksReviewer(p, l, e) && c == Unreviewed) ||
    (ReadsReview(l, e) && c == if e.end.report.findings || l.work.held then Flagged else Passed)
  }

  predicate Silent(p: Policy, l: Lane, e: Event) {
    !AsksReviewer(p, l, e) && !ReadsReview(l, e)
  }

  // The lane's own run is accepted with nothing to review.
  predicate OwnRunCompletes(p: Policy, l: Lane, e: Event) {
    Advances(l, e) && l.open[e.i] == Own && e.end.Ready? && !e.end.report.findings && !NeedsReview(p, e.end.report)
  }

  predicate Lives(l: Lane) {
    OneRun(l) && l.kind == Implementation
  }

  lemma EventSpeaks(p: Policy, l: Lane, e: Event, c: Candidate)
    requires Lives(l) && c != NoCandidate
    ensures Lives(Step(p, l, e))
    ensures Step(p, l, e).work.cand == c <==> (Speaks(p, l, e, c) || (Silent(p, l, e) && l.work.cand == c))
  {
    StepKeepsOneRun(p, l, e);
  }

  lemma CompleteStays(p: Policy, l: Lane, e: Event)
    requires Lives(l) && l.state == Complete
    ensures Step(p, l, e) == l
  {
  }

  lemma OwnRunCompletesIt(p: Policy, l: Lane, e: Event)
    requires Lives(l) && OwnRunCompletes(p, l, e)
    ensures l.state != Complete && Step(p, l, e).state == Complete && Step(p, l, e).work.cand == l.work.cand
  {
    CompletionIsExact(p, l, e);
  }

  lemma CompletesByOwnRun(p: Policy, l: Lane, e: Event)
    requires Lives(l) && l.state != Complete && Step(p, l, e).state == Complete && Step(p, l, e).work.cand != Passed
    ensures OwnRunCompletes(p, l, e) && Step(p, l, e).work.cand == l.work.cand
  {
    CompletionIsExact(p, l, e);
  }

  // ---- over a history ------------------------------------------------------------------------------

  lemma NextBefore(p: Policy, es: seq<Event>, k: nat)
    requires k < |es|
    ensures Before(p, es, k + 1) == Step(p, Before(p, es, k), es[k])
  {
    assert es[..k + 1] == es[..k] + [es[k]];
    Snoc(Machine(p), StartsOf(p), NoGap(p), NewLane(Implementation), es[..k], es[k]);
  }

  lemma {:induction false} AlwaysLives(p: Policy, es: seq<Event>, k: nat)
    requires k <= |es|
    ensures Lives(Before(p, es, k))
  {
    if k > 0 {
      AlwaysLives(p, es, k - 1);
      NextBefore(p, es, k - 1);
      EventSpeaks(p, Before(p, es, k - 1), es[k - 1], Passed);
    }
  }

  predicate SpeaksAt(p: Policy, es: seq<Event>, c: Candidate, k: nat)
    requires k < |es|
  {
    Speaks(p, Before(p, es, k), es[k], c)
  }

  predicate SilentAt(p: Policy, es: seq<Event>, k: nat)
    requires k < |es|
  {
    Silent(p, Before(p, es, k), es[k])
  }

  // The k-th event said c of the candidate, and nothing has been said since, up to the n-th.
  ghost predicate LastWord(p: Policy, es: seq<Event>, c: Candidate, k: nat, n: nat) {
    k < n <= |es| && SpeaksAt(p, es, c, k) && forall j :: k < j < n ==> SilentAt(p, es, j)
  }

  ghost predicate HasLastWord(p: Policy, es: seq<Event>, c: Candidate, n: nat) {
    exists k :: LastWord(p, es, c, k, n)
  }

  lemma {:induction false} WordMoves(p: Policy, es: seq<Event>, c: Candidate, n: nat)
    requires n < |es|
    ensures HasLastWord(p, es, c, n + 1) <==>
            (SpeaksAt(p, es, c, n) || (SilentAt(p, es, n) && HasLastWord(p, es, c, n)))
  {
    if HasLastWord(p, es, c, n + 1) && !SpeaksAt(p, es, c, n) {
      var k :| LastWord(p, es, c, k, n + 1);
      assert LastWord(p, es, c, k, n);
    }
    if SpeaksAt(p, es, c, n) {
      assert LastWord(p, es, c, n, n + 1);
    } else if SilentAt(p, es, n) && HasLastWord(p, es, c, n) {
      var k :| LastWord(p, es, c, k, n);
      assert LastWord(p, es, c, k, n + 1);
    }
  }

  lemma CandidateMoves(p: Policy, es: seq<Event>, c: Candidate, n: nat)
    requires n < |es| && c != NoCandidate
    ensures Before(p, es, n + 1).work.cand == c <==>
            (SpeaksAt(p, es, c, n) || (SilentAt(p, es, n) && Before(p, es, n).work.cand == c))
  {
    AlwaysLives(p, es, n);
    NextBefore(p, es, n);
    EventSpeaks(p, Before(p, es, n), es[n], c);
  }

  lemma {:induction false} CandidateIsLastWord(p: Policy, es: seq<Event>, c: Candidate, n: nat)
    requires n <= |es| && c != NoCandidate
    ensures Before(p, es, n).work.cand == c <==> HasLastWord(p, es, c, n)
  {
    if n > 0 {
      CandidateIsLastWord(p, es, c, n - 1);
      WordMoves(p, es, c, n - 1);
      CandidateMoves(p, es, c, n - 1);
    }
  }

  // Once complete, a lane stays as it is.
  lemma {:induction false} CompleteForGood(p: Policy, es: seq<Event>, m: nat, n: nat)
    requires m <= n <= |es| && Before(p, es, m).state == Complete
    ensures Before(p, es, n) == Before(p, es, m)
    decreases n
  {
    if m < n {
      CompleteForGood(p, es, m, n - 1);
      AlwaysLives(p, es, n - 1);
      NextBefore(p, es, n - 1);
      CompleteStays(p, Before(p, es, n - 1), es[n - 1]);
    }
  }

  lemma {:induction false} WhenCompleted(p: Policy, es: seq<Event>, n: nat) returns (m: nat)
    requires n <= |es| && Before(p, es, n).state == Complete
    ensures m < n && Before(p, es, m).state != Complete && Before(p, es, m + 1).state == Complete
    decreases n
  {
    if n == 0 {
      assert false;
    } else if Before(p, es, n - 1).state != Complete {
      m := n - 1;
    } else {
      m := WhenCompleted(p, es, n - 1);
    }
  }

  // c is the last word on the candidate when the lane's own run completes it.
  ghost predicate CompletedOver(p: Policy, es: seq<Event>, c: Candidate, k: nat, m: nat) {
    m < |es| && LastWord(p, es, c, k, m) && OwnRunCompletes(p, Before(p, es, m), es[m])
  }

  lemma CompletedOverIt(p: Policy, es: seq<Event>, c: Candidate, k: nat, m: nat)
    requires c != NoCandidate && CompletedOver(p, es, c, k, m)
    ensures Before(p, es, |es|).state == Complete && Before(p, es, |es|).work.cand == c
  {
    assert HasLastWord(p, es, c, m);
    CandidateIsLastWord(p, es, c, m);
    AlwaysLives(p, es, m);
    NextBefore(p, es, m);
    OwnRunCompletesIt(p, Before(p, es, m), es[m]);
    CompleteForGood(p, es, m + 1, |es|);
  }

  lemma WhatCompletedIt(p: Policy, es: seq<Event>, c: Candidate) returns (k: nat, m: nat)
    requires c == Unreviewed || c == Flagged
    requires Before(p, es, |es|).state == Complete && Before(p, es, |es|).work.cand == c
    ensures CompletedOver(p, es, c, k, m)
  {
    m := WhenCompleted(p, es, |es|);
    CompleteForGood(p, es, m + 1, |es|);
    AlwaysLives(p, es, m);
    NextBefore(p, es, m);
    CompletesByOwnRun(p, Before(p, es, m), es[m]);
    CandidateIsLastWord(p, es, c, m);
    k :| LastWord(p, es, c, k, m);
  }

  lemma {:induction false} CompletesOver(p: Policy, es: seq<Event>, c: Candidate)
    requires c == Unreviewed || c == Flagged
    ensures var l := Before(p, es, |es|);
      (l.state == Complete && l.work.cand == c) <==> exists k, m :: CompletedOver(p, es, c, k, m)
  {
    var l := Before(p, es, |es|);
    if l.state == Complete && l.work.cand == c {
      var k, m := WhatCompletedIt(p, es, c);
    }
    forall k: nat, m: nat | CompletedOver(p, es, c, k, m) ensures l.state == Complete && l.work.cand == c {
      CompletedOverIt(p, es, c, k, m);
    }
  }

  // ---- unreviewed ----------------------------------------------------------------------------------

  ghost predicate GapAt(p: Policy, es: seq<Event>, g: nat)
    requires g < |es|
  {
    Gap(p, Before(p, es, g), es[g])
  }

  // After a commit, or while its review is outstanding, an event is a gap or leaves the review outstanding.
  lemma GapOrOutstanding(p: Policy, l: Lane, e: Event)
    requires Lives(l) && (AsksReviewer(p, l, e) || ReviewInv(l))
    ensures Gap(p, l, e) || ReviewInv(Step(p, l, e))
  {
    assert Without([Own], 0) == [];
    if ReviewInv(l) && !Gap(p, l, e) { StepKeepsReviewInv(p, l, e); }
  }

  // From a commit on, a gap occurs or its review is still outstanding.
  lemma {:induction false} GapOrReview(p: Policy, es: seq<Event>, k: nat, n: nat) returns (found: bool, g: nat)
    requires k < n <= |es| && AsksReviewer(p, Before(p, es, k), es[k])
    ensures if found then k <= g < n && GapAt(p, es, g) else ReviewInv(Before(p, es, n))
    decreases n
  {
    found, g := false, n - 1;
    if n - 1 > k { found, g := GapOrReview(p, es, k, n - 1); }
    if !found {
      AlwaysLives(p, es, n - 1);
      NextBefore(p, es, n - 1);
      GapOrOutstanding(p, Before(p, es, n - 1), es[n - 1]);
      found, g := GapAt(p, es, n - 1), n - 1;
    }
  }

  // The k-th event committed, its review was lost at the g-th, and the lane's own run completed it at the
  // m-th, no later commit or review between.
  ghost predicate Overlooked(p: Policy, es: seq<Event>, k: nat, g: nat, m: nat) {
    CompletedOver(p, es, Unreviewed, k, m) && k <= g < m && GapAt(p, es, g)
  }

  // COMPLETE OVER AN UNREVIEWED CANDIDATE, exactly when after the last commit its review was lost (the
  // reviewer refused, or its run processed without the report being read), and then an own run with
  // nothing to commit completed the lane before any review was read.
  lemma {:induction false} CompletesUnreviewedExactly(p: Policy, es: seq<Event>)
    ensures var l := Run(Machine(p), NewLane(Implementation), es);
      (l.state == Complete && l.work.cand == Unreviewed) <==> exists k, g, m :: Overlooked(p, es, k, g, m)
  {
    assert es[..|es|] == es;
    CompletesOver(p, es, Unreviewed);
    forall k: nat, m: nat | CompletedOver(p, es, Unreviewed, k, m) ensures exists g :: Overlooked(p, es, k, g, m) {
      var found, g := GapOrReview(p, es, k, m);
      CandidateIsLastWord(p, es, Unreviewed, m);
      assert Overlooked(p, es, k, g, m);
    }
  }

  // COMPLETE OVER REPORTED FAULTS, exactly when a review was read with findings surviving, and then, with no
  // commit and no other review between, an own run with nothing to commit completed the lane.
  lemma {:induction false} CompletesFlaggedExactly(p: Policy, es: seq<Event>)
    ensures var l := Run(Machine(p), NewLane(Implementation), es);
      (l.state == Complete && l.work.cand == Flagged) <==> exists k, m :: CompletedOver(p, es, Flagged, k, m)
    ensures forall k, m :: CompletedOver(p, es, Flagged, k, m) ==> EmptyFixAt(p, es, m)
  {
    assert es[..|es|] == es;
    CompletesOver(p, es, Flagged);
    forall k: nat, m: nat | CompletedOver(p, es, Flagged, k, m) ensures EmptyFixAt(p, es, m) {
      CandidateIsLastWord(p, es, Flagged, m);
      WithoutReviewsNoWord(p, es, m);
    }
  }

  ghost predicate EmptyFixAt(p: Policy, es: seq<Event>, m: nat) {
    m < |es| && EmptyFix(p, Before(p, es, m), es[m])
  }

  // A program that asks for no review has none.
  lemma {:induction false} WithoutReviewsNoWord(p: Policy, es: seq<Event>, n: nat)
    requires n <= |es|
    ensures !p.requireAdversarial ==> Before(p, es, n).work.cand == NoCandidate && Review !in Before(p, es, n).open
  {
    if n > 0 && !p.requireAdversarial {
      WithoutReviewsNoWord(p, es, n - 1);
      AlwaysLives(p, es, n - 1);
      NextBefore(p, es, n - 1);
      NoReviewStays(p, Before(p, es, n - 1), es[n - 1]);
    }
  }

  lemma NoReviewStays(p: Policy, l: Lane, e: Event)
    requires Lives(l) && !p.requireAdversarial && l.work.cand == NoCandidate && Review !in l.open
    ensures Step(p, l, e).work.cand == NoCandidate && Review !in Step(p, l, e).open
  {
  }
}
