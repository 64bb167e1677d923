// src/quaestor/core/domain.py: the execution states, the legal graph and what it rules out.
module Domain {
  datatype ExecState =
    | Created | Preflight | Leased | Dispatched | Running | ResultReceived | EvidenceCollected
    | HandoffReady | HandedToOrchestrator
    | PreflightRefused | LeaseRefused | AuthorityRefused | PermissionRefused | ClaudeFailed
    | Interrupted | WorkerFailed | ResultInvalid | EvidenceInvalid | AmbiguousExecution
    | OwnerRequired | Cancelled

  predicate IsActive(s: ExecState) {
    s == Created || s == Preflight || s == Leased || s == Dispatched || s == Running ||
    s == ResultReceived || s == EvidenceCollected
  }

  predicate IsTerminal(s: ExecState) {
    !IsActive(s)
  }

  // The refusals and failures, each reachable from every active state.
  predicate IsRefusal(s: ExecState) {
    IsTerminal(s) && s != HandoffReady && s != HandedToOrchestrator
  }

  predicate CanTransition(src: ExecState, dst: ExecState) {
    (IsActive(src) && IsRefusal(dst)) ||
    match src
    case Created => dst == Preflight
    case Preflight => dst == Leased || dst == Dispatched
    case Leased => dst == Dispatched
    case Dispatched => dst == Running
    case Running => dst == ResultReceived
    case ResultReceived => dst == EvidenceCollected
    case EvidenceCollected => dst == HandoffReady
    case HandoffReady => dst == HandedToOrchestrator
    case _ => false
  }

  // The legal graph, edge by edge: the one road to the handoff, with two short cuts past the lease, its delivery,
  // and from every state before the handoff each of the twelve refusals.
  lemma EdgesExactly(src: ExecState, dst: ExecState)
    ensures CanTransition(src, dst) <==>
            ((src, dst) in {(Created, Preflight), (Preflight, Leased), (Preflight, Dispatched), (Leased, Dispatched),
                            (Dispatched, Running), (Running, ResultReceived), (ResultReceived, EvidenceCollected),
                            (EvidenceCollected, HandoffReady), (HandoffReady, HandedToOrchestrator)} ||
             (src in {Created, Preflight, Leased, Dispatched, Running, ResultReceived, EvidenceCollected} &&
              dst in {PreflightRefused, LeaseRefused, AuthorityRefused, PermissionRefused, ClaudeFailed, Interrupted,
                      WorkerFailed, ResultInvalid, EvidenceInvalid, AmbiguousExecution, OwnerRequired, Cancelled}))
  {
  }

  // How far along its life a run is. Only the proofs use it.
  ghost function Rank(s: ExecState): nat {
    match s
    case Created => 0
    case Preflight => 1
    case Leased => 2
    case Dispatched => 3
    case Running => 4
    case ResultReceived => 5
    case EvidenceCollected => 6
    case HandoffReady => 7
    case _ => 8
  }

  // A sequence of states joined by legal edges: one possible history of a run.
  ghost predicate LegalHistory(h: seq<ExecState>) {
    forall i :: 0 <= i < |h| - 1 ==> CanTransition(h[i], h[i + 1])
  }

  // What a later state may be, given an earlier one.
  ghost predicate Final(earlier: ExecState, later: ExecState) {
    IsTerminal(earlier) ==> earlier == HandoffReady && later == HandedToOrchestrator
  }

  lemma {:induction false} HistoryClimbs(h: seq<ExecState>, i: nat, j: nat)
    requires LegalHistory(h) && i <= j < |h|
    ensures Rank(h[i]) + (j - i) <= Rank(h[j])
    decreases j - i
  {
    if i < j {
      HistoryClimbs(h, i, j - 1);
      assert CanTransition(h[j - 1], h[j - 1 + 1]);
    }
  }

  // No legal history is longer than eight edges or visits a state twice, and none leaves a
  // terminal state for an active one: the only edge between terminal states is the delivery of a
  // ready handoff.
  lemma {:induction false} HistoriesAreShortAndFinal(h: seq<ExecState>)
    requires LegalHistory(h)
    ensures |h| <= 9
    ensures forall i, j :: 0 <= i < j < |h| ==> h[i] != h[j]
    ensures forall i, j :: 0 <= i < j < |h| ==> Final(h[i], h[j])
  {
    if |h| > 9 {
      HistoryClimbs(h, 0, 9);
    }
    forall i, j | 0 <= i < j < |h| ensures h[i] != h[j] {
      HistoryClimbs(h, i, j);
    }
    forall i, j | 0 <= i < j < |h| ensures Final(h[i], h[j]) {
      assert CanTransition(h[i], h[i + 1]);
      assert i + 1 < j ==> CanTransition(h[i + 1], h[i + 1 + 1]);
    }
  }

  // The bound of eight edges is attained, by the history of an ordinary leased run.
  lemma LongestHistory() returns (h: seq<ExecState>)
    ensures LegalHistory(h) && |h| == 9
  {
    h := [Created, Preflight, Leased, Dispatched, Running, ResultReceived, EvidenceCollected,
          HandoffReady, HandedToOrchestrator];
  }
}
