// src/quaestor/core/programs.py (LaneLease, evaluate_claim, check_fence) and strategic_store.py
// (claim_lane, guard_fence, set_lane_state_fenced, release_lane): one lane's fenced ownership, over
// whole histories of claims, releases and fenced writes.
module LaneLeases {
  import opened Wrappers
  import opened Programs
  import opened Runs

  type Token = string

  // released 0.0 means not released, as the source tests it.
  datatype Lease = Lease(owner: Token, actor: string, fence: int, acquired: real, expires: real, released: real)

  datatype Claim = Acquired(lease: Lease) | Renewed(lease: Lease) | HeldByOther(lease: Lease)

  predicate Current(l: Lease, now: real) {
    l.released == 0.0 && now < l.expires
  }

  // `minted` is the token a new acquisition gets.
  function EvaluateClaim(row: Option<Lease>, actor: string, now: real, token: Token, duration: real,
                         minted: Token): Claim
  {
    if row.Some? && Current(row.value, now) then
      if token != "" && token == row.value.owner
      then Renewed(row.value.(expires := now + duration))
      else HeldByOther(row.value)
    else
      Acquired(Lease(minted, actor, if row.Some? then row.value.fence + 1 else 1, now, now + duration, 0.0))
  }

  function CheckFence(row: Option<Lease>, presented: int): bool {
    row.Some? && presented >= row.value.fence
  }

  // Held by somebody whose token the claimant does not show.
  predicate Contested(row: Option<Lease>, now: real, token: Token) {
    row.Some? && row.value.released == 0.0 && now < row.value.expires && (token == "" || token != row.value.owner)
  }

  predicate InForce(row: Option<Lease>, now: real) {
    row.Some? && row.value.released == 0.0 && now < row.value.expires
  }

  // A claim is refused exactly while somebody else's lease is in force, and then changes nothing; it renews
  // exactly the claimant's own lease in force, moving its expiry and nothing else; and it takes every other
  // lane, unleased, released or run out, under a new token and a fence one higher.
  predicate Answers(row: Option<Lease>, actor: string, now: real, token: Token, duration: real, minted: Token,
                    claim: Claim, after: Option<Lease>)
  {
    (claim.HeldByOther? <==> Contested(row, now, token)) &&
    (claim.HeldByOther? ==> after == row && claim.lease == row.value) &&
    (claim.Renewed? <==> InForce(row, now) && !Contested(row, now, token)) &&
    (claim.Renewed? ==>
       after == Some(claim.lease) && claim.lease.expires == now + duration &&
       claim.lease.(expires := row.value.expires) == row.value) &&
    (claim.Acquired? <==> !InForce(row, now)) &&
    (claim.Acquired? ==>
       after == Some(claim.lease) && claim.lease.owner == minted && claim.lease.actor == actor &&
       claim.lease.fence == (if row.Some? then row.value.fence + 1 else 1) && claim.lease.acquired == now &&
       claim.lease.expires == now + duration && (duration > 0.0 ==> InForce(after, now)))
  }

  lemma ClaimAnswers(row: Option<Lease>, actor: string, now: real, token: Token, duration: real, minted: Token)
    ensures var claim := EvaluateClaim(row, actor, now, token, duration, minted);
      Answers(row, actor, now, token, duration, minted, claim,
              if claim.HeldByOther? then row else Some(claim.lease))
  {
  }

  class LeaseRow {
    var row: Option<Lease>
    var state: LaneState

    constructor (state: LaneState)
      ensures row == None && this.state == state
    {
      this.row, this.state := None, state;
    }

    // Read, decide and write in one transaction.
    method ClaimLane(actor: string, now: real, token: Token, duration: real, minted: Token) returns (claim: Claim)
      modifies this`row
      ensures claim == EvaluateClaim(old(row), actor, now, token, duration, minted)
      ensures row == if claim.HeldByOther? then old(row) else Some(claim.lease)
      ensures Answers(old(row), actor, now, token, duration, minted, claim, row)
    {
      ClaimAnswers(row, actor, now, token, duration, minted);
      if row.Some? && row.value.released == 0.0 && now < row.value.expires {
        if token != "" && token == row.value.owner {
          row := Some(row.value.(expires := now + duration));
          return Renewed(row.value);
        }
        return HeldByOther(row.value);
      }
      var fence := if row.Some? then row.value.fence + 1 else 1;
      row := Some(Lease(minted, actor, fence, now, now + duration, 0.0));
      return Acquired(row.value);
    }

    method ReleaseLane(token: Token, now: real) returns (ok: bool)
      modifies this`row
      ensures ok <==> old(row).Some? && old(row).value.owner == token
      ensures row == if ok then Some(old(row).value.(released := now)) else old(row)
    {
      if row.None? || row.value.owner != token { return false; }
      row := Some(row.value.(released := now));
      return true;
    }

    method SetLaneStateFenced(to: LaneState, fence: int) returns (ok: bool)
      modifies this`state
      ensures ok <==> CheckFence(row, fence)
      ensures state == if ok then to else old(state)
    {
      if row.None? || fence < row.value.fence { return false; }
      state := to;
      return true;
    }
  }

  // ---- histories -----------------------------------------------------------------------------------

  // past: every superseded lease as it stood when superseded. accepted: fences of accepted writes that
  // were issued by this lane. issued: how many acquisitions there were.
  datatype History = History(row: Option<Lease>, clock: real, past: seq<Lease>, tokens: set<Token>, accepted: seq<int>,
                             issued: nat)

  // Time only moves forward, by `later`.
  datatype Event =
    | ClaimIt(actor: string, token: Token, duration: real, minted: Token, later: real)
    | ReleaseIt(token: Token, later: real)
    | WriteIt(fence: int, later: real)

  predicate Fair(h: History, e: Event) {
    e.later >= 0.0 && (e.ClaimIt? ==> e.minted !in h.tokens && e.minted != "")
  }

  function AfterClaim(h: History, e: Event): History
    requires e.ClaimIt?
  {
    var now := h.clock + e.later;
    match EvaluateClaim(h.row, e.actor, now, e.token, e.duration, e.minted)
    case Acquired(l) =>
      History(Some(l), now, if h.row.Some? then h.past + [h.row.value] else h.past, h.tokens + {e.minted},
              h.accepted, h.issued + 1)
    case Renewed(l) => h.(row := Some(l), clock := now)
    case HeldByOther(l) => h.(clock := now)
  }

  function Step(h: History, e: Event): History {
    match e
    case ClaimIt(_, _, _, _, _) => AfterClaim(h, e)
    case ReleaseIt(token, later) =>
      var now := h.clock + later;
      if h.row.Some? && h.row.value.owner == token then h.(row := Some(h.row.value.(released := now)), clock := now)
      else h.(clock := now)
    case WriteIt(fence, later) =>
      if CheckFence(h.row, fence) && 1 <= fence <= h.issued
      then h.(clock := h.clock + later, accepted := h.accepted + [fence])
      else h.(clock := h.clock + later)
  }

  // What the class's methods do to the row, the histories do: time passes with every event; a claim leaves what
  // it answers; the holder's token, and no other, releases, and the lane is then anybody's; a write is accepted
  // exactly if its fence passes, of the fences issued.
  lemma EventsAreTheMethods(h: History, e: Event)
    ensures var t, now := Step(h, e), h.clock + e.later;
      t.clock == now &&
      match e
      case ClaimIt(actor, token, duration, minted, _) =>
        Answers(h.row, actor, now, token, duration, minted,
                EvaluateClaim(h.row, actor, now, token, duration, minted), t.row) &&
        t.accepted == h.accepted
      case ReleaseIt(token, _) =>
        t == h.(row := t.row, clock := now) &&
        (h.row.Some? && h.row.value.owner == token ==>
           t.row == Some(h.row.value.(released := now)) && (now != 0.0 ==> !InForce(t.row, now))) &&
        (h.row.None? || h.row.value.owner != token ==> t.row == h.row)
      case WriteIt(fence, _) =>
        t == h.(accepted := t.accepted, clock := now) &&
        (1 <= fence <= h.issued && h.row.Some? && h.row.value.fence <= fence ==> t.accepted == h.accepted + [fence]) &&
        (!(1 <= fence <= h.issued) || h.row.None? || fence < h.row.value.fence ==> t.accepted == h.accepted)
  {
    if e.ClaimIt? { ClaimAnswers(h.row, e.actor, h.clock + e.later, e.token, e.duration, e.minted); }
  }

  function Machine(): (History, Event) -> History { (h, e) => Step(h, e) }

  ghost predicate Orderly(fences: seq<int>, top: int) {
    (forall i, j :: 0 <= i < j < |fences| ==> fences[i] <= fences[j]) &&
    forall i :: 0 <= i < |fences| ==> 1 <= fences[i] <= top
  }

  // Fences count acquisitions: the n-th lease has fence n, the present one the last; superseded leases
  // are over for good, and no token comes back.
  ghost predicate HistoryInv(h: History) {
    h.clock >= 0.0 && (h.row.Some? <==> h.issued > 0) && |h.past| == (if h.issued == 0 then 0 else h.issued - 1) &&
    (h.row.Some? ==> h.row.value.fence == h.issued && h.row.value.owner in h.tokens && h.row.value.owner != "") &&
    PastInv(h) && Orderly(h.accepted, h.issued)
  }

  ghost predicate PastInv(h: History) {
    forall i :: 0 <= i < |h.past| ==> Over(h, i)
  }

  ghost predicate Over(h: History, i: nat)
    requires i < |h.past|
  {
    h.past[i].fence == i + 1 && !Current(h.past[i], h.clock) && h.past[i].owner in h.tokens &&
    (h.row.Some? ==> h.past[i].owner != h.row.value.owner)
  }

  lemma ClaimKeepsInv(h: History, e: Event)
    requires HistoryInv(h) && Fair(h, e) && e.ClaimIt?
    ensures HistoryInv(Step(h, e))
  {
    var t := Step(h, e);
    forall i | 0 <= i < |t.past| ensures Over(t, i) {
      if i < |h.past| { assert Over(h, i) && t.past[i] == h.past[i]; }
    }
  }

  lemma StepKeepsInv(h: History, e: Event)
    requires HistoryInv(h) && Fair(h, e)
    ensures HistoryInv(Step(h, e))
  {
    if e.ClaimIt? {
      ClaimKeepsInv(h, e);
    } else {
      var t := Step(h, e);
      forall i | 0 <= i < |t.past| ensures Over(t, i) { assert Over(h, i); }
    }
  }

  function Begin(): History {
    History(None, 0.0, [], {}, [], 0)
  }

  lemma Histories(es: seq<Event>)
    requires Allowed(Machine(), Fair, Begin(), es)
    ensures HistoryInv(Run(Machine(), Begin(), es))
  {
    forall h, e | HistoryInv(h) && Fair(h, e) ensures HistoryInv(Machine()(h, e)) { StepKeepsInv(h, e); }
    InvariantHolds(Machine(), Fair, Inv(), Begin(), es);
  }

  ghost function Inv(): History -> bool { h => HistoryInv(h) }

  // FENCING. Over any history with a clock that does not go back and tokens never minted twice: the n-th
  // acquisition has fence n; a superseded lease is never in force again, so at most the present one is;
  // of the fences ever issued, exactly the latest passes the check; and accepted writes never go back to
  // an earlier holder.
  lemma FencingIsSound(es: seq<Event>, n: int)
    requires Allowed(Machine(), Fair, Begin(), es)
    ensures var h := Run(Machine(), Begin(), es);
      (forall i :: 0 <= i < |h.past| ==> h.past[i].fence == i + 1 && !Current(h.past[i], h.clock)) &&
      (h.row.Some? ==> h.row.value.fence == |h.past| + 1) &&
      (1 <= n <= h.issued ==> (CheckFence(h.row, n) <==> n == h.issued)) &&
      (forall i, j :: 0 <= i < j < |h.accepted| ==> h.accepted[i] <= h.accepted[j])
  {
    Histories(es);
    var h := Run(Machine(), Begin(), es);
    forall i | 0 <= i < |h.past| ensures h.past[i].fence == i + 1 && !Current(h.past[i], h.clock) {
      assert Over(h, i);
    }
  }

  // A superseded writer's token renews nothing: its claim is refused, or is a new acquisition under a
  // higher fence. A renewal keeps fence and holder.
  lemma RenewalIsTheHolders(es: seq<Event>, actor: string, token: Token, duration: real, minted: Token, later: real)
    requires Allowed(Machine(), Fair, Begin(), es) && later >= 0.0
    ensures var h := Run(Machine(), Begin(), es);
      var claim := EvaluateClaim(h.row, actor, h.clock + later, token, duration, minted);
      (claim.Renewed? ==> claim.lease.fence == h.issued && claim.lease.owner == token &&
                          forall i :: 0 <= i < |h.past| ==> h.past[i].owner != token) &&
      (claim.Acquired? ==> claim.lease.fence == h.issued + 1) &&
      (claim.HeldByOther? ==> claim.lease.fence == h.issued)
  {
    Histories(es);
    var h := Run(Machine(), Begin(), es);
    forall i | 0 <= i < |h.past| ensures h.row.Some? && h.past[i].owner != h.row.value.owner { assert Over(h, i); }
  }

  // The check compares fences and nothing else: a holder whose lease has run out, but whom nobody has
  // replaced, still passes; and so does any fence that was never issued, if it is large enough.
  lemma CheckIgnoresExpiry(l: Lease, now: real, ahead: nat)
    requires !Current(l, now)
    ensures CheckFence(Some(l), l.fence) && CheckFence(Some(l), l.fence + ahead)
  {
  }
}
