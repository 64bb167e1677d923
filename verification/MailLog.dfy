// What the durable mailbox (adapters/mailbox.py) is, abstractly: an append-only log whose entries may
// expire, read through cursors; and what a consumer that keeps its cursor gets to see.
module MailLog {
  import opened Wrappers
  import opened Runs

  type Id = string
  type Time = int

  // An expiry that does not parse (foreign traffic) counts as passed.
  datatype Expiry = Never | At(time: Time) | Unparseable

  datatype Entry = Entry(id: Id, expiry: Expiry, body: string)

  // Entry number k (from 1) is log[k - 1]. gone: the numbers no longer in the spool.
  datatype Box = Box(log: seq<Entry>, gone: set<nat>, clock: Time)

  predicate Expired(e: Entry, now: Time) {
    match e.expiry
    case Never => false
    case At(t) => t <= now
    case Unparseable => true
  }

  // Only no expiry at all, or a readable one still ahead, keeps a message alive: what cannot be read has expired.
  lemma AliveExactly(e: Entry, now: Time)
    ensures !Expired(e, now) <==> e.expiry == Never || exists t :: now < t && e.expiry == At(t)
  {
  }

  predicate Dead(log: seq<Entry>, k: nat, now: Time)
    requires 1 <= k <= |log|
  {
    Expired(log[k - 1], now)
  }

  // What is gone has expired.
  ghost predicate BoxInv(b: Box) {
    forall k :: k in b.gone ==> 1 <= k <= |b.log| && Dead(b.log, k, b.clock)
  }

  // The unexpired entries after a cursor, in append order.
  function Window(log: seq<Entry>, cursor: int, now: Time): (w: seq<nat>)
    ensures forall i :: 0 <= i < |w| ==> 1 <= w[i] <= |log|
    ensures forall k :: k in w <==> 1 <= k <= |log| && cursor < k && !Dead(log, k, now)
    ensures forall i, j :: 0 <= i < j < |w| ==> w[i] < w[j]
  {
    if log == [] then []
    else
      var front := Window(log[..|log| - 1], cursor, now);
      if cursor < |log| && !Expired(log[|log| - 1], now) then front + [|log|] else front
  }

  // The largest number still in the spool, or 0.
  function Highest(n: nat, gone: set<nat>): (h: nat)
    ensures h <= n && (h > 0 ==> h !in gone)
    ensures forall k :: h < k <= n ==> k in gone
  {
    if n == 0 || n !in gone then n else Highest(n - 1, gone)
  }

  function NextCursor(b: Box, cursor: int): int {
    var highest := Highest(|b.log|, b.gone);
    if highest == 0 then cursor else Max(cursor, highest)
  }

  // A receive from `cursor` at time `now`: everything expired after the cursor leaves the spool.
  function AfterReceive(b: Box, cursor: int, now: Time): Box {
    Box(b.log, b.gone + (set k: nat | 1 <= k <= |b.log| && cursor < k && Dead(b.log, k, now)), now)
  }

  // A known id is read back from the file name `number.id.json`, up to the next dot.
  function FirstSegment(id: Id): (r: Id)
    ensures r <= id
  {
    if id == "" || id[0] == '.' then "" else [id[0]] + FirstSegment(id[1..])
  }

  // What the store takes for an id it knows.
  predicate SeemsKnown(log: seq<Entry>, id: Id) {
    exists i :: 0 <= i < |log| && FirstSegment(log[i].id) == id
  }

  // An append of an id taken for known changes nothing.
  function AfterAppend(b: Box, e: Entry): Box {
    if SeemsKnown(b.log, e.id) then b else b.(log := b.log + [e])
  }

  // ---- sessions ------------------------------------------------------------------------------------

  // A consumer's session. got: what it was given, in order. fates: for each entry logged by the time
  // of the latest receive, whether it was unexpired at the first receive after it was logged.
  datatype Session = Session(box: Box, cursor: int, got: seq<nat>, fates: seq<bool>)

  // Time only moves forward, by `later` since the last event.
  datatype Event = Append(e: Entry) | Receive(later: nat) | Elsewhere(cursor: int, later: nat)

  predicate Fate(fates: seq<bool>, k: nat) {
    1 <= k <= |fates| && fates[k - 1]
  }

  function Judged(log: seq<Entry>, fates: seq<bool>, now: Time): (r: seq<bool>)
    ensures |fates| <= |log| ==> |r| == |log| && fates <= r
    ensures forall k :: |fates| < k <= |log| ==> (Fate(r, k) <==> !Dead(log, k, now))
    decreases |log| - |fates|
  {
    if |fates| >= |log| then fates
    else
      var next := fates + [!Expired(log[|fates|], now)];
      assert Fate(next, |fates| + 1) <==> !Dead(log, |fates| + 1, now);
      Judged(log, next, now)
  }

  function Step(s: Session, e: Event): Session {
    match e
    case Append(entry) => s.(box := AfterAppend(s.box, entry))
    case Receive(later) =>
      var now := s.box.clock + later;
      Session(AfterReceive(s.box, s.cursor, now), NextCursor(s.box, s.cursor),
              s.got + Window(s.box.log, s.cursor, now), Judged(s.box.log, s.fates, now))
    case Elsewhere(cursor, later) => s.(box := AfterReceive(s.box, cursor, s.box.clock + later))
  }

  ghost predicate Increasing(s: seq<nat>) {
    forall i, j :: 0 <= i < j < |s| ==> s[i] < s[j]
  }

  // Entries up to `base` were already acknowledged when the session began.
  ghost predicate GotInv(base: nat, s: Session) {
    Increasing(s.got) && (forall k :: k in s.got ==> base < k <= s.cursor) &&
    (forall k :: base < k <= |s.fates| ==> (k in s.got <==> Fate(s.fates, k)))
  }

  ghost predicate SkippedAreDead(s: Session)
    requires |s.fates| <= |s.box.log| && 0 <= s.cursor
  {
    forall k :: s.cursor < k <= |s.fates| ==> Dead(s.box.log, k, s.box.clock)
  }

  ghost predicate SessionInv(base: nat, s: Session) {
    BoxInv(s.box) && base <= |s.fates| <= |s.box.log| && base <= s.cursor <= |s.fates| &&
    GotInv(base, s) && SkippedAreDead(s)
  }

  lemma DeadOnLongerLog(log: seq<Entry>, e: Entry, now: Time)
    ensures forall k :: 1 <= k <= |log| ==> (Dead(log + [e], k, now) <==> Dead(log, k, now))
  {
  }

  lemma AppendKeepsInv(base: nat, s: Session, e: Entry)
    requires SessionInv(base, s)
    ensures SessionInv(base, Step(s, Append(e)))
  {
    DeadOnLongerLog(s.box.log, e, s.box.clock);
  }

  lemma LaterStillDead(b: Box, cursor: int, later: nat)
    requires BoxInv(b)
    ensures BoxInv(AfterReceive(b, cursor, b.clock + later))
    ensures forall k :: 1 <= k <= |b.log| && Dead(b.log, k, b.clock) ==> Dead(b.log, k, b.clock + later)
  {
  }

  lemma ElsewhereKeepsInv(base: nat, s: Session, cursor: int, later: nat)
    requires SessionInv(base, s)
    ensures SessionInv(base, Step(s, Elsewhere(cursor, later)))
  {
    LaterStillDead(s.box, cursor, later);
    var t := Step(s, Elsewhere(cursor, later));
    forall k | t.cursor < k <= |t.fates| ensures Dead(t.box.log, k, t.box.clock) {
      assert Dead(s.box.log, k, s.box.clock);
    }
  }

  lemma ReceiveOrders(base: nat, s: Session, later: nat)
    requires SessionInv(base, s)
    ensures var t := Step(s, Receive(later));
      Increasing(t.got) && s.cursor <= t.cursor <= |s.box.log| && forall k :: k in t.got ==> base < k <= t.cursor
  {
    var now := s.box.clock + later;
    var t := Step(s, Receive(later));
    var w := Window(s.box.log, s.cursor, now);
    LaterStillDead(s.box, s.cursor, later);
    forall k | k in w ensures s.cursor < k <= t.cursor {
      assert !Dead(s.box.log, k, now);
    }
    forall i, j | 0 <= i < j < |t.got| ensures t.got[i] < t.got[j] {
      if i < |s.got| <= j { assert t.got[j] in w && t.got[i] in s.got; }
    }
  }

  lemma ReceiveJudges(base: nat, s: Session, later: nat)
    requires SessionInv(base, s)
    ensures var t := Step(s, Receive(later));
      forall k :: base < k <= |t.fates| ==> (k in t.got <==> Fate(t.fates, k))
  {
    var now := s.box.clock + later;
    var t := Step(s, Receive(later));
    var w := Window(s.box.log, s.cursor, now);
    LaterStillDead(s.box, s.cursor, later);
    forall k | base < k <= |t.fates| ensures k in t.got <==> Fate(t.fates, k) {
      if k <= |s.fates| {
        assert s.fates <= t.fates && t.fates[k - 1] == s.fates[k - 1];
        assert s.cursor < k ==> Dead(s.box.log, k, s.box.clock);
        assert k !in w;
      } else {
        assert k !in s.got;
        assert k in w <==> !Dead(s.box.log, k, now);
      }
    }
  }

  lemma ReceiveKeepsInv(base: nat, s: Session, later: nat)
    requires SessionInv(base, s)
    ensures SessionInv(base, Step(s, Receive(later)))
  {
    var t := Step(s, Receive(later));
    LaterStillDead(s.box, s.cursor, later);
    ReceiveOrders(base, s, later);
    ReceiveJudges(base, s, later);
    forall k | t.cursor < k <= |t.fates| ensures Dead(t.box.log, k, t.box.clock) {
      assert k in s.box.gone;
    }
  }

  lemma StepKeepsInv(base: nat, s: Session, e: Event)
    requires SessionInv(base, s)
    ensures SessionInv(base, Step(s, e))
  {
    match e
    case Append(entry) => AppendKeepsInv(base, s, entry);
    case Receive(later) => ReceiveKeepsInv(base, s, later);
    case Elsewhere(cursor, later) => ElsewhereKeepsInv(base, s, cursor, later);
  }

  function Machine(): (Session, Event) -> Session { (s, e) => Step(s, e) }

  ghost function Kept(base: nat): Session -> bool { s => SessionInv(base, s) }

  lemma SessionRuns(base: nat, s: Session, es: seq<Event>)
    requires SessionInv(base, s)
    ensures SessionInv(base, Run(Machine(), s, es))
  {
    var ok := (t: Session, e: Event) => true;
    forall t, e | Kept(base)(t) && ok(t, e) ensures Kept(base)(Machine()(t, e)) {
      StepKeepsInv(base, t, e);
    }
    AllAllowed(Machine(), ok, s, es);
    InvariantHolds(Machine(), ok, Kept(base), s, es);
  }

  // A consumer that starts at a cursor within the log and keeps the cursor it is given, while others
  // append, receive and expire as they like, sees entries in append order, none twice, none from before
  // its cursor, and an entry at all if and only if it was unexpired at the first receive after it was
  // logged.
  lemma InOrderExactlyOnce(b: Box, base: nat, es: seq<Event>)
    requires BoxInv(b) && base <= |b.log|
    ensures var s := Run(Machine(), Session(b, base, [], seq(base, _ => true)), es);
      Increasing(s.got) &&
      (forall k :: k in s.got ==> base < k <= |s.fates|) &&
      (forall k :: base < k <= |s.fates| ==> (k in s.got <==> Fate(s.fates, k)))
  {
    SessionRuns(base, Session(b, base, [], seq(base, _ => true)), es);
  }

  // ---- ids -----------------------------------------------------------------------------------------

  predicate KnownId(log: seq<Entry>, id: Id) {
    exists i :: 0 <= i < |log| && log[i].id == id
  }

  predicate DistinctIds(log: seq<Entry>) {
    forall i, j :: 0 <= i < j < |log| ==> log[i].id != log[j].id
  }

  predicate Dotless(id: Id) {
    forall i :: 0 <= i < |id| ==> id[i] != '.'
  }

  predicate DotlessIds(log: seq<Entry>) {
    forall i :: 0 <= i < |log| ==> Dotless(log[i].id)
  }

  lemma {:induction false} ReadsBackExactlyWhenDotless(id: Id)
    ensures FirstSegment(id) == id <==> Dotless(id)
  {
    if id != "" {
      ReadsBackExactlyWhenDotless(id[1..]);
      if id[0] != '.' {
        assert id == [id[0]] + id[1..];
        assert Dotless(id) ==> Dotless(id[1..]);
        assert Dotless(id[1..]) ==> Dotless(id);
      }
    }
  }

  // While no id carries a dot, an append is refused exactly when the id is in the log already, and no
  // id is logged twice.
  lemma DotlessIdsAreLoggedOnce(b: Box, e: Entry)
    requires DotlessIds(b.log) && DistinctIds(b.log) && Dotless(e.id)
    ensures AfterAppend(b, e) == b <==> KnownId(b.log, e.id)
    ensures DotlessIds(AfterAppend(b, e).log) && DistinctIds(AfterAppend(b, e).log)
    ensures KnownId(AfterAppend(b, e).log, e.id)
  {
    forall i | 0 <= i < |b.log| ensures FirstSegment(b.log[i].id) == b.log[i].id {
      ReadsBackExactlyWhenDotless(b.log[i].id);
    }
    if !SeemsKnown(b.log, e.id) {
      assert AfterAppend(b, e).log[|b.log|].id == e.id;
      assert |AfterAppend(b, e).log| != |b.log|;
    }
  }

  lemma {:induction false} SegmentStopsAtDot(id: Id, rest: string)
    requires Dotless(id)
    ensures FirstSegment(id + "." + rest) == id
  {
    var full := id + "." + rest;
    if id == "" {
      assert full[0] == '.';
    } else {
      assert full[0] == id[0] && full[1..] == id[1..] + "." + rest;
      SegmentStopsAtDot(id[1..], rest);
    }
  }

  // With a dot, appending the same id again stores it again; and a different id, the part before the
  // dot, is taken for known and dropped.
  lemma DottedIdsBreakDeduplication(id: Id, rest: string)
    requires Dotless(id)
    ensures var dotted, plain := Entry(id + "." + rest, Never, ""), Entry(id, Never, "");
      var b := Box([dotted], {}, 0);
      AfterAppend(b, dotted).log == [dotted, dotted] && AfterAppend(b, plain) == b && !KnownId(b.log, id)
  {
    var dotted := Entry(id + "." + rest, Never, "");
    var log := [dotted];
    SegmentStopsAtDot(id, rest);
    assert |id + "." + rest| > |id|;
    assert FirstSegment(log[0].id) == id;
  }
}
