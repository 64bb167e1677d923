// src/quaestor/adapters/mailbox.py: the spool directory, the expired directory and their operations;
// and the causal budget. Each operation is tied to the abstract log of MailLog.
module Mailbox {
  import opened Wrappers
  import opened Graphs
  import opened MailLog

  // A directory of files `number.id.json`, by number.
  type Directory = map<nat, Entry>

  // A later file that repeats an earlier file's id.
  predicate Repeats(d: Directory, k: nat)
    requires k in d
  {
    exists j :: j in d && j < k && d[j].id == d[k].id
  }

  function Size(d: Directory): nat {
    |d.Keys|
  }

  lemma SizesAfterOne(d: Directory, k: nat, ids: set<Id>, id: Id)
    requires k in d
    ensures Size(d - {k}) == Size(d) - 1 && |ids + {id}| == |ids| + if id in ids then 0 else 1
  {
    assert d.Keys == (d - {k}).Keys + {k};
    if id in ids { assert ids + {id} == ids; }
  }

  function IdsOf(d: Directory): set<Id> {
    set k | k in d :: d[k].id
  }

  predicate Delivers(d: Directory, k: nat, cursor: int, now: Time) {
    k in d && !Repeats(d, k) && cursor < k && !Expired(d[k], now)
  }

  predicate Sheds(d: Directory, k: nat, cursor: int, now: Time) {
    k in d && !Repeats(d, k) && cursor < k && Expired(d[k], now)
  }

  method SortedKeys(keys: set<nat>) returns (ks: seq<nat>)
    ensures Increasing(ks) && forall k :: k in ks <==> k in keys
  {
    ks := [];
    var rest := keys;
    while rest != {}
      invariant Increasing(ks) && rest <= keys
      invariant forall k :: k in keys <==> k in ks || k in rest
      invariant forall i, k :: 0 <= i < |ks| && k in rest ==> ks[i] < k
      decreases rest
    {
      var least := Least(rest);
      ks, rest := ks + [least], rest - {least};
    }
  }

  method Least(s: set<nat>) returns (least: nat)
    requires s != {}
    ensures least in s && forall k :: k in s ==> least <= k
  {
    least :| least in s;
    var rest := s - {least};
    while rest != {}
      invariant rest <= s && least in s && forall k :: k in s && k !in rest ==> least <= k
      decreases rest
    {
      var k :| k in rest;
      if k < least { least := k; }
      rest := rest - {k};
    }
  }

  class Mailbox {
    var spool: Directory
    var expired: Directory
    ghost var box: Box

    // Every logged entry is in one of the two directories, under its number; what left the spool has
    // expired. This is also the state between the two halves of an expiry, so no crash loses an entry.
    ghost predicate Valid()
      reads this
    {
      BoxInv(box) &&
      (forall k :: k in spool ==> 1 <= k <= |box.log| && spool[k] == box.log[k - 1]) &&
      (forall k :: k in expired ==>
         1 <= k <= |box.log| && expired[k] == box.log[k - 1] && Expired(expired[k], box.clock)) &&
      (forall k :: 1 <= k <= |box.log| ==> k in spool || k in expired) &&
      (forall k :: k in box.gone <==> 1 <= k <= |box.log| && k !in spool)
    }

    constructor ()
      ensures Valid() && box.log == [] && spool == map[] && expired == map[]
    {
      spool, expired, box := map[], map[], Box([], {}, 0);
    }

    method KnownIds() returns (ids: set<Id>)
      requires Valid()
      ensures forall id :: id in ids <==> SeemsKnown(box.log, id)
    {
      ids := (set k | k in spool :: FirstSegment(spool[k].id)) + (set k | k in expired :: FirstSegment(expired[k].id));
      forall i | 0 <= i < |box.log| ensures FirstSegment(box.log[i].id) in ids {
        assert i + 1 in spool || i + 1 in expired;
      }
    }

    // One past the highest number on disk: never a number used before.
    method NextSeq() returns (n: nat)
      requires Valid()
      ensures n == |box.log| + 1
    {
      var highest := 0;
      var rest := spool.Keys + expired.Keys;
      while rest != {}
        invariant rest <= spool.Keys + expired.Keys && highest <= |box.log|
        invariant forall k :: k in spool.Keys + expired.Keys && k !in rest ==> k <= highest
        decreases rest
      {
        var k :| k in rest;
        if k > highest { highest := k; }
        rest := rest - {k};
      }
      assert |box.log| > 0 ==> |box.log| in spool.Keys + expired.Keys;
      return highest + 1;
    }

    method Append(e: Entry) returns (stored: bool)
      requires Valid()
      modifies this
      ensures Valid() && expired == old(expired)
      ensures box == AfterAppend(old(box), e)
      ensures stored <==> !SeemsKnown(old(box).log, e.id)
      ensures spool == if stored then old(spool)[|old(box).log| + 1 := e] else old(spool)
    {
      var known := KnownIds();
      if e.id in known { return false; }
      var number := NextSeq();
      spool := spool[number := e];
      box := box.(log := box.log + [e]);
      AppendKeepsBox(old(box), e);
      return true;
    }

    // First half of an expiry: the copy. Overwriting an earlier copy is harmless.
    method WriteExpired(k: nat)
      requires Valid() && k in spool && Expired(spool[k], box.clock)
      modifies this`expired
      ensures Valid() && expired == old(expired)[k := spool[k]]
    {
      expired := expired[k := spool[k]];
    }

    // Second half: the unlink.
    method Unlink(k: nat)
      requires Valid() && k in spool && k in expired
      modifies this`spool, this`box
      ensures Valid() && spool == old(spool) - {k}
      ensures box == old(box).(gone := old(box).gone + {k})
    {
      spool := spool - {k};
      box := box.(gone := box.gone + {k});
    }

    method Expire(k: nat)
      requires Valid() && k in spool && Expired(spool[k], box.clock)
      modifies this
      ensures Valid() && spool == old(spool) - {k}
      ensures box == old(box).(gone := old(box).gone + {k})
    {
      WriteExpired(k);
      Unlink(k);
    }

    // The clock does not go backwards.
    ghost method Advance(now: Time)
      requires Valid() && box.clock <= now
      modifies this`box
      ensures Valid() && box == old(box).(clock := now)
    {
      box := box.(clock := now);
    }

    // One file: passed over if its id was met before or the cursor is past it; else moved or delivered.
    method Visit(k: nat, cursor: int, now: Time, seen: set<Id>) returns (delivered: bool, moved: bool, repeated: bool)
      requires Valid() && k in spool && box.clock == now
      modifies this
      ensures Valid() && box.log == old(box).log && box.clock == now
      ensures repeated <==> old(spool)[k].id in seen
      ensures delivered <==> !repeated && cursor < k && !Expired(old(spool)[k], now)
      ensures moved <==> !repeated && cursor < k && Expired(old(spool)[k], now)
      ensures spool == if moved then old(spool) - {k} else old(spool)
    {
      delivered, moved, repeated := false, false, spool[k].id in seen;
      if repeated || k <= cursor { return; }
      if Expired(spool[k], now) {
        Expire(k);
        moved := true;
      } else {
        delivered := true;
      }
    }

    // Deliver what is unexpired after the cursor, move what is expired, in order of number, passing over
    // any file that repeats an id.
    method ReceiveReport(cursor: int, now: Time)
      returns (messages: seq<nat>, next: int, expiredCount: nat, duplicates: nat)
      requires Valid() && box.clock <= now
      modifies this
      ensures Valid() && box.log == old(box).log && box.clock == now
      ensures Increasing(messages) && forall k :: k in messages <==> Delivers(old(spool), k, cursor, now)
      ensures forall k :: k in spool <==> k in old(spool) && !Sheds(old(spool), k, cursor, now)
      ensures expiredCount == Size(old(spool)) - Size(spool)
      ensures duplicates == Size(old(spool)) - |IdsOf(old(spool))|
      ensures next == NextCursor(old(box), cursor)
      ensures DistinctIds(old(box).log) ==>
        messages == Window(old(box).log, cursor, now) && box == AfterReceive(old(box), cursor, now)
    {
      ghost var b, was := box, spool;
      HighestKey();
      ghost var highest := Highest(|box.log|, box.gone);
      var ks := SortedKeys(spool.Keys);
      LastIsHighest(spool, highest, ks);
      next := if ks == [] then cursor else Max(cursor, ks[|ks| - 1]);
      Advance(now);
      messages, expiredCount, duplicates := Scan(ks, cursor, now);
      if DistinctIds(b.log) { ReceiveIsAbstract(b, was, cursor, now, messages, spool, box); }
    }

    // The loop over the sorted entries. (The cursor, the maximum of all numbers, is their last.)
    method Scan(ks: seq<nat>, cursor: int, now: Time)
      returns (messages: seq<nat>, expiredCount: nat, duplicates: nat)
      requires Valid() && box.clock == now && Increasing(ks) && forall k :: k in ks <==> k in spool
      modifies this
      ensures Valid() && box.log == old(box).log && box.clock == now
      ensures Increasing(messages) && forall k :: k in messages <==> Delivers(old(spool), k, cursor, now)
      ensures forall k :: k in spool <==> k in old(spool) && !Sheds(old(spool), k, cursor, now)
      ensures expiredCount == Size(old(spool)) - Size(spool)
      ensures duplicates == Size(old(spool)) - |IdsOf(old(spool))|
    {
      messages, expiredCount, duplicates := [], 0, 0;
      var seen: set<Id> := {};
      ghost var was: Directory := spool;
      assert Border(was.Keys, ks, 0, 0) && Reached(was, 0, cursor, now, messages, spool, seen);
      for i := 0 to |ks|
        invariant Valid() && box.log == old(box).log && box.clock == now
        invariant Scanned(was, ks, i, cursor, now, messages, spool, seen)
        invariant expiredCount + Size(spool) == Size(was) && duplicates + |seen| == i
      {
        ScanOne(was, ks, i, cursor, now, messages, spool, seen);
        var mid := spool[ks[i]].id;
        SizesAfterOne(spool, ks[i], seen, mid);
        var delivered, moved, repeated := Visit(ks[i], cursor, now, seen);
        seen := seen + {mid};
        if moved { expiredCount := expiredCount + 1; }
        if delivered { messages := messages + [ks[i]]; }
        if repeated { duplicates := duplicates + 1; }
      }
      ScanAll(was, ks, cursor, now, messages, spool, seen);
    }

    // The cursor can only advance to the highest number in the spool.
    lemma HighestKey()
      requires Valid()
      ensures var h := Highest(|box.log|, box.gone);
        (forall k :: k in spool ==> 1 <= k <= h) && (h > 0 ==> h in spool)
    {
    }
  }

  lemma LastIsHighest(d: Directory, h: nat, ks: seq<nat>)
    requires Increasing(ks) && forall k :: k in ks <==> k in d
    requires (forall k :: k in d ==> 1 <= k <= h) && (h > 0 ==> h in d)
    ensures h == if ks == [] then 0 else ks[|ks| - 1]
  {
    if ks != [] { assert ks[|ks| - 1] in ks; }
    if h > 0 { assert h in ks; }
  }

  // Once every file numbered below `top` was visited: what was delivered, what is left, which ids were met.
  ghost predicate Reached(was: Directory, top: nat, cursor: int, now: Time, messages: seq<nat>, left: Directory,
                          seen: set<Id>)
  {
    Increasing(messages) && (forall k: nat :: k in messages <==> k < top && Delivers(was, k, cursor, now)) &&
    (forall k: nat :: k in left <==> k in was && !(k < top && Sheds(was, k, cursor, now))) &&
    (forall k: nat :: k in left ==> left[k] == was[k]) && Met(was, top, seen)
  }

  ghost predicate Met(was: Directory, top: nat, seen: set<Id>) {
    forall id :: id in seen <==> exists k: nat :: k in was && k < top && was[k].id == id
  }

  // The i-th of the sorted numbers is the first not below `top`.
  ghost predicate Border(keys: set<nat>, ks: seq<nat>, i: nat, top: nat) {
    Increasing(ks) && (forall k :: k in ks <==> k in keys) && i <= |ks| &&
    (forall j :: 0 <= j < i ==> ks[j] < top) && (forall j :: i <= j < |ks| ==> top <= ks[j])
  }

  lemma AtBorder(was: Directory, ks: seq<nat>, i: nat, top: nat, cursor: int, now: Time, messages: seq<nat>,
                 left: Directory, seen: set<Id>)
    requires Border(was.Keys, ks, i, top) && i < |ks| && Reached(was, top, cursor, now, messages, left, seen)
    ensures ks[i] in was && ks[i] in left && left[ks[i]] == was[ks[i]]
    ensures was[ks[i]].id in seen <==> Repeats(was, ks[i])
    ensures Reached(was, ks[i], cursor, now, messages, left, seen)
    ensures Border(was.Keys, ks, i + 1, ks[i] + 1)
  {
    assert ks[i] in ks;
    forall k | k in was && k < ks[i] ensures k < top {
      assert k in ks;
      var j :| 0 <= j < |ks| && ks[j] == k;
      assert j < i;
    }
  }

  lemma MeetOneMore(was: Directory, k: nat, seen: set<Id>)
    requires Met(was, k, seen) && k in was
    ensures Met(was, k + 1, seen + {was[k].id})
  {
    forall id | id in seen + {was[k].id} ensures exists j: nat :: j in was && j < k + 1 && was[j].id == id {
      if id in seen {
        var j: nat :| j in was && j < k && was[j].id == id;
      }
    }
  }

  lemma TakeUp(was: Directory, k: nat, cursor: int, now: Time, messages: seq<nat>, left: Directory, seen: set<Id>)
    requires Reached(was, k, cursor, now, messages, left, seen) && k in was
    requires was[k].id in seen <==> Repeats(was, k)
    ensures var unmet, dead := was[k].id !in seen && cursor < k, Expired(was[k], now);
      Reached(was, k + 1, cursor, now, if unmet && !dead then messages + [k] else messages,
              if unmet && dead then left - {k} else left, seen + {was[k].id})
  {
    MeetOneMore(was, k, seen);
    forall j | 0 <= j < |messages| ensures messages[j] < k { assert messages[j] in messages; }
    var unmet, dead := was[k].id !in seen && cursor < k, Expired(was[k], now);
    var told := if unmet && !dead then messages + [k] else messages;
    var kept := if unmet && dead then left - {k} else left;
    forall j: nat ensures j in told <==> j < k + 1 && Delivers(was, j, cursor, now) {
      if j != k { assert j in told <==> j in messages; }
    }
    forall j: nat ensures j in kept <==> j in was && !(j < k + 1 && Sheds(was, j, cursor, now)) {
      if j != k { assert j in kept <==> j in left; }
    }
  }

  // What the loop keeps after i entries.
  ghost predicate Scanned(was: Directory, ks: seq<nat>, i: nat, cursor: int, now: Time, messages: seq<nat>,
                          left: Directory, seen: set<Id>)
  {
    exists top: nat :: Border(was.Keys, ks, i, top) && Reached(was, top, cursor, now, messages, left, seen)
  }

  lemma ScanOne(was: Directory, ks: seq<nat>, i: nat, cursor: int, now: Time, messages: seq<nat>, left: Directory,
                seen: set<Id>)
    requires i < |ks| && Scanned(was, ks, i, cursor, now, messages, left, seen)
    ensures ks[i] in left
    ensures var k, mid := ks[i], left[ks[i]].id;
      var unmet, dead := mid !in seen && cursor < k, Expired(left[k], now);
      Scanned(was, ks, i + 1, cursor, now, if unmet && !dead then messages + [k] else messages,
              if unmet && dead then left - {k} else left, seen + {mid})
  {
    var top: nat :| Border(was.Keys, ks, i, top) && Reached(was, top, cursor, now, messages, left, seen);
    AtBorder(was, ks, i, top, cursor, now, messages, left, seen);
    TakeUp(was, ks[i], cursor, now, messages, left, seen);
  }

  lemma ScanAll(was: Directory, ks: seq<nat>, cursor: int, now: Time, messages: seq<nat>, left: Directory,
                seen: set<Id>)
    requires Scanned(was, ks, |ks|, cursor, now, messages, left, seen)
    ensures Increasing(messages) && forall k :: k in messages <==> Delivers(was, k, cursor, now)
    ensures forall k :: k in left <==> k in was && !Sheds(was, k, cursor, now)
    ensures seen == IdsOf(was) && |ks| == Size(was)
  {
    var top: nat :| Border(was.Keys, ks, |ks|, top) && Reached(was, top, cursor, now, messages, left, seen);
    NothingBeyond(was, ks, top, cursor, now, messages, left, seen);
    ElemsSize(ks);
    assert Elems(ks) == was.Keys;
  }

  lemma NothingBeyond(was: Directory, ks: seq<nat>, top: nat, cursor: int, now: Time, messages: seq<nat>,
                      left: Directory, seen: set<Id>)
    requires Border(was.Keys, ks, |ks|, top) && Reached(was, top, cursor, now, messages, left, seen)
    ensures forall k :: k in was ==> k < top
    ensures forall k :: k in was ==> k <= if ks == [] then 0 else ks[|ks| - 1]
    ensures ks != [] ==> ks[|ks| - 1] in was
  {
    forall k | k in was ensures k < top && ks != [] && k <= ks[|ks| - 1] {
      assert k in ks;
      var j :| 0 <= j < |ks| && ks[j] == k;
    }
    if ks != [] { assert ks[|ks| - 1] in ks; }
  }

  lemma AppendKeepsBox(b: Box, e: Entry)
    requires BoxInv(b)
    ensures BoxInv(b.(log := b.log + [e]))
  {
    DeadOnLongerLog(b.log, e, b.clock);
  }

  // While ids are distinct, a receive is the abstract one: what it delivers is exactly the unexpired
  // window after the cursor, and what leaves the spool is exactly the expired part of it.
  lemma ReceiveIsWindow(b: Box, spool: Directory, cursor: int, now: Time, messages: seq<nat>, after: Directory)
    requires BoxInv(b) && DistinctIds(b.log) && b.clock <= now
    requires forall k :: k in spool ==> 1 <= k <= |b.log| && spool[k] == b.log[k - 1]
    requires forall k :: k in b.gone <==> 1 <= k <= |b.log| && k !in spool
    requires Increasing(messages) && forall k :: k in messages <==> Delivers(spool, k, cursor, now)
    requires forall k :: k in after <==> k in spool && !Sheds(spool, k, cursor, now)
    ensures messages == Window(b.log, cursor, now)
    ensures forall k :: 1 <= k <= |b.log| ==> (k !in after <==> k in AfterReceive(b, cursor, now).gone)
  {
    forall j, k | j in spool && k in spool && j < k ensures spool[j].id != spool[k].id {
      assert b.log[j - 1].id != b.log[k - 1].id;
    }
    var w := Window(b.log, cursor, now);
    forall k ensures k in messages <==> k in w {
      if 1 <= k <= |b.log| && k !in spool { assert Dead(b.log, k, b.clock); }
    }
    SameElements(messages, w);
  }

  lemma ReceiveIsAbstract(b: Box, spool: Directory, cursor: int, now: Time, messages: seq<nat>, after: Directory,
                          c: Box)
    requires BoxInv(b) && DistinctIds(b.log) && b.clock <= now && c.log == b.log && c.clock == now
    requires forall k :: k in spool ==> 1 <= k <= |b.log| && spool[k] == b.log[k - 1]
    requires forall k :: k in b.gone <==> 1 <= k <= |b.log| && k !in spool
    requires forall k :: k in c.gone <==> 1 <= k <= |b.log| && k !in after
    requires Increasing(messages) && forall k :: k in messages <==> Delivers(spool, k, cursor, now)
    requires forall k :: k in after <==> k in spool && !Sheds(spool, k, cursor, now)
    ensures messages == Window(b.log, cursor, now) && c == AfterReceive(b, cursor, now)
  {
    ReceiveIsWindow(b, spool, cursor, now, messages, after);
    assert c.gone == AfterReceive(b, cursor, now).gone;
  }

  lemma {:induction false} SameElements(a: seq<nat>, b: seq<nat>)
    requires Increasing(a) && Increasing(b) && forall k :: k in a <==> k in b
    ensures a == b
  {
    var x := if a != [] then a[0] else if b != [] then b[0] else 0;
    assert x in a <==> x in b;
    if a != [] && b != [] {
      assert a[|a| - 1] in b && b[|b| - 1] in a;
      var i :| 0 <= i < |b| && b[i] == a[|a| - 1];
      var j :| 0 <= j < |a| && a[j] == b[|b| - 1];
      assert a[|a| - 1] == b[|b| - 1];
      var c, d := a[..|a| - 1], b[..|b| - 1];
      forall k ensures k in c <==> k in d {
        if k in c { assert k in a && k in b; }
        if k in d { assert k in b && k in a; }
      }
      SameElements(c, d);
      assert a == c + [a[|a| - 1]] && b == d + [b[|b| - 1]];
    }
  }

  // ---- the causal budget ---------------------------------------------------------------------------

  // A walk along causal parents that stays inside the history and meets no message twice.
  ghost predicate IsChain(parents: map<Id, Id>, c: seq<Id>) {
    NoRepeat(c) && (forall i :: 0 <= i < |c| ==> c[i] in parents && c[i] != "") &&
    forall i, j :: 0 <= i < j < |c| && j == i + 1 ==> c[j] == parents[c[i]]
  }

  method ChainLen(parents: map<Id, Id>, start: Id, maxRounds: int) returns (depth: nat, ghost chain: seq<Id>)
    requires start in parents && start != ""
    ensures IsChain(parents, chain) && |chain| == depth && chain != [] && chain[0] == start
    ensures depth >= maxRounds || forall c :: IsChain(parents, c) && c != [] && c[0] == start ==> |c| <= depth
  {
    var mid := start;
    var seen: set<Id> := {};
    depth, chain := 0, [];
    while mid != "" && mid in parents && mid !in seen
      invariant |chain| == depth && IsChain(parents, chain) && seen == Elems(chain)
      invariant chain != [] ==> chain[0] == start && mid == parents[chain[|chain| - 1]]
      invariant chain == [] ==> mid == start
      decreases parents.Keys - seen
    {
      assert Elems(chain + [mid]) == Elems(chain) + {mid};
      chain := chain + [mid];
      seen := seen + {mid};
      depth := depth + 1;
      if depth >= maxRounds { return; }
      mid := parents[mid];
    }
    forall c | IsChain(parents, c) && c != [] && c[0] == start ensures |c| <= depth {
      MaximalWalk(parents, chain, c, mid);
    }
  }

  lemma {:induction false} SameWalk(parents: map<Id, Id>, a: seq<Id>, b: seq<Id>, n: nat)
    requires IsChain(parents, a) && IsChain(parents, b) && a != [] && b != [] && a[0] == b[0]
    requires n < |a| && n < |b|
    ensures a[n] == b[n]
  {
    if n > 0 { SameWalk(parents, a, b, n - 1); }
  }

  lemma MaximalWalk(parents: map<Id, Id>, chain: seq<Id>, c: seq<Id>, mid: Id)
    requires IsChain(parents, chain) && chain != [] && mid == parents[chain[|chain| - 1]]
    requires mid == "" || mid !in parents || mid in chain
    requires IsChain(parents, c) && c != [] && c[0] == chain[0]
    ensures |c| <= |chain|
  {
    if |c| > |chain| {
      var n := |chain|;
      SameWalk(parents, c, chain, n - 1);
      assert c[n] == mid;
      if mid in chain {
        var i :| 0 <= i < n && chain[i] == mid;
        SameWalk(parents, c, chain, i);
      }
    }
  }

  // Terminates on every history, cyclic ones included, and despite its two early exits answers exactly:
  // is every chain shorter than the cap?
  method CausalBudget(history: seq<(Id, Id)>, maxRounds: int) returns (ok: bool)
    requires forall i :: 0 <= i < |history| ==> history[i].0 != ""
    ensures ok <==> maxRounds > 0 && forall c :: IsChain(Parents(history), c) ==> |c| < maxRounds
  {
    var parents := map[];
    for i := 0 to |history|
      invariant parents == Parents(history[..i])
    {
      assert history[..i + 1][..i] == history[..i];
      parents := parents[history[i].0 := history[i].1];
    }
    assert history[..|history|] == history;
    ParentsHaveNames(history);
    var longest := 0;
    var rest := parents.Keys;
    while rest != {}
      invariant rest <= parents.Keys && 0 <= longest && (longest < maxRounds || (longest == 0 && rest == parents.Keys))
      invariant forall c :: IsChain(parents, c) && c != [] && c[0] !in rest ==> |c| <= longest
      decreases rest
    {
      var mid :| mid in rest;
      rest := rest - {mid};
      var depth, chain := ChainLen(parents, mid, maxRounds);
      longest := Max(longest, depth);
      if longest >= maxRounds {
        assert IsChain(parents, chain);
        return false;
      }
    }
    assert IsChain(parents, []);
    return longest < maxRounds;
  }

  function Parents(history: seq<(Id, Id)>): map<Id, Id> {
    if history == [] then map[]
    else Parents(history[..|history| - 1])[history[|history| - 1].0 := history[|history| - 1].1]
  }

  lemma {:induction false} ParentsHaveNames(history: seq<(Id, Id)>)
    requires forall i :: 0 <= i < |history| ==> history[i].0 != ""
    ensures "" !in Parents(history)
  {
    if history != [] { ParentsHaveNames(history[..|history| - 1]); }
  }

  // A cycle does not exhaust the budget by itself: two messages that cite each other leave room.
  lemma ShortCyclesLeaveRoom()
    ensures var parents := Parents([("a", "b"), ("b", "a")]);
      parents["a"] == "b" && parents["b"] == "a" && forall c :: IsChain(parents, c) ==> |c| < 10
  {
    var h := [("a", "b"), ("b", "a")];
    var parents := Parents(h);
    assert h[..1] == [("a", "b")] && h[..1][..0] == [];
    assert Parents(h[..1]) == map["a" := "b"];
    assert parents == map["a" := "b", "b" := "a"];
    forall c | IsChain(parents, c) ensures |c| < 10 {
      ElemsSize(c);
      SubsetSize(Elems(c), {"a", "b"});
    }
  }
}
