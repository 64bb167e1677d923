// src/quaestor/core/executor_contract.py (_embedded_json_candidates): the bounded search of prose for a
// JSON object, against a recursive-descent matcher of balanced braces that knows about strings.
module Recovery {
  import opened Wrappers

  const MAX_TEXT := 200000
  const MAX_CANDIDATES := 50
  const MAX_OPENS := 25
  const MAX_SPANS_PER_OPEN := 8

  datatype Entry = Fence(text: string) | Brace(text: string)

  // ---- the scanner's view of the text --------------------------------------------------------------

  datatype Lex = Code | Str | Esc

  function Next(lex: Lex, c: char): Lex {
    match lex
    case Code => if c == '"' then Str else Code
    case Str => if c == '\\' then Esc else if c == '"' then Code else Str
    case Esc => Str
  }

  // The state before character j, having started as code at i.
  function LexAt(t: string, i: nat, j: nat): Lex
    requires i <= j <= |t|
  {
    if j == i then Code else Next(LexAt(t, i, j - 1), t[j - 1])
  }

  predicate Closer(t: string, i: nat, j: nat)
    requires i <= j < |t|
  {
    LexAt(t, i, j) == Code && t[j] == '}'
  }

  // Braces opened minus braces closed over t[i..j], strings skipped.
  function Depth(t: string, i: nat, j: nat): int
    requires i <= j <= |t|
  {
    if j == i then 0
    else Depth(t, i, j - 1) + if LexAt(t, i, j - 1) != Code then 0
                              else if t[j - 1] == '{' then 1 else if t[j - 1] == '}' then -1 else 0
  }

  function Closers(t: string, i: nat, j: nat): nat
    requires i <= j <= |t|
  {
    if j == i then 0 else Closers(t, i, j - 1) + if Closer(t, i, j - 1) then 1 else 0
  }

  // One candidate per closing brace met in t[i..j].
  function Spans(t: string, i: nat, j: nat): (r: seq<Entry>)
    requires i <= j <= |t|
    ensures |r| == Closers(t, i, j)
  {
    if j == i then [] else Spans(t, i, j - 1) + if Closer(t, i, j - 1) then [Brace(t[i..j])] else []
  }

  predicate LastSpan(t: string, i: nat, j: nat)
    requires i <= j < |t|
  {
    Closer(t, i, j) && (Depth(t, i, j + 1) <= 0 || Closers(t, i, j + 1) >= MAX_SPANS_PER_OPEN)
  }

  // Where the scan from i ends, if it has come as far as j.
  function Stop(t: string, i: nat, j: nat): (s: nat)
    requires i <= j <= |t|
    ensures j <= s <= |t|
    decreases |t| - j
  {
    if j == |t| then j else if LastSpan(t, i, j) then j + 1 else Stop(t, i, j + 1)
  }

  function SpansOf(t: string, i: nat): seq<Entry> {
    if i <= |t| then Spans(t, i, Stop(t, i, i)) else []
  }

  function FromOpens(t: string, opens: seq<nat>, out: seq<Entry>): seq<Entry> {
    if opens == [] then out
    else
      var next := out + SpansOf(t, opens[0]);
      if |next| >= MAX_CANDIDATES then next else FromOpens(t, opens[1..], next)
  }

  function Opens(t: string, n: nat): (r: seq<nat>)
    requires n <= |t|
    ensures forall a :: 0 <= a < |r| ==> r[a] < n && t[r[a]] == '{'
    ensures forall o: nat :: o < n && t[o] == '{' ==> o in r
    ensures forall a, b :: 0 <= a < b < |r| ==> r[a] < r[b]
  {
    if n == 0 then []
    else
      var front := Opens(t, n - 1);
      if t[n - 1] == '{' then front + [n - 1] else front
  }

  function FirstOpens(t: string): (r: seq<nat>)
    ensures |r| <= MAX_OPENS && forall a :: 0 <= a < |r| ==> r[a] < |t| && t[r[a]] == '{'
  {
    var all := Opens(t, |t|);
    if |all| <= MAX_OPENS then all else all[..MAX_OPENS]
  }

  // ---- fences --------------------------------------------------------------------------------------

  predicate Ticks(t: string, p: nat) {
    p + 3 <= |t| && t[p] == '`' && t[p + 1] == '`' && t[p + 2] == '`'
  }

  function TicksFrom(t: string, p: nat): (r: Option<nat>)
    ensures r.Some? ==> p <= r.value && Ticks(t, r.value) && forall q: nat :: p <= q < r.value ==> !Ticks(t, q)
    ensures r.None? ==> forall q: nat :: p <= q ==> !Ticks(t, q)
    decreases |t| - p
  {
    if p >= |t| then None else if Ticks(t, p) then Some(p) else TicksFrom(t, p + 1)
  }

  function NewlineFrom(t: string, p: nat): (r: Option<nat>)
    ensures r.Some? ==> p <= r.value < |t| && t[r.value] == '\n' && forall q: nat :: p <= q < r.value ==> t[q] != '\n'
    ensures r.None? ==> forall q: nat :: p <= q < |t| ==> t[q] != '\n'
    decreases |t| - p
  {
    if p >= |t| then None else if t[p] == '\n' then Some(p) else NewlineFrom(t, p + 1)
  }

  // The fence pattern at the start of t: three ticks, the rest of their line, then the shortest body
  // before three more. Where that body begins and ends.
  function FenceAt(t: string): (r: Option<(nat, nat)>)
    ensures r.Some? ==> 3 < r.value.0 <= r.value.1 && Ticks(t, 0) && Ticks(t, r.value.1) && t[r.value.0 - 1] == '\n'
    ensures r.Some? ==> forall q: nat :: r.value.0 <= q < r.value.1 ==> !Ticks(t, q)
  {
    var line := NewlineFrom(t, 3);
    if !Ticks(t, 0) || line.None? then None
    else
      var end := TicksFrom(t, line.value + 1);
      if end.None? then None else Some((line.value + 1, end.value))
  }

  // Every match, left to right, none overlapping another.
  function FenceBodies(t: string): seq<string> {
    if t == "" then []
    else match FenceAt(t)
      case Some(at) => [t[at.0..at.1]] + FenceBodies(t[at.1 + 3..])
      case None => FenceBodies(t[1..])
  }

  function StripRight(s: string): string {
    if s == "" || !IsSpace(s[|s| - 1]) then s else StripRight(s[..|s| - 1])
  }

  function Strip(s: string): string {
    if s == "" || !IsSpace(s[0]) then StripRight(s) else Strip(s[1..])
  }

  predicate AllSpace(s: string) {
    forall i :: 0 <= i < |s| ==> IsSpace(s[i])
  }

  lemma {:induction false} StripRightExactly(s: string) returns (back: string)
    ensures s == StripRight(s) + back && AllSpace(back)
    ensures StripRight(s) != "" ==> !IsSpace(StripRight(s)[|StripRight(s)| - 1])
    decreases s
  {
    back := "";
    if s != "" && IsSpace(s[|s| - 1]) {
      back := StripRightExactly(s[..|s| - 1]);
      back := back + [s[|s| - 1]];
    }
  }

  // Stripping takes white space off both ends, all of it, and nothing else.
  lemma {:induction false} StripExactly(s: string) returns (front: string, back: string)
    ensures s == front + Strip(s) + back && AllSpace(front) && AllSpace(back)
    ensures var r := Strip(s); r != "" ==> !IsSpace(r[0]) && !IsSpace(r[|r| - 1])
    decreases s
  {
    if s == "" || !IsSpace(s[0]) {
      front := "";
      back := StripRightExactly(s);
      assert s == StripRight(s) + back;
      if StripRight(s) != "" { assert StripRight(s)[0] == s[0]; }
    } else {
      front, back := StripExactly(s[1..]);
      front := [s[0]] + front;
      assert s == [s[0]] + s[1..];
    }
  }

  function FencedBlocks(t: string): seq<string> {
    var bodies := FenceBodies(t);
    seq(|bodies|, n requires 0 <= n < |bodies| => Strip(bodies[n]))
  }

  // Blocks that begin with a brace, up to the cap.
  function Fences(blocks: seq<string>): (r: seq<Entry>)
    ensures |r| <= MAX_CANDIDATES
    ensures forall e :: e in r ==> e.Fence? && e.text in blocks && e.text != "" && e.text[0] == '{'
  {
    if blocks == [] then []
    else
      var front := Fences(blocks[..|blocks| - 1]);
      var last := blocks[|blocks| - 1];
      if |front| < MAX_CANDIDATES && last != "" && last[0] == '{' then front + [Fence(last)] else front
  }

  function Scanned(text: string): string {
    if |text| <= MAX_TEXT then text else text[..MAX_TEXT]
  }

  function FencesOf(text: string): seq<Entry> {
    Fences(FencedBlocks(Scanned(text)))
  }

  // All candidates.
  function Candidates(text: string): seq<Entry> {
    if |FencesOf(text)| >= MAX_CANDIDATES then FencesOf(text)
    else FromOpens(Scanned(text), FirstOpens(Scanned(text)), FencesOf(text))
  }

  // ---- the scanner ---------------------------------------------------------------------------------

  method ScanOpen(t: string, i: nat, out0: seq<Entry>) returns (out: seq<Entry>)
    requires i < |t|
    ensures out == out0 + SpansOf(t, i)
  {
    out := out0;
    var depth, inStr, esc, taken := 0, false, false, 0;
    var j := i;
    while j < |t|
      invariant i <= j <= |t| && Stop(t, i, i) == Stop(t, i, j)
      invariant LexAt(t, i, j) == if esc then Esc else if inStr then Str else Code
      invariant esc ==> inStr
      invariant depth == Depth(t, i, j) && taken == Closers(t, i, j)
      invariant out == out0 + Spans(t, i, j)
    {
      var ch := t[j];
      j := j + 1;
      if inStr {
        if esc { esc := false; }
        else if ch == '\\' { esc := true; }
        else if ch == '"' { inStr := false; }
        continue;
      }
      if ch == '"' {
        inStr := true;
      } else if ch == '{' {
        depth := depth + 1;
      } else if ch == '}' {
        depth := depth - 1;
        out := out + [Brace(t[i..j])];
        taken := taken + 1;
        if depth <= 0 || taken >= MAX_SPANS_PER_OPEN {
          assert LastSpan(t, i, j - 1);
          return;
        }
      }
    }
  }

  method TakeFences(blocks: seq<string>) returns (out: seq<Entry>)
    ensures out == Fences(blocks)
  {
    out := [];
    for n := 0 to |blocks|
      invariant out == Fences(blocks[..n]) && |out| < MAX_CANDIDATES
    {
      assert blocks[..n + 1][..n] == blocks[..n];
      if blocks[n] != "" && blocks[n][0] == '{' {
        out := out + [Fence(blocks[n])];
        if |out| >= MAX_CANDIDATES {
          FencesStay(blocks, n + 1);
          return;
        }
      }
    }
    assert blocks[..|blocks|] == blocks;
  }

  method TakeSpans(t: string, opens: seq<nat>, out0: seq<Entry>) returns (out: seq<Entry>)
    requires forall n :: 0 <= n < |opens| ==> opens[n] < |t|
    ensures out == FromOpens(t, opens, out0)
  {
    out := out0;
    for n := 0 to |opens|
      invariant FromOpens(t, opens, out0) == FromOpens(t, opens[n..], out)
    {
      assert opens[n..][0] == opens[n] && opens[n..][1..] == opens[n + 1..];
      out := ScanOpen(t, opens[n], out);
      if |out| >= MAX_CANDIDATES { return; }
    }
  }

  method EmbeddedJsonCandidates(text: string) returns (out: seq<Entry>)
    ensures out == Candidates(text)
  {
    var t := Scanned(text);
    out := TakeFences(FencedBlocks(t));
    if |out| >= MAX_CANDIDATES { return; }
    out := TakeSpans(t, FirstOpens(t), out);
  }

  lemma {:induction false} FencesStay(blocks: seq<string>, n: nat)
    requires n <= |blocks| && |Fences(blocks[..n])| >= MAX_CANDIDATES
    ensures Fences(blocks) == Fences(blocks[..n])
    decreases |blocks|
  {
    if n == |blocks| {
      assert blocks[..n] == blocks;
    } else {
      assert blocks[..|blocks| - 1][..n] == blocks[..n];
      FencesStay(blocks[..|blocks| - 1], n);
    }
  }

  // ---- bounds --------------------------------------------------------------------------------------

  lemma {:induction false} StopBoundsClosers(t: string, i: nat, j: nat)
    requires i <= j <= |t| && Closers(t, i, j) < MAX_SPANS_PER_OPEN
    ensures Closers(t, i, Stop(t, i, j)) <= MAX_SPANS_PER_OPEN
    decreases |t| - j
  {
    if j < |t| && !LastSpan(t, i, j) { StopBoundsClosers(t, i, j + 1); }
  }

  lemma {:induction false} FromOpensBounded(t: string, opens: seq<nat>, out: seq<Entry>)
    requires |out| < MAX_CANDIDATES
    ensures |FromOpens(t, opens, out)| < MAX_CANDIDATES + MAX_SPANS_PER_OPEN
    decreases opens
  {
    if opens != [] {
      if opens[0] <= |t| { StopBoundsClosers(t, opens[0], opens[0]); }
      var next := out + SpansOf(t, opens[0]);
      if |next| < MAX_CANDIDATES { FromOpensBounded(t, opens[1..], next); }
    }
  }

  // What every candidate list is made of.
  ghost predicate Sound(e: Entry, t: string) {
    if e.Fence? then e.text in FencedBlocks(t) && e.text != "" && e.text[0] == '{'
    else |e.text| >= 2 && e.text[0] == '{' && e.text[|e.text| - 1] == '}' &&
         exists i, j :: 0 <= i <= j <= |t| && e.text == t[i..j]
  }

  lemma {:induction false} SpanAt(t: string, i: nat, j: nat, e: Entry) returns (k: nat)
    requires i <= j <= |t| && e in Spans(t, i, j)
    ensures i <= k < j && Closer(t, i, k) && e == Brace(t[i..k + 1])
    decreases j
  {
    if Closer(t, i, j - 1) && e == Brace(t[i..j]) { k := j - 1; } else { k := SpanAt(t, i, j - 1, e); }
  }

  lemma SpansAreSound(t: string, i: nat, e: Entry)
    requires i < |t| && t[i] == '{' && e in SpansOf(t, i)
    ensures Sound(e, t)
  {
    var k := SpanAt(t, i, Stop(t, i, i), e);
    assert e.text == t[i..k + 1] && e.text[0] == t[i] && e.text[|e.text| - 1] == t[k];
  }

  lemma {:induction false} FromOpensSound(t: string, opens: seq<nat>, out: seq<Entry>, e: Entry)
    requires (forall n :: 0 <= n < |opens| ==> opens[n] < |t| && t[opens[n]] == '{') && (e in out ==> Sound(e, t))
    requires e in FromOpens(t, opens, out)
    ensures Sound(e, t)
    decreases opens
  {
    if opens != [] {
      var next := out + SpansOf(t, opens[0]);
      if e in SpansOf(t, opens[0]) { SpansAreSound(t, opens[0], e); }
      if |next| < MAX_CANDIDATES { FromOpensSound(t, opens[1..], next, e); }
    }
  }

  // The list never has more than 57 entries (49 and then 8); within the first 200000 characters, each
  // fence candidate is a fenced block that begins with a brace, each brace candidate a '{'...'}' substring.
  lemma CandidatesAreBoundedAndSound(text: string)
    ensures |Candidates(text)| <= 57
    ensures forall e :: e in Candidates(text) ==> Sound(e, Scanned(text))
  {
    var t := Scanned(text);
    if |FencesOf(text)| < MAX_CANDIDATES { FromOpensBounded(t, FirstOpens(t), FencesOf(text)); }
    forall e | e in Candidates(text) ensures Sound(e, t) {
      if |FencesOf(text)| < MAX_CANDIDATES { FromOpensSound(t, FirstOpens(t), FencesOf(text), e); }
    }
  }

  // ---- the reference: recursive descent ------------------------------------------------------------

  // From inside a string: the position after its closing quote.
  function SkipString(t: string, j: nat): (r: Option<nat>)
    ensures r.Some? ==> j < r.value <= |t|
    decreases |t| - j
  {
    if j >= |t| then None
    else if t[j] == '"' then Some(j + 1)
    else if t[j] == '\\' then SkipString(t, j + 2)
    else SkipString(t, j + 1)
  }

  // From inside an object: the position after its closing brace.
  function Body(t: string, j: nat): (r: Option<nat>)
    ensures r.Some? ==> j < r.value <= |t|
    decreases |t| - j
  {
    if j >= |t| then None
    else if t[j] == '}' then Some(j + 1)
    else if t[j] == '{' then
      var inner := Body(t, j + 1);
      if inner.None? then None else Body(t, inner.value)
    else if t[j] == '"' then
      var after := SkipString(t, j + 1);
      if after.None? then None else Body(t, after.value)
    else Body(t, j + 1)
  }

  // The end of the balanced object that opens at i.
  function Match(t: string, i: nat): (r: Option<nat>)
    ensures r.Some? ==> i < r.value <= |t| && t[i] == '{'
  {
    if i < |t| && t[i] == '{' then Body(t, i + 1) else None
  }

  // Balanced from i, within the scanner's reach.
  predicate Reachable(t: string, i: nat) {
    Match(t, i).Some? && Closers(t, i, Match(t, i).value) <= MAX_SPANS_PER_OPEN
  }

  // The scanner stays in a string, at one depth, until the string ends.
  lemma {:induction false} StringIsSkipped(t: string, i: nat, j: nat)
    requires i <= j <= |t| && LexAt(t, i, j) == Str
    ensures var r := SkipString(t, j);
      var e := if r.Some? then r.value else |t|;
      (r.Some? ==> LexAt(t, i, e) == Code) && forall m :: j <= m <= e ==> Depth(t, i, m) == Depth(t, i, j)
    decreases |t| - j
  {
    if j < |t| {
      assert Depth(t, i, j + 1) == Depth(t, i, j);
      if t[j] == '"' {
      } else if t[j] == '\\' {
        if j + 1 < |t| {
          assert LexAt(t, i, j + 1) == Esc && LexAt(t, i, j + 2) == Str;
          assert Depth(t, i, j + 2) == Depth(t, i, j);
          StringIsSkipped(t, i, j + 2);
        }
      } else {
        StringIsSkipped(t, i, j + 1);
      }
    }
  }

  ghost predicate AtLeast(t: string, i: nat, from: nat, to: nat, d: int)
    requires i <= from
  {
    forall m :: from <= m < to && m <= |t| ==> Depth(t, i, m) >= d
  }

  // The depth first falls below its value at j exactly where the object enclosing j ends.
  lemma {:induction false} BodyIsFirstFall(t: string, i: nat, j: nat, d: int)
    requires i <= j <= |t| && LexAt(t, i, j) == Code && Depth(t, i, j) == d
    ensures var r := Body(t, j);
      if r.Some? then LexAt(t, i, r.value) == Code && Depth(t, i, r.value) == d - 1 && AtLeast(t, i, j, r.value, d)
      else AtLeast(t, i, j, |t| + 1, d)
    decreases |t| - j
  {
    if j < |t| && t[j] != '}' {
      if t[j] == '{' {
        assert Depth(t, i, j + 1) == d + 1;
        BodyIsFirstFall(t, i, j + 1, d + 1);
        var inner := Body(t, j + 1);
        if inner.Some? { BodyIsFirstFall(t, i, inner.value, d); }
      } else if t[j] == '"' {
        assert Depth(t, i, j + 1) == d;
        StringIsSkipped(t, i, j + 1);
        var after := SkipString(t, j + 1);
        if after.Some? { BodyIsFirstFall(t, i, after.value, d); }
      } else {
        assert Depth(t, i, j + 1) == d;
        BodyIsFirstFall(t, i, j + 1, d);
      }
    }
  }

  lemma {:induction false} ClosersGrow(t: string, i: nat, a: nat, b: nat)
    requires i <= a <= b <= |t|
    ensures Closers(t, i, a) <= Closers(t, i, b)
    decreases b - a
  {
    if a < b { ClosersGrow(t, i, a, b - 1); }
  }

  lemma {:induction false} StopsNoEarlier(t: string, i: nat, j: nat, e: nat)
    requires i <= j <= e <= |t| && (forall m :: j <= m < e ==> !LastSpan(t, i, m))
    ensures Stop(t, i, j) == Stop(t, i, e)
    decreases e - j
  {
    if j < e { StopsNoEarlier(t, i, j + 1, e); }
  }

  // THE SCANNER FINDS THE OBJECT. From any open brace, the scan contributes the exact balanced span that
  // recursive descent finds if and only if that span closes within eight string-aware closing braces.
  lemma BalancedSpanContributed(t: string, i: nat)
    requires Match(t, i).Some?
    ensures Brace(t[i..Match(t, i).value]) in SpansOf(t, i) <==> Reachable(t, i)
  {
    var e := Match(t, i).value;
    MatchIsFirstZero(t, i);
    if Reachable(t, i) {
      StopsThere(t, i, e);
      SpanIsTaken(t, i, e);
    } else { SpanIsMissed(t, i, e); }
  }

  // Where recursive descent ends is the first point where the scanner's depth is back to zero.
  lemma MatchIsFirstZero(t: string, i: nat)
    requires Match(t, i).Some?
    ensures var e := Match(t, i).value;
      Closer(t, i, e - 1) && Depth(t, i, e) == 0 && forall m :: i < m < e ==> Depth(t, i, m) >= 1
  {
    assert LexAt(t, i, i) == Code && Depth(t, i, i + 1) == 1;
    BodyIsFirstFall(t, i, i + 1, 1);
    var e := Match(t, i).value;
    assert Depth(t, i, e - 1) >= 1;
  }

  lemma StopsThere(t: string, i: nat, e: nat)
    requires i < e <= |t| && Closer(t, i, e - 1) && Depth(t, i, e) == 0 && Closers(t, i, e) <= MAX_SPANS_PER_OPEN
    requires forall m :: i < m < e ==> Depth(t, i, m) >= 1
    ensures Stop(t, i, i) == e
  {
    forall m | i <= m < e - 1 ensures !LastSpan(t, i, m) {
      ClosersGrow(t, i, m + 1, e - 1);
    }
    StopsNoEarlier(t, i, i, e - 1);
    assert LastSpan(t, i, e - 1);
  }

  lemma SpanIsTaken(t: string, i: nat, e: nat)
    requires i < e <= |t| && Closer(t, i, e - 1) && Stop(t, i, i) == e
    ensures Brace(t[i..e]) in SpansOf(t, i)
  {
    assert Spans(t, i, e) == Spans(t, i, e - 1) + [Brace(t[i..e])];
  }

  lemma {:induction false} SpansEndEarlier(t: string, i: nat, j: nat, e: nat)
    requires i <= j < e <= |t|
    ensures Brace(t[i..e]) !in Spans(t, i, j)
    decreases j
  {
    if j > i {
      SpansEndEarlier(t, i, j - 1, e);
      assert |t[i..j]| == j - i && |t[i..e]| == e - i;
    }
  }

  lemma SpanIsMissed(t: string, i: nat, e: nat)
    requires i < e <= |t| && Closers(t, i, e) > MAX_SPANS_PER_OPEN
    ensures Brace(t[i..e]) !in SpansOf(t, i)
  {
    StopBoundsClosers(t, i, i);
    if Stop(t, i, i) >= e { ClosersGrow(t, i, e, Stop(t, i, i)); } else { SpansEndEarlier(t, i, Stop(t, i, i), e); }
  }

  // And it is in the list whenever that brace is reached before the cap.
  lemma {:induction false} ReachedOpensContribute(t: string, opens: seq<nat>, out: seq<Entry>, n: nat, e: Entry)
    requires n < |opens| && e in SpansOf(t, opens[n])
    requires n == 0 || |FromOpens(t, opens[..n], out)| < MAX_CANDIDATES
    ensures e in FromOpens(t, opens, out)
    decreases opens
  {
    var next := out + SpansOf(t, opens[0]);
    if n == 0 {
      if |next| < MAX_CANDIDATES { FromOpensKeeps(t, opens[1..], next, e); }
    } else {
      assert opens[..n][0] == opens[0] && opens[..n][1..] == opens[1..][..n - 1];
      assert opens[1..][n - 1] == opens[n];
      if |next| < MAX_CANDIDATES { ReachedOpensContribute(t, opens[1..], next, n - 1, e); }
    }
  }

  lemma {:induction false} FromOpensKeeps(t: string, opens: seq<nat>, out: seq<Entry>, e: Entry)
    requires e in out
    ensures e in FromOpens(t, opens, out)
    decreases opens
  {
    if opens != [] {
      var next := out + SpansOf(t, opens[0]);
      if |next| < MAX_CANDIDATES { FromOpensKeeps(t, opens[1..], next, e); }
    }
  }

  // So a balanced object at one of the first 25 braces, reached before the cap and closing within eight
  // closing braces, is among the candidates.
  lemma ObjectsAreFound(text: string, n: nat)
    requires n < |FirstOpens(Scanned(text))| && Reachable(Scanned(text), FirstOpens(Scanned(text))[n])
    requires |FencesOf(text)| < MAX_CANDIDATES
    requires |FromOpens(Scanned(text), FirstOpens(Scanned(text))[..n], FencesOf(text))| < MAX_CANDIDATES
    ensures var t, i := Scanned(text), FirstOpens(Scanned(text))[n];
      Brace(t[i..Match(t, i).value]) in Candidates(text)
  {
    var t := Scanned(text);
    var opens := FirstOpens(t);
    BalancedSpanContributed(t, opens[n]);
    ReachedOpensContribute(t, opens, FencesOf(text), n, Brace(t[opens[n]..Match(t, opens[n]).value]));
  }

  // ---- the bound is attained -----------------------------------------------------------------------

  // Eight open braces, then eight closing ones.
  const NESTED := "{{{{{{{{}}}}}}}}"

  // The same in a fence.
  const FENCED := "```\n{{{{{{{{}}}}}}}}\n```"

  function Repeat(u: string, n: nat): string {
    if n == 0 then "" else u + Repeat(u, n - 1)
  }

  lemma {:induction false} NestedDepth(t: string, i: nat, j: nat)
    requires i + 16 <= |t| && t[i..i + 16] == NESTED && j <= 16
    ensures LexAt(t, i, i + j) == Code
    ensures Depth(t, i, i + j) == if j <= 8 then j else 16 - j
    ensures Closers(t, i, i + j) == if j <= 8 then 0 else j - 8
  {
    if j > 0 {
      NestedDepth(t, i, j - 1);
      assert t[i..i + 16][j - 1] == NESTED[j - 1] == if j <= 8 then '{' else '}';
    }
  }

  lemma {:induction false} NestedSpans(t: string, i: nat)
    requires i + 16 <= |t| && t[i..i + 16] == NESTED
    ensures |SpansOf(t, i)| == 8
  {
    NestedDepth(t, i, 16);
    forall m | i <= m < i + 15 ensures !LastSpan(t, i, m) { NestedDepth(t, i, m - i + 1); }
    StopsNoEarlier(t, i, i, i + 15);
    NestedDepth(t, i, 15);
    assert t[i..i + 16][15] == '}';
    assert LastSpan(t, i, i + 15);
  }

  // A text whose first characters are one fence around `body`, with no other tick in them.
  predicate StartsFenced(t: string, body: string) {
    |t| >= |body| + 7 && Ticks(t, 0) && t[3] == '\n' && Ticks(t, 4 + |body|) && t[4..4 + |body|] == body &&
    forall k :: 0 <= k < |body| ==> body[k] != '`'
  }

  lemma FirstFence(t: string, body: string)
    requires StartsFenced(t, body)
    ensures FenceBodies(t) == [body] + FenceBodies(t[|body| + 7..])
  {
    assert forall k :: 4 <= k < 4 + |body| ==> t[k] == body[k - 4];
    assert TicksFrom(t, 4) == Some(4 + |body|);
    assert NewlineFrom(t, 3) == Some(3);
  }

  // A fence and nothing else.
  predicate IsFence(u: string, body: string) {
    |u| == |body| + 7 && StartsFenced(u, body)
  }

  lemma FenceStarts(u: string, body: string, rest: string)
    requires IsFence(u, body)
    ensures (u + rest)[|body| + 7..] == rest && StartsFenced(u + rest, body)
  {
    assert (u + rest)[4..4 + |body|] == u[4..4 + |body|];
  }

  function Copies(body: string, n: nat): (r: seq<string>)
    ensures |r| == n && forall k :: 0 <= k < n ==> r[k] == body
  {
    seq(n, _ => body)
  }

  lemma {:induction false} RepeatedLength(u: string, m: nat, n: nat)
    requires |u| == m
    ensures |Repeat(u, n)| == m * n
    decreases n
  {
    if n > 0 {
      RepeatedLength(u, m, n - 1);
      assert m * n == m * (n - 1) + m;
    }
  }

  lemma FenceThenRest(u: string, body: string, rest: string)
    requires IsFence(u, body)
    ensures FenceBodies(u + rest) == [body] + FenceBodies(rest)
  {
    FenceStarts(u, body, rest);
    FirstFence(u + rest, body);
  }

  lemma {:induction false} RepeatedFences(u: string, body: string, n: nat)
    requires IsFence(u, body)
    ensures FenceBodies(Repeat(u, n)) == Copies(body, n)
    decreases n
  {
    if n == 0 {
      assert FenceBodies("") == [];
    } else {
      RepeatedFences(u, body, n - 1);
      FenceThenRest(u, body, Repeat(u, n - 1));
      assert [body] + Copies(body, n - 1) == Copies(body, n);
    }
  }

  lemma FencedIsFence()
    ensures IsFence(FENCED, NESTED + "\n")
  {
    assert FENCED[4..21] == NESTED + "\n";
  }

  lemma NestedStrips(s: string)
    requires s == NESTED + "\n"
    ensures Strip(s) == NESTED
  {
    assert s[..16] == NESTED && s[16] == '\n' && s[0] == '{' && s[15] == '}';
    assert StripRight(s) == StripRight(s[..16]);
  }

  lemma {:induction false} AllAreTaken(blocks: seq<string>)
    requires |blocks| <= MAX_CANDIDATES && forall n :: 0 <= n < |blocks| ==> blocks[n] == NESTED
    ensures |Fences(blocks)| == |blocks|
  {
    if blocks != [] {
      AllAreTaken(blocks[..|blocks| - 1]);
    }
  }

  lemma {:induction false} NoOpens(t: string, k: nat)
    requires k <= |t| && forall m :: 0 <= m < k ==> t[m] != '{'
    ensures Opens(t, k) == []
  {
    if k > 0 { NoOpens(t, k - 1); }
  }

  lemma {:induction false} OpensFirst(t: string, n: nat, k: nat)
    requires k < n <= |t| && t[k] == '{' && forall m :: 0 <= m < k ==> t[m] != '{'
    ensures Opens(t, n) != [] && Opens(t, n)[0] == k
    decreases n
  {
    if n > k + 1 { OpensFirst(t, n - 1, k); } else { NoOpens(t, k); }
  }

  // Eight spans come on top of the fences, all from the first open.
  lemma EightMore(t: string, i: nat)
    requires i + 16 <= |t| <= MAX_TEXT && t[i..i + 16] == NESTED && forall m :: 0 <= m < i ==> t[m] != '{'
    requires 42 <= |FencesOf(t)| < MAX_CANDIDATES
    ensures |Candidates(t)| == |FencesOf(t)| + 8
  {
    assert t[i..i + 16][0] == t[i] && NESTED[0] == '{';
    OpensFirst(t, |t|, i);
    NestedSpans(t, i);
  }

  lemma RepeatStarts(u: string, n: nat)
    requires n > 0 && IsFence(u, NESTED + "\n")
    ensures |Repeat(u, n)| >= 24 && Repeat(u, n)[4..20] == NESTED && forall m :: 0 <= m < 4 ==> Repeat(u, n)[m] != '{'
  {
    var t := u + Repeat(u, n - 1);
    assert t[4..20] == u[4..21][..16] == NESTED;
    assert t[0] == u[0] && t[1] == u[1] && t[2] == u[2] && t[3] == u[3];
  }

  lemma {:induction false} RepeatedBlocks(u: string, n: nat)
    requires IsFence(u, NESTED + "\n") && n < MAX_CANDIDATES
    ensures |Repeat(u, n)| == 24 * n && |FencesOf(Repeat(u, n))| == n
  {
    RepeatedLength(u, 24, n);
    RepeatedFences(u, NESTED + "\n", n);
    NestedStrips(NESTED + "\n");
    AllAreTaken(FencedBlocks(Repeat(u, n)));
  }

  // Forty-nine fences, each around eight nested braces: 49 fence candidates, one short of the cap, and
  // then all eight spans of the first brace. 57, seven over the cap the source names; so is every number
  // of candidates from 50 on.
  lemma {:induction false} FiftySevenIsAttained(n: nat)
    requires 42 <= n <= 49
    ensures |FencesOf(Repeat(FENCED, n))| == n && |Candidates(Repeat(FENCED, n))| == n + 8
  {
    FencedIsFence();
    RepeatStarts(FENCED, n);
    RepeatedBlocks(FENCED, n);
    EightMore(Repeat(FENCED, n), 4);
  }
}
