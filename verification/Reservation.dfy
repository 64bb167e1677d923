// src/quaestor/core/corerelay.py: reserve_request as the sequence of file-system calls it makes, any
// number of callers interleaved, any of them failing or dying at any call; and the request key.
module Reservation {
  import opened Wrappers
  import opened Runs

  // What a file holds. A torn file reads back as no reservation.
  datatype Content = Torn | Whole(relay: string)

  // What a caller does next.
  datatype Phase =
    | Start | Opened(fd: nat) | Written | Fallback | Creating(fd: nat) | Winner | Beaten | Done(ret: string) | Dead

  datatype Caller = Caller(tmp: nat, relay: string, phase: Phase)

  // files: by inode. temps: which inode each temporary name names. path: the reservation's.
  // won: the relay the path was taken for (nothing stores it).
  datatype Sys = Sys(callers: seq<Caller>, files: seq<Content>, temps: map<nat, nat>, path: Option<nat>,
                     won: Option<string>)

  // fails: the call raises an OSError other than "it exists".
  datatype Action = Go(i: nat, fails: bool) | Crash(i: nat) | Release

  function At(s: Sys, i: nat, phase: Phase): Sys
    requires i < |s.callers|
  {
    s.(callers := s.callers[i := s.callers[i].(phase := phase)])
  }

  function Unlink(s: Sys, tmp: nat): Sys {
    s.(temps := s.temps - {tmp})
  }

  // open(tmp, "w"): truncates the file the name already names, or makes a new one.
  function Open(s: Sys, i: nat): Sys
    requires i < |s.callers|
  {
    var tmp := s.callers[i].tmp;
    if tmp in s.temps && s.temps[tmp] < |s.files|
    then At(s.(files := s.files[s.temps[tmp] := Torn]), i, Opened(s.temps[tmp]))
    else At(s.(files := s.files + [Torn], temps := s.temps[tmp := |s.files|]), i, Opened(|s.files|))
  }

  // link(tmp, path): the path now names the very file the temporary names.
  function Link(s: Sys, i: nat): Sys
    requires i < |s.callers|
  {
    var c := s.callers[i];
    if c.tmp !in s.temps then At(s, i, Fallback)
    else if s.path.Some? then At(s, i, Beaten)
    else At(s.(path := Some(s.temps[c.tmp]), won := Some(c.relay)), i, Winner)
  }

  // The relay a reservation names, or "" when it is absent or torn.
  function NamedBy(files: seq<Content>, path: Option<nat>): string {
    if path.Some? && path.value < |files| && files[path.value].Whole? then files[path.value].relay else ""
  }

  function ReadPath(s: Sys): string {
    NamedBy(s.files, s.path)
  }

  function WriteTo(s: Sys, fd: nat, relay: string): Sys {
    if fd < |s.files| then s.(files := s.files[fd := Whole(relay)]) else s
  }

  function Advance(s: Sys, i: nat, fails: bool): Sys
    requires i < |s.callers|
  {
    var c := s.callers[i];
    match c.phase
    case Start => if fails then At(Unlink(s, c.tmp), i, Done("")) else Open(s, i)
    case Opened(fd) => if fails then At(Unlink(s, c.tmp), i, Done("")) else At(WriteTo(s, fd, c.relay), i, Written)
    case Written => if fails then At(s, i, Fallback) else Link(s, i)
    case Fallback =>
      if s.path.Some? then At(s, i, Beaten)
      else if fails then At(Unlink(s, c.tmp), i, Done(""))
      else At(s.(files := s.files + [Torn], path := Some(|s.files|), won := Some(c.relay)), i, Creating(|s.files|))
    case Creating(fd) => if fails then At(Unlink(s, c.tmp), i, Done("")) else At(WriteTo(s, fd, c.relay), i, Winner)
    case Winner => At(Unlink(s, c.tmp), i, Done(c.relay))
    case Beaten => At(Unlink(s, c.tmp), i, Done(ReadPath(s)))
    case _ => s
  }

  function Step(s: Sys, a: Action): Sys {
    match a
    case Go(i, fails) => if i < |s.callers| then Advance(s, i, fails) else s
    case Crash(i) =>
      if i < |s.callers| && !s.callers[i].phase.Done? then At(s, i, Dead) else s
    case Release => s.(path := None, won := None)
  }

  function Machine(): (Sys, Action) -> Sys { (s, a) => Step(s, a) }

  predicate NoRelease(s: Sys, a: Action) {
    !a.Release?
  }

  // ---- the invariant -------------------------------------------------------------------------------

  // Each caller has a temporary name of its own.
  predicate OwnTemps(s: Sys) {
    forall i, j :: 0 <= i < j < |s.callers| ==> s.callers[i].tmp != s.callers[j].tmp
  }

  // The temporary a caller writes or is about to link is a file nobody else can reach.
  predicate Private(s: Sys, i: nat, fd: nat)
    requires i < |s.callers|
  {
    fd < |s.files| && s.path != Some(fd) && s.callers[i].tmp in s.temps && s.temps[s.callers[i].tmp] == fd
  }

  predicate CallerInv(s: Sys, i: nat)
    requires i < |s.callers|
  {
    var c := s.callers[i];
    c.relay != "" &&
    match c.phase
    case Start => c.tmp !in s.temps
    case Opened(fd) => Private(s, i, fd)
    case Written =>
      c.tmp in s.temps && Private(s, i, s.temps[c.tmp]) && s.files[s.temps[c.tmp]] == Whole(c.relay)
    case Creating(fd) => s.path == Some(fd) && s.won == Some(c.relay) && s.temps.Values !! {fd}
    case Winner => s.won == Some(c.relay) && ReadPath(s) == c.relay
    case Beaten => s.path.Some?
    case Done(r) => r != "" ==> s.won == Some(r) && ReadPath(s) == r
    case _ => true
  }

  // The published file is torn or names the winner; no two temporary names share a file, and the
  // published one can be reached only through its winner's temporary.
  predicate FilesInv(s: Sys) {
    (forall t :: t in s.temps ==> s.temps[t] < |s.files|) &&
    (forall t, u :: t in s.temps && u in s.temps && t != u ==> s.temps[t] != s.temps[u]) &&
    (s.path.Some? <==> s.won.Some?) &&
    (s.path.Some? ==> (s.path.value < |s.files| && s.won.value != "" &&
                       (s.files[s.path.value] == Torn || s.files[s.path.value] == Whole(s.won.value))))
  }

  predicate Inv(s: Sys) {
    OwnTemps(s) && FilesInv(s) && forall i :: 0 <= i < |s.callers| ==> CallerInv(s, i)
  }

  // What one caller's step does to the rest, as far as the others care.
  predicate Spares(s: Sys, t: Sys, i: nat) {
    |t.callers| == |s.callers| && (forall j :: 0 <= j < |s.callers| && j != i ==> t.callers[j] == s.callers[j]) &&
    (forall j :: 0 <= j < |s.callers| && j != i ==> CallerInv(t, j))
  }

  lemma OthersKept(s: Sys, i: nat, fails: bool)
    requires Inv(s) && i < |s.callers|
    ensures Spares(s, Advance(s, i, fails), i)
  {
    var t := Advance(s, i, fails);
    forall j | 0 <= j < |s.callers| && j != i ensures CallerInv(t, j) {
      OtherKept(s, i, fails, j);
    }
  }

  lemma OtherKept(s: Sys, i: nat, fails: bool, j: nat)
    requires Inv(s) && i < |s.callers| && j < |s.callers| && j != i
    ensures |Advance(s, i, fails).callers| == |s.callers| && Advance(s, i, fails).callers[j] == s.callers[j]
    ensures CallerInv(Advance(s, i, fails), j)
  {
    assert CallerInv(s, i) && CallerInv(s, j);
    assert s.callers[i].tmp != s.callers[j].tmp;
  }

  lemma SelfKept(s: Sys, i: nat, fails: bool)
    requires Inv(s) && i < |s.callers|
    ensures i < |Advance(s, i, fails).callers| && CallerInv(Advance(s, i, fails), i) && FilesInv(Advance(s, i, fails))
    ensures Advance(s, i, fails).callers[i].tmp == s.callers[i].tmp
  {
    assert CallerInv(s, i);
  }

  lemma StepKeepsInv(s: Sys, a: Action)
    requires Inv(s) && !a.Release?
    ensures Inv(Step(s, a))
  {
    match a
    case Go(i, fails) =>
      if i < |s.callers| {
        SelfKept(s, i, fails);
        OthersKept(s, i, fails);
      }
    case Crash(i) =>
      if i < |s.callers| {
        forall j | 0 <= j < |s.callers| ensures CallerInv(Step(s, a), j) { assert CallerInv(s, j); }
      }
  }

  lemma InvHolds(s: Sys, es: seq<Action>)
    requires Inv(s) && Allowed(Machine(), NoRelease, s, es)
    ensures Inv(Run(Machine(), s, es))
  {
    forall t, a | Inv(t) && NoRelease(t, a) ensures Inv(Machine()(t, a)) { StepKeepsInv(t, a); }
    InvariantHolds(Machine(), NoRelease, Inv, s, es);
  }

  // RETRIES CONVERGE. Callers with temporary files of their own, interleaved call by call, each on the
  // hard-link or the exclusive-create path, each failing or dying anywhere: between releases, all relay
  // ids returned are equal, and any relay id returned is the one the reservation file holds, whole.
  lemma ReservationsConverge(s: Sys, es: seq<Action>, i: nat, j: nat)
    requires Inv(s) && Allowed(Machine(), NoRelease, s, es)
    requires var t := Run(Machine(), s, es);
      i < |t.callers| && j < |t.callers| && t.callers[i].phase.Done? && t.callers[j].phase.Done? &&
      t.callers[i].phase.ret != "" && t.callers[j].phase.ret != ""
    ensures var t := Run(Machine(), s, es);
      t.callers[i].phase.ret == t.callers[j].phase.ret && ReadPath(t) == t.callers[i].phase.ret
  {
    InvHolds(s, es);
    var t := Run(Machine(), s, es);
    assert CallerInv(t, i) && CallerInv(t, j);
  }

  // Any callers about to start, with distinct fresh names, over a free or a taken path.
  lemma StartsAreFine(callers: seq<Caller>, files: seq<Content>, path: Option<nat>, won: Option<string>)
    requires forall i, j :: 0 <= i < j < |callers| ==> callers[i].tmp != callers[j].tmp
    requires forall i :: 0 <= i < |callers| ==> callers[i].phase == Start && callers[i].relay != ""
    requires path.Some? <==> won.Some?
    requires path.Some? ==> path.value < |files| && won.value != "" &&
                            (files[path.value] == Torn || files[path.value] == Whole(won.value))
    ensures Inv(Sys(callers, files, map[], path, won))
  {
  }

  // ---- a shared temporary --------------------------------------------------------------------------

  // Callers of one free key, none of them begun, each with a relay id of its own.
  predicate Fresh(s: Sys) {
    s.path == None && s.won == None && s.temps == map[] &&
    (forall i :: 0 <= i < |s.callers| ==> s.callers[i].phase == Start && s.callers[i].relay != "") &&
    forall i, j :: 0 <= i < j < |s.callers| ==> s.callers[i].relay != s.callers[j].relay
  }

  predicate Sharing(s: Sys, i: nat, j: nat) {
    i < |s.callers| && j < |s.callers| && i != j && s.callers[i].tmp == s.callers[j].tmp
  }

  // Two callers have moved, the others stand at their start.
  function Duo(s: Sys, i: nat, j: nat, p: Phase, q: Phase): (cs: seq<Caller>)
    requires Sharing(s, i, j)
    ensures |cs| == |s.callers| && cs[i] == s.callers[i].(phase := p) && cs[j] == s.callers[j].(phase := q)
  {
    s.callers[i := s.callers[i].(phase := p)][j := s.callers[j].(phase := q)]
  }

  // With one file made, the temporary naming it, and the path, once taken, naming the same file.
  function Scene(s: Sys, i: nat, j: nat, p: Phase, q: Phase, held: Content, linked: bool): Sys
    requires Sharing(s, i, j)
  {
    Sys(Duo(s, i, j, p, q), s.files + [held], map[s.callers[i].tmp := |s.files|],
        if linked then Some(|s.files|) else None, if linked then Some(s.callers[i].relay) else None)
  }

  lemma DuoMoves(s: Sys, i: nat, j: nat, p: Phase, q: Phase, next: Phase)
    requires Sharing(s, i, j)
    ensures Duo(s, i, j, p, q)[i := s.callers[i].(phase := next)] == Duo(s, i, j, next, q)
    ensures Duo(s, i, j, p, q)[j := s.callers[j].(phase := next)] == Duo(s, i, j, p, next)
  {
  }

  lemma SceneFiles(s: Sys, held: Content, next: Content)
    ensures (s.files + [held])[|s.files| := next] == s.files + [next]
  {
  }

  // The first caller opens, writes and links.
  lemma FirstLinks(s: Sys, i: nat, j: nat)
    requires Fresh(s) && Sharing(s, i, j)
    ensures Run(Machine(), s, [Go(i, false), Go(i, false), Go(i, false)]) ==
            Scene(s, i, j, Winner, Start, Whole(s.callers[i].relay), true)
  {
    var fd := |s.files|;
    var s1 := Scene(s, i, j, Opened(fd), Start, Torn, false);
    var s2 := Scene(s, i, j, Written, Start, Whole(s.callers[i].relay), false);
    assert Duo(s, i, j, Start, Start) == s.callers;
    DuoMoves(s, i, j, Start, Start, Opened(fd));
    DuoMoves(s, i, j, Opened(fd), Start, Written);
    DuoMoves(s, i, j, Written, Start, Winner);
    SceneFiles(s, Torn, Whole(s.callers[i].relay));
    assert Step(s, Go(i, false)) == s1;
    assert Step(s1, Go(i, false)) == s2;
    var trace := [s, s1, s2, Scene(s, i, j, Winner, Start, Whole(s.callers[i].relay), true)];
    RunTrace(Machine(), trace, [Go(i, false), Go(i, false), Go(i, false)]);
  }

  // The second opens the same temporary, and so empties the published file; writes it; finds the path taken.
  lemma SecondOverwrites(s: Sys, i: nat, j: nat, p: Phase)
    requires Sharing(s, i, j)
    ensures Run(Machine(), Scene(s, i, j, p, Start, Whole(s.callers[i].relay), true),
                [Go(j, false), Go(j, false), Go(j, false)]) ==
            Scene(s, i, j, p, Beaten, Whole(s.callers[j].relay), true)
  {
    var fd := |s.files|;
    var s0 := Scene(s, i, j, p, Start, Whole(s.callers[i].relay), true);
    var s1 := Scene(s, i, j, p, Opened(fd), Torn, true);
    var s2 := Scene(s, i, j, p, Written, Whole(s.callers[j].relay), true);
    DuoMoves(s, i, j, p, Start, Opened(fd));
    DuoMoves(s, i, j, p, Opened(fd), Written);
    DuoMoves(s, i, j, p, Written, Beaten);
    SceneFiles(s, Whole(s.callers[i].relay), Torn);
    SceneFiles(s, Torn, Whole(s.callers[j].relay));
    var trace := [s0, s1, s2, Scene(s, i, j, p, Beaten, Whole(s.callers[j].relay), true)];
    assert Step(s0, Go(j, false)) == s1;
    assert Step(s1, Go(j, false)) == s2;
    RunTrace(Machine(), trace, [Go(j, false), Go(j, false), Go(j, false)]);
  }

  // Both clean up: the first answers its own relay, the second what it now reads.
  lemma BothReturn(s: Sys, i: nat, j: nat)
    requires Sharing(s, i, j)
    ensures var t := Run(Machine(), Scene(s, i, j, Winner, Beaten, Whole(s.callers[j].relay), true),
                         [Go(i, false), Go(j, false)]);
      |t.callers| == |s.callers| &&
      t.callers[i].phase == Done(s.callers[i].relay) && t.callers[j].phase == Done(s.callers[j].relay)
  {
    var s0 := Scene(s, i, j, Winner, Beaten, Whole(s.callers[j].relay), true);
    var s1 := Step(s0, Go(i, false));
    TwoSteps(Machine(), (t, a) => 0, s0, Go(i, false), s1, Go(j, false));
  }

  // The name carries only the process id, so threads of one process share it. Two callers that share it,
  // everyone else standing still, return two different relays for one key.
  lemma SharedTemporaryDiverges(s: Sys, i: nat, j: nat) returns (es: seq<Action>)
    requires Fresh(s) && Sharing(s, i, j)
    ensures Allowed(Machine(), NoRelease, s, es)
    ensures var t := Run(Machine(), s, es);
      |t.callers| == |s.callers| &&
      t.callers[i].phase == Done(s.callers[i].relay) && t.callers[j].phase == Done(s.callers[j].relay)
  {
    var first, second := [Go(i, false), Go(i, false), Go(i, false)], [Go(j, false), Go(j, false), Go(j, false)];
    var last := [Go(i, false), Go(j, false)];
    FirstLinks(s, i, j);
    SecondOverwrites(s, i, j, Winner);
    BothReturn(s, i, j);
    es := first + (second + last);
    RunConcat(Machine(), s, first, second + last);
    RunConcat(Machine(), Run(Machine(), s, first), second, last);
    NoneReleases(s, es);
  }

  lemma {:induction false} NoneReleases(s: Sys, es: seq<Action>)
    requires forall e :: e in es ==> !e.Release?
    ensures Allowed(Machine(), NoRelease, s, es)
    decreases es
  {
    if es != [] {
      NoneReleases(Machine()(s, es[0]), es[1..]);
    }
  }

  lemma LinksAndDies(s: Sys, i: nat, j: nat)
    requires Fresh(s) && Sharing(s, i, j)
    ensures Run(Machine(), s, [Go(i, false), Go(i, false), Go(i, false)] + [Crash(i)]) ==
            Scene(s, i, j, Dead, Start, Whole(s.callers[i].relay), true)
  {
    FirstLinks(s, i, j);
    RunConcat(Machine(), s, [Go(i, false), Go(i, false), Go(i, false)], [Crash(i)]);
    DiesLinked(s, i, j);
  }

  lemma DiesLinked(s: Sys, i: nat, j: nat)
    requires Sharing(s, i, j)
    ensures Run(Machine(), Scene(s, i, j, Winner, Start, Whole(s.callers[i].relay), true), [Crash(i)]) ==
            Scene(s, i, j, Dead, Start, Whole(s.callers[i].relay), true)
  {
    DuoMoves(s, i, j, Winner, Start, Dead);
    OneStep(Machine(), (t, a) => 0, Scene(s, i, j, Winner, Start, Whole(s.callers[i].relay), true), Crash(i));
  }

  lemma LastReturns(s: Sys, i: nat, j: nat)
    requires Sharing(s, i, j)
    ensures var t := Run(Machine(), Scene(s, i, j, Dead, Beaten, Whole(s.callers[j].relay), true), [Go(j, false)]);
      |t.callers| == |s.callers| && t.callers[j].phase == Done(s.callers[j].relay) && ReadPath(t) == s.callers[j].relay
  {
    OneStep(Machine(), (t, a) => 0, Scene(s, i, j, Dead, Beaten, Whole(s.callers[j].relay), true), Go(j, false));
  }

  // So does a later process with the id of one that died after linking: the reservation on record, which
  // any retry was answered with until then, is replaced under its key without a release.
  lemma ReusedTemporaryReplaces(s: Sys, i: nat, j: nat) returns (before: seq<Action>, after: seq<Action>)
    requires Fresh(s) && Sharing(s, i, j)
    ensures Allowed(Machine(), NoRelease, s, before + after)
    ensures var t := Run(Machine(), s, before);
      |t.callers| == |s.callers| && t.callers[i].phase == Dead && t.callers[j].phase == Start &&
      ReadPath(t) == s.callers[i].relay
    ensures var t := Run(Machine(), s, before + after);
      |t.callers| == |s.callers| && t.callers[j].phase == Done(s.callers[j].relay) && ReadPath(t) == s.callers[j].relay
  {
    var first, second := [Go(i, false), Go(i, false), Go(i, false)], [Go(j, false), Go(j, false), Go(j, false)];
    before, after := first + [Crash(i)], second + [Go(j, false)];
    LinksAndDies(s, i, j);
    SecondOverwrites(s, i, j, Dead);
    RunConcat(Machine(), s, before, after);
    RunConcat(Machine(), Run(Machine(), s, before), second, [Go(j, false)]);
    LastReturns(s, i, j);
    NoneReleases(s, before + after);
  }

  // Every relay returned is the one on record.
  predicate Agree(s: Sys) {
    forall i :: 0 <= i < |s.callers| && s.callers[i].phase.Done? && s.callers[i].phase.ret != "" ==>
      s.callers[i].phase.ret == ReadPath(s)
  }

  ghost predicate Converges(s: Sys, es: seq<Action>) {
    Allowed(Machine(), NoRelease, s, es) ==> Agree(Run(Machine(), s, es))
  }

  // WHEN RETRIES CONVERGE. Callers about to start on a free key agree under every schedule without a
  // release exactly if no two of them share a temporary name.
  lemma {:induction false} ReservationsConvergeExactly(s: Sys)
    requires Fresh(s)
    ensures (forall es :: Converges(s, es)) <==> OwnTemps(s)
  {
    if OwnTemps(s) {
      forall es ensures Converges(s, es) {
        if Allowed(Machine(), NoRelease, s, es) {
          InvHolds(s, es);
          AgreesByInv(Run(Machine(), s, es));
        }
      }
    } else {
      var i, j :| 0 <= i < j < |s.callers| && s.callers[i].tmp == s.callers[j].tmp;
      var es := SharedTemporaryDiverges(s, i, j);
      assert !Converges(s, es);
    }
  }

  lemma AgreesByInv(s: Sys)
    requires Inv(s)
    ensures Agree(s)
  {
    forall i | 0 <= i < |s.callers| && s.callers[i].phase.Done? && s.callers[i].phase.ret != ""
      ensures s.callers[i].phase.ret == ReadPath(s)
    {
      assert CallerInv(s, i);
    }
  }

  // Once a reservation is on record, it is the one on record after any further calls.
  ghost predicate RecordKept(s: Sys, xs: seq<Action>, ys: seq<Action>) {
    Allowed(Machine(), NoRelease, s, xs + ys) && ReadPath(Run(Machine(), s, xs)) != "" ==>
      ReadPath(Run(Machine(), s, xs + ys)) == ReadPath(Run(Machine(), s, xs))
  }

  lemma StepKeepsRecord(s: Sys, a: Action)
    requires Inv(s) && !a.Release? && ReadPath(s) != ""
    ensures ReadPath(Step(s, a)) == ReadPath(s)
  {
    if a.Go? && a.i < |s.callers| { assert CallerInv(s, a.i); }
  }

  lemma {:induction false} RunKeepsRecord(s: Sys, es: seq<Action>)
    requires Inv(s) && Allowed(Machine(), NoRelease, s, es) && ReadPath(s) != ""
    ensures ReadPath(Run(Machine(), s, es)) == ReadPath(s)
    decreases es
  {
    if es != [] {
      StepKeepsInv(s, es[0]);
      StepKeepsRecord(s, es[0]);
      RunKeepsRecord(Step(s, es[0]), es[1..]);
    }
  }

  // WHEN A RECORD STANDS. Of callers about to start on a free key, no schedule without a release changes a
  // reservation once it is on record exactly if no two of them share a temporary name.
  lemma {:induction false} RecordKeptExactly(s: Sys)
    requires Fresh(s)
    ensures (forall xs, ys :: RecordKept(s, xs, ys)) <==> OwnTemps(s)
  {
    if OwnTemps(s) {
      forall xs, ys ensures RecordKept(s, xs, ys) {
        if Allowed(Machine(), NoRelease, s, xs + ys) && ReadPath(Run(Machine(), s, xs)) != "" {
          AllowedConcat(Machine(), NoRelease, s, xs, ys);
          RunConcat(Machine(), s, xs, ys);
          InvHolds(s, xs);
          RunKeepsRecord(Run(Machine(), s, xs), ys);
        }
      }
    } else {
      var i, j :| 0 <= i < j < |s.callers| && s.callers[i].tmp == s.callers[j].tmp;
      var before, after := ReusedTemporaryReplaces(s, i, j);
      assert !RecordKept(s, before, after);
    }
  }

  // ---- one call, undisturbed -----------------------------------------------------------------------

  // Which of the call's file operations raise an OSError of their own.
  datatype Faults = Faults(open: bool, write: bool, link: bool, create: bool, fill: bool)

  // The caller has returned this.
  predicate Returned(s: Sys, i: nat, ret: string) {
    i < |s.callers| && s.callers[i].phase == Done(ret)
  }

  lemma GoesOn(s: Sys, i: nat, fails: bool, es: seq<Action>)
    requires i < |s.callers|
    ensures Run(Machine(), s, [Go(i, fails)] + es) == Run(Machine(), Advance(s, i, fails), es)
  {
    assert ([Go(i, fails)] + es)[0] == Go(i, fails) && ([Go(i, fails)] + es)[1..] == es;
  }

  lemma Cleans(s: Sys, i: nat, ret: string) returns (es: seq<Action>)
    requires i < |s.callers|
    requires (s.callers[i].phase == Winner && ret == s.callers[i].relay) ||
             (s.callers[i].phase == Beaten && ret == ReadPath(s))
    ensures Returned(Run(Machine(), s, es), i, ret)
  {
    es := [Go(i, false)] + [];
    GoesOn(s, i, false, []);
  }

  lemma FallsBack(s: Sys, i: nat, faults: Faults) returns (es: seq<Action>)
    requires i < |s.callers| && s.callers[i].phase == Fallback
    ensures Returned(Run(Machine(), s, es), i,
                     if s.path.Some? then ReadPath(s) else if faults.create || faults.fill then ""
                     else s.callers[i].relay)
  {
    var s1 := Advance(s, i, faults.create);
    es := [];
    if s.path.Some? {
      es := Cleans(s1, i, ReadPath(s));
    } else if !faults.create {
      var s2 := Advance(s1, i, faults.fill);
      if !faults.fill { es := Cleans(s2, i, s.callers[i].relay); }
      GoesOn(s1, i, faults.fill, es);
      es := [Go(i, faults.fill)] + es;
    }
    GoesOn(s, i, faults.create, es);
    es := [Go(i, faults.create)] + es;
  }

  lemma Links(s: Sys, i: nat, faults: Faults) returns (es: seq<Action>)
    requires i < |s.callers| && s.callers[i].phase == Written && s.callers[i].tmp in s.temps
    ensures Returned(Run(Machine(), s, es), i,
                     if s.path.Some? then ReadPath(s)
                     else if faults.link && (faults.create || faults.fill) then "" else s.callers[i].relay)
  {
    var s1 := Advance(s, i, faults.link);
    if faults.link { es := FallsBack(s1, i, faults); }
    else if s.path.Some? { es := Cleans(s1, i, ReadPath(s)); }
    else { es := Cleans(s1, i, s.callers[i].relay); }
    GoesOn(s, i, faults.link, es);
    es := [Go(i, faults.link)] + es;
  }

  // One caller alone, call by call, with a temporary name nobody uses: it returns what the whole call below
  // returns, for every combination of failures.
  lemma UndisturbedCall(s: Sys, i: nat, faults: Faults) returns (es: seq<Action>)
    requires i < |s.callers| && s.callers[i].phase == Start && s.callers[i].tmp !in s.temps
    requires s.path.Some? ==> s.path.value < |s.files|
    ensures Returned(Run(Machine(), s, es), i,
                     if faults.open || faults.write then ""
                     else if s.path.Some? then ReadPath(s)
                     else if faults.link && (faults.create || faults.fill) then "" else s.callers[i].relay)
  {
    var s1 := Advance(s, i, faults.open);
    es := [];
    if !faults.open {
      var s2 := Advance(s1, i, faults.write);
      if !faults.write { es := Links(s2, i, faults); }
      GoesOn(s1, i, faults.write, es);
      es := [Go(i, faults.write)] + es;
    }
    GoesOn(s, i, faults.open, es);
    es := [Go(i, faults.open)] + es;
  }

  class Disk {
    var files: seq<Content>
    var temps: map<nat, nat>
    var path: Option<nat>

    constructor ()
      ensures files == [] && temps == map[] && path == None
    {
      files, temps, path := [], map[], None;
    }

    predicate Valid()
      reads this
    {
      (path.Some? ==> path.value < |files|) && forall t :: t in temps ==> temps[t] < |files|
    }

    // recall_request.
    function Recall(): string
      reads this
    {
      NamedBy(files, path)
    }

    method NewFile() returns (fd: nat)
      modifies this`files
      ensures fd == |old(files)| && files == old(files) + [Torn]
    {
      fd := |files|;
      files := files + [Torn];
    }

    method Fill(fd: nat, relay: string)
      requires fd < |files|
      modifies this`files
      ensures files == old(files)[fd := Whole(relay)]
    {
      files := files[fd := Whole(relay)];
    }

    // The fallback on a file system without hard links: exclusive create, then write.
    method CreateExclusive(relay: string, faults: Faults) returns (ret: string)
      requires Valid() && relay != ""
      modifies this`files, this`path
      ensures Valid() && (old(path).Some? ==> path == old(path) && Recall() == old(Recall()) && ret == Recall())
      ensures old(path).None? ==> ret == (if faults.create || faults.fill then "" else relay)
      ensures ret != "" ==> path.Some? && Recall() == ret
    {
      if path.Some? { return Recall(); }
      if faults.create { return ""; }
      var fd := NewFile();
      path := Some(fd);
      if faults.fill { return ""; }
      Fill(fd, relay);
      return relay;
    }

    // With a temporary name nobody uses: an existing reservation is returned and left as it is; a free
    // key is claimed, or "" says that it could not be; and a relay id returned is always on record,
    // whole. The temporary is gone either way.
    method ReserveRequest(tmp: nat, relay: string, faults: Faults) returns (ret: string)
      requires Valid() && relay != "" && tmp !in temps
      modifies this
      ensures Valid() && temps == old(temps)
      ensures old(path).Some? ==> path == old(path) && Recall() == old(Recall())
      ensures old(path).Some? ==> ret == if faults.open || faults.write then "" else Recall()
      ensures old(path).None? ==>
        ret == if faults.open || faults.write || (faults.link && (faults.create || faults.fill)) then "" else relay
      ensures ret != "" ==> path.Some? && Recall() == ret
    {
      assert temps - {tmp} == temps;
      if faults.open { return ""; }
      var fd := NewFile();
      temps := temps[tmp := fd];
      if faults.write {
        temps := temps - {tmp};
        return "";
      }
      Fill(fd, relay);
      if faults.link {
        ret := CreateExclusive(relay, faults);
      } else if path.Some? {
        ret := Recall();
      } else {
        path := Some(fd);
        ret := relay;
      }
      temps := temps - {tmp};
    }

    method ReleaseRequest() returns (released: bool)
      modifies this`path
      ensures released == old(path).Some? && path == None
    {
      released := path.Some?;
      path := None;
    }
  }

  // ---- the request key -----------------------------------------------------------------------------

  const NUL: char := '\0'

  // The text that is hashed: the three names, joined by NUL.
  function Joined(project: string, client: string, request: string): string {
    project + [NUL] + client + [NUL] + request
  }

  predicate NulFree(s: string) {
    forall i :: 0 <= i < |s| ==> s[i] != NUL
  }

  // Where two NUL-free prefixes end, two equal texts split alike.
  lemma {:induction false} SplitsAlike(a: string, x: string, b: string, y: string)
    requires NulFree(a) && NulFree(b) && a + [NUL] + x == b + [NUL] + y
    ensures a == b && x == y
  {
    var l, r := a + [NUL] + x, b + [NUL] + y;
    assert l[|a|] == NUL && r[|b|] == NUL;
    assert forall i :: 0 <= i < |a| ==> l[i] == a[i];
    assert forall i :: 0 <= i < |b| ==> r[i] == b[i];
    assert |a| == |b|;
    assert a == l[..|a|] && b == r[..|b|] && x == l[|a| + 1..] && y == r[|b| + 1..];
  }

  lemma LastNul(s: string) returns (a: string, x: string)
    requires !NulFree(s)
    ensures s == a + [NUL] + x
  {
    var i :| 0 <= i < |s| && s[i] == NUL;
    a, x := s[..i], s[i + 1..];
  }

  lemma {:induction false} NulFreeJoins(p: string, c: string, r: string, q: string, d: string, t: string)
    requires NulFree(p) && NulFree(c) && NulFree(r) && Joined(p, c, r) == Joined(q, d, t)
    ensures p == q && c == d && r == t
  {
    var left := p + [NUL] + (c + [NUL] + r);
    assert Joined(p, c, r) == left;
    if !NulFree(q) {
      var a, x := FirstNul(q);
      assert Joined(q, d, t) == a + [NUL] + (x + [NUL] + d + [NUL] + t);
      SplitsAlike(p, c + [NUL] + r, a, x + [NUL] + d + [NUL] + t);
      TooManyNuls(c, r, x, d, t);
    } else {
      assert Joined(q, d, t) == q + [NUL] + (d + [NUL] + t);
      SplitsAlike(p, c + [NUL] + r, q, d + [NUL] + t);
      if !NulFree(d) {
        var a, x := FirstNul(d);
        assert d + [NUL] + t == a + [NUL] + (x + [NUL] + t);
        HasNul(x, t);
        SplitsAlike(c, r, a, x + [NUL] + t);
      } else {
        SplitsAlike(c, r, d, t);
      }
    }
  }

  lemma HasNul(x: string, t: string)
    ensures !NulFree(x + [NUL] + t)
  {
    assert (x + [NUL] + t)[|x|] == NUL;
  }

  lemma FirstNul(s: string) returns (a: string, x: string)
    requires !NulFree(s)
    ensures s == a + [NUL] + x && NulFree(a)
  {
    if s[0] == NUL {
      a, x := "", s[1..];
    } else {
      var b, y := FirstNul(s[1..]);
      a, x := [s[0]] + b, y;
      assert s == [s[0]] + s[1..];
    }
  }

  function Nuls(s: string): nat {
    if s == "" then 0 else (if s[0] == NUL then 1 else 0) + Nuls(s[1..])
  }

  lemma {:induction false} NulsAdd(a: string, b: string)
    ensures Nuls(a + b) == Nuls(a) + Nuls(b)
    decreases a
  {
    if a == "" {
      assert a + b == b;
    } else {
      assert (a + b)[0] == a[0] && (a + b)[1..] == a[1..] + b;
      NulsAdd(a[1..], b);
    }
  }

  lemma {:induction false} NulFreeHasNone(s: string)
    requires NulFree(s)
    ensures Nuls(s) == 0
  {
    if s != "" { NulFreeHasNone(s[1..]); }
  }

  lemma TooManyNuls(c: string, r: string, x: string, d: string, t: string)
    requires NulFree(c) && NulFree(r)
    ensures c + [NUL] + r != x + [NUL] + d + [NUL] + t
  {
    NulsAdd(c + [NUL], r);
    NulsAdd(c, [NUL]);
    NulFreeHasNone(c);
    NulFreeHasNone(r);
    NulsAdd(x + [NUL] + d + [NUL], t);
    NulsAdd(x + [NUL] + d, [NUL]);
    NulsAdd(x + [NUL], d);
    NulsAdd(x, [NUL]);
  }

  // A request's key belongs to it alone exactly when none of its three names contains NUL.
  lemma KeyIsUniqueExactlyWhenNulFree(p: string, c: string, r: string)
    ensures (NulFree(p) && NulFree(c) && NulFree(r)) <==>
            forall q, d, t :: Joined(p, c, r) == Joined(q, d, t) ==> p == q && c == d && r == t
  {
    if NulFree(p) && NulFree(c) && NulFree(r) {
      forall q, d, t | Joined(p, c, r) == Joined(q, d, t) ensures p == q && c == d && r == t {
        NulFreeJoins(p, c, r, q, d, t);
      }
    } else if !NulFree(p) {
      var a, x := LastNul(p);
      assert Joined(p, c, r) == Joined(a, x, c + [NUL] + r) && |a| != |p|;
    } else if !NulFree(c) {
      var a, x := LastNul(c);
      assert Joined(p, c, r) == Joined(p, a, x + [NUL] + r) && |a| != |c|;
    } else {
      var a, x := LastNul(r);
      assert Joined(p, c, r) == Joined(p + [NUL] + c, a, x) && |p + [NUL] + c| != |p|;
    }
  }
}
