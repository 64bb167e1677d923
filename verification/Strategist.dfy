// The strategist seat: core/strategist.py (validate_directive_response, answerable_fingerprint),
// core/autonomy.py (disposition) and core/orchestrator.py (consume, dispose, approve, discard, the
// governance step and its refusal budget).
module Strategist {
  import opened Wrappers
  import opened Graphs
  import opened Runs

  type Id = string

  datatype ItemKind =
    | ClarificationRequest | DecisionRequest | AuthorityRequest | OwnerEscalation | Blocker | PendingApproval
    | OtherKind

  // An inbox item. Program-level items have an empty id.
  datatype Item = Item(id: Id, owner: bool, kind: ItemKind)

  // banned, unknown: the directive carries an authority field, or some other field. text is stripped.
  datatype Directive = Directive(id: Id, text: string, rationale: string, banned: bool, unknown: bool)

  datatype Doc = Doc(unknownTop: bool, directives: seq<Directive>)

  datatype Error =
    | UnknownTop | EmptyResponse | TooMany | Banned(n: nat) | UnknownField(n: nat) | NoMessage(n: nat)
    | Duplicate(n: nat) | UnknownMessage(n: nat) | OwnerRouted(n: nat) | NoText(n: nat) | TextTooLong(n: nat)
    | RationaleTooLong(n: nat)

  const MAX_DIRECTIVES := 32
  const MAX_DIRECTIVE_CHARS := 4000
  const MAX_RATIONALE_CHARS := 2000
  const MAX_CONSECUTIVE_REFUSALS := 3

  // ---- validation ----------------------------------------------------------------------------------

  // The item an id stands for: the last one shown.
  function LastItem(items: seq<Item>, id: Id): (r: Option<Item>)
    ensures r.Some? <==> id != "" && exists n :: 0 <= n < |items| && items[n].id == id
    ensures r.Some? ==> r.value in items && r.value.id == id
  {
    if items == [] then None
    else if id != "" && items[|items| - 1].id == id then Some(items[|items| - 1])
    else
      var r := LastItem(items[..|items| - 1], id);
      assert forall n :: 0 <= n < |items| - 1 ==> items[..|items| - 1][n] == items[n];
      r
  }

  predicate Answers(d: Directive, items: seq<Item>) {
    LastItem(items, d.id).Some? && !LastItem(items, d.id).value.owner
  }

  predicate WellFormed(d: Directive) {
    !d.banned && !d.unknown && d.text != "" && |d.text| <= MAX_DIRECTIVE_CHARS && |d.rationale| <= MAX_RATIONALE_CHARS
  }

  predicate DistinctTargets(ds: seq<Directive>) {
    forall i, j :: 0 <= i < j < |ds| ==> ds[i].id != ds[j].id
  }

  // At least one directive and at most 32, each well formed, each answering a question the seat was
  // shown that is not the owner's, no question answered twice.
  predicate Admissible(doc: Doc, items: seq<Item>) {
    !doc.unknownTop && 1 <= |doc.directives| <= MAX_DIRECTIVES && DistinctTargets(doc.directives) &&
    forall n :: 0 <= n < |doc.directives| ==> WellFormed(doc.directives[n]) && Answers(doc.directives[n], items)
  }

  method Routes(items: seq<Item>) returns (routes: map<Id, bool>)
    ensures forall id :: id in routes <==> LastItem(items, id).Some?
    ensures forall id :: id in routes ==> routes[id] == LastItem(items, id).value.owner
  {
    routes := map[];
    for n := 0 to |items|
      invariant forall id :: id in routes <==> LastItem(items[..n], id).Some?
      invariant forall id :: id in routes ==> routes[id] == LastItem(items[..n], id).value.owner
    {
      assert items[..n + 1][..n] == items[..n];
      if items[n].id == "" { continue; }
      routes := routes[items[n].id := items[n].owner];
    }
    assert items[..|items|] == items;
  }

  // The complaints about one directive's own fields.
  function FieldErrors(d: Directive, n: nat): (r: seq<Error>)
    ensures r == [] <==> !d.banned && !d.unknown
  {
    (if d.banned then [Banned(n)] else []) + (if d.unknown then [UnknownField(n)] else [])
  }

  function TextErrors(d: Directive, n: nat): (r: seq<Error>)
    ensures r == [] <==> d.text != "" && |d.text| <= MAX_DIRECTIVE_CHARS && |d.rationale| <= MAX_RATIONALE_CHARS
  {
    (if d.text == "" then [NoText(n)] else if |d.text| > MAX_DIRECTIVE_CHARS then [TextTooLong(n)] else []) +
    (if |d.rationale| > MAX_RATIONALE_CHARS then [RationaleTooLong(n)] else [])
  }

  // The complaints about one directive, given the ids met before it.
  method CheckDirective(d: Directive, n: nat, seen: set<Id>, routes: map<Id, bool>) returns (errors: seq<Error>)
    ensures errors == [] <==> WellFormed(d) && d.id != "" && d.id !in seen && d.id in routes && !routes[d.id]
  {
    errors := FieldErrors(d, n);
    if d.id == "" { return errors + [NoMessage(n)]; }
    if d.id in seen { errors := errors + [Duplicate(n)]; }
    if d.id !in routes { errors := errors + [UnknownMessage(n)]; }
    else if routes[d.id] { errors := errors + [OwnerRouted(n)]; }
    errors := errors + TextErrors(d, n);
  }

  // The first n directives raise no complaint.
  ghost predicate GoodUpTo(ds: seq<Directive>, items: seq<Item>, n: nat)
    requires n <= |ds|
  {
    n == 0 || (GoodUpTo(ds, items, n - 1) && WellFormed(ds[n - 1]) && Answers(ds[n - 1], items) &&
               ds[n - 1].id !in Targets(ds, n - 1))
  }

  function Targets(ds: seq<Directive>, n: nat): (r: set<Id>)
    requires n <= |ds|
    ensures forall m :: 0 <= m < n ==> ds[m].id in r
    ensures forall id :: id in r ==> exists m :: 0 <= m < n && ds[m].id == id
  {
    if n == 0 then {} else Targets(ds, n - 1) + {ds[n - 1].id}
  }

  lemma {:induction false} GoodIsAdmissible(ds: seq<Directive>, items: seq<Item>, n: nat)
    requires n <= |ds|
    ensures GoodUpTo(ds, items, n) <==>
      ((forall m :: 0 <= m < n ==> WellFormed(ds[m]) && Answers(ds[m], items)) &&
       forall i, j :: 0 <= i < j < n ==> ds[i].id != ds[j].id)
  {
    if n > 0 {
      GoodIsAdmissible(ds, items, n - 1);
      if ds[n - 1].id in Targets(ds, n - 1) {
        var m :| 0 <= m < n - 1 && ds[m].id == ds[n - 1].id;
      }
    }
  }

  // Errors accumulate; a response is accepted exactly when it is admissible.
  method ValidateDirectiveResponse(doc: Doc, items: seq<Item>) returns (ok: bool, errors: seq<Error>)
    ensures ok == (errors == [])
    ensures ok <==> Admissible(doc, items)
  {
    errors := if doc.unknownTop then [UnknownTop] else [];
    var ds := doc.directives;
    if ds == [] { return false, errors + [EmptyResponse]; }
    if |ds| > MAX_DIRECTIVES { errors := errors + [TooMany]; }
    var routes := Routes(items);
    var seen: set<Id> := {};
    for n := 0 to |ds|
      invariant seen == Targets(ds, n)
      invariant errors == [] <==> !doc.unknownTop && |ds| <= MAX_DIRECTIVES && GoodUpTo(ds, items, n)
    {
      var more := CheckDirective(ds[n], n, seen, routes);
      errors := errors + more;
      seen := seen + {ds[n].id};
    }
    ok := errors == [];
    GoodIsAdmissible(ds, items, |ds|);
  }

  // ---- autonomy ------------------------------------------------------------------------------------

  datatype Mode = Safe | Default | Auto | Unrecognised
  datatype Disposition = Apply | Queue | Escalate

  predicate OwnerKind(k: ItemKind) {
    k == AuthorityRequest || k == OwnerEscalation
  }

  predicate Routine(k: ItemKind) {
    k == ClarificationRequest || k == DecisionRequest
  }

  function Dispose(mode: Mode, item: Item): Disposition {
    if item.owner || OwnerKind(item.kind) then Escalate
    else match mode
      case Auto => Apply
      case Safe => if Routine(item.kind) then Apply else Queue
      case _ => Queue
  }

  // ---- the seat's durable state --------------------------------------------------------------------

  datatype Record = Record(id: Id, text: string)

  // answers: every answer recorded, in order; its messages are the answered ones.
  datatype Desk = Desk(queue: seq<Record>, answers: seq<Id>, escalations: seq<Id>)

  // refusals are counted against a scope: the set of answerable ids on offer.
  datatype Budget = Budget(running: bool, refusals: nat, scope: Option<set<Id>>)

  function Others(queue: seq<Record>, id: Id): (r: seq<Record>)
    ensures forall x :: x in r <==> x in queue && x.id != id
    ensures |r| <= |queue|
    ensures |r| == |queue| <==> forall x :: x in queue ==> x.id != id
  {
    if queue == [] then []
    else
      var front, last := Others(queue[..|queue| - 1], id), queue[|queue| - 1];
      assert queue == queue[..|queue| - 1] + [last];
      if last.id == id then front else front + [last]
  }

  predicate OnePerQuestion(queue: seq<Record>) {
    forall i, j :: 0 <= i < j < |queue| ==> queue[i].id != queue[j].id
  }

  lemma {:induction false} OthersStayDistinct(queue: seq<Record>, id: Id)
    requires OnePerQuestion(queue)
    ensures OnePerQuestion(Others(queue, id))
  {
    if queue != [] {
      var front := queue[..|queue| - 1];
      OthersStayDistinct(front, id);
      forall x | x in Others(front, id) ensures x.id != queue[|queue| - 1].id {
        var i :| 0 <= i < |front| && front[i] == x;
        assert queue[i] == x;
      }
    }
  }

  // One admitted directive.
  function Handle(desk: Desk, items: seq<Item>, mode: Mode, d: Directive): Desk {
    var item := LastItem(items, d.id);
    match Dispose(mode, if item.Some? then item.value else Item(d.id, false, OtherKind))
    case Apply => desk.(answers := desk.answers + [d.id])
    case Queue => desk.(queue := Others(desk.queue, d.id) + [Record(d.id, d.text)])
    case Escalate => desk.(escalations := desk.escalations + [d.id])
  }

  function HandleAll(desk: Desk, items: seq<Item>, mode: Mode, ds: seq<Directive>): Desk {
    if ds == [] then desk else Handle(HandleAll(desk, items, mode, ds[..|ds| - 1]), items, mode, ds[|ds| - 1])
  }

  datatype Verdict = Done | NotQueued | AlreadyAnswered

  function AfterApprove(desk: Desk, id: Id): (Verdict, Desk) {
    if forall x :: x in desk.queue ==> x.id != id then (NotQueued, desk)
    else
      var kept := desk.(queue := Others(desk.queue, id));
      if id in desk.answers then (AlreadyAnswered, kept) else (Done, kept.(answers := desk.answers + [id]))
  }

  function AfterDiscard(desk: Desk, id: Id): (Verdict, Desk) {
    if forall x :: x in desk.queue ==> x.id != id then (NotQueued, desk)
    else (Done, desk.(queue := Others(desk.queue, id)))
  }

  // Where the disposition of an admitted response raised: before its n-th directive took effect (or, past the
  // last, before the queue was written back), after that, or after the refusal count was reset too.
  datatype Place = AtDirective(n: nat) | AfterQueue | AfterReset

  // left: the inbox as it stands when the failure is counted.
  datatype Fault = Fault(place: Place, left: seq<Item>)

  // What the seat's outstanding run came to: no row, unfinished, unreadable, or a response.
  datatype Turn = Missing | Unfinished | Unreadable | Response(doc: Doc, fault: Option<Fault>)

  predicate Admitted(turn: Turn, items: seq<Item>) {
    turn.Response? && Admissible(turn.doc, items)
  }

  // Counted as a refusal: an unreadable or inadmissible response, or one whose disposition raised.
  predicate RefusedTurn(turn: Turn, items: seq<Item>) {
    turn.Unreadable? || (turn.Response? && (!Admissible(turn.doc, items) || turn.fault.Some?))
  }

  // The count had been reset before the failure was counted.
  predicate ResetFirst(turn: Turn, items: seq<Item>) {
    Admitted(turn, items) && turn.fault.Some? && turn.fault.value.place == AfterReset
  }

  // The inbox against which a refusal is counted.
  function CountedOn(turn: Turn, items: seq<Item>): seq<Item> {
    if Admitted(turn, items) && turn.fault.Some? then turn.fault.value.left else items
  }

  // The directives that took effect.
  function Handled(ds: seq<Directive>, fault: Option<Fault>): seq<Directive> {
    if fault.Some? && fault.value.place.AtDirective? && fault.value.place.n <= |ds|
    then ds[..fault.value.place.n] else ds
  }

  // The queue is written back once, after the last directive.
  function Disposed(desk: Desk, items: seq<Item>, mode: Mode, ds: seq<Directive>, fault: Option<Fault>): Desk {
    var d := HandleAll(desk, items, mode, Handled(ds, fault));
    if fault.Some? && fault.value.place.AtDirective? then d.(queue := desk.queue) else d
  }

  function Fingerprint(items: seq<Item>): set<Id> {
    set n | 0 <= n < |items| && items[n].id != "" && !items[n].owner :: items[n].id
  }

  // What the refusal budget is about: exactly the questions shown that somebody else than the owner may answer.
  lemma FingerprintExactly(items: seq<Item>, id: Id)
    ensures id in Fingerprint(items) <==> id != "" && exists kind :: Item(id, false, kind) in items
  {
    if id in Fingerprint(items) {
      var n :| 0 <= n < |items| && items[n].id == id && !items[n].owner;
      assert items[n] == Item(id, false, items[n].kind);
    }
  }

  function CountRefusal(b: Budget, scope: set<Id>): Budget {
    Budget(false, if b.scope == Some(scope) then b.refusals + 1 else 1, Some(scope))
  }

  function AfterConsume(b: Budget, items: seq<Item>, turn: Turn): Budget {
    if !b.running || turn.Unfinished? then b
    else if turn.Missing? then b.(running := false)
    else if RefusedTurn(turn, items) then
      CountRefusal(if ResetFirst(turn, items) then b.(refusals := 0) else b, Fingerprint(CountedOn(turn, items)))
    else b.(running := false, refusals := 0)
  }

  // The halt applies only while the same work is on offer.
  function Rescoped(b: Budget, offer: set<Id>): Budget {
    if b.refusals > 0 && b.scope != Some(offer) then b.(refusals := 0) else b
  }

  predicate MayDispatch(b: Budget, offer: set<Id>) {
    b.refusals < MAX_CONSECUTIVE_REFUSALS && !b.running && offer != {}
  }

  // A turn that ended, by whatever end.
  predicate Ended(b: Budget, turn: Turn) {
    b.running && !turn.Unfinished?
  }

  // The count a step leaves: one more for a refusal on the questions last refused on, one for a first refusal,
  // none after an admitted turn, as it was after no turn or a lost one; and none when other questions are on
  // offer than those refused on.
  predicate CountsAs(b: Budget, items: seq<Item>, turn: Turn, offer: set<Id>, next: Budget) {
    var refused := Ended(b, turn) && RefusedTurn(turn, items);
    var scope := Fingerprint(CountedOn(turn, items));
    (refused ==> next.scope == Some(scope)) && (!refused ==> next.scope == b.scope) &&
    (refused && scope == offer && b.scope == Some(scope) && !ResetFirst(turn, items) ==>
       next.refusals == b.refusals + 1) &&
    (refused && scope == offer && (b.scope != Some(scope) || ResetFirst(turn, items)) ==> next.refusals == 1) &&
    (Ended(b, turn) && Admitted(turn, items) && turn.fault.None? ==> next.refusals == 0) &&
    (!Ended(b, turn) || turn.Missing? ==>
       next.refusals == b.refusals || (next.refusals == 0 && b.scope != Some(offer))) &&
    (next.refusals > 0 ==> next.scope == Some(offer))
  }

  // One governance step: a turn runs afterwards if it has not ended, or if a new one was dispatched; that is
  // exactly if the dispatcher admits it, there is something to answer, none is outstanding, and fewer than
  // three refusals in a row stand against these questions.
  predicate GovernsAs(b: Budget, items: seq<Item>, turn: Turn, offer: set<Id>, admitted: bool, next: Budget,
                      dispatched: bool)
  {
    CountsAs(b, items, turn, offer, next) &&
    (next.running <==> dispatched || (b.running && turn.Unfinished?)) &&
    (dispatched <==> admitted && offer != {} && !(b.running && turn.Unfinished?) && next.refusals < 3)
  }

  lemma StepGovernsAs(b: Budget, items: seq<Item>, turn: Turn, offer: set<Id>, admitted: bool)
    ensures var next := Rescoped(AfterConsume(b, items, turn), offer);
      var dispatched := admitted && MayDispatch(next, offer);
      GovernsAs(b, items, turn, offer, admitted, if dispatched then next.(running := true) else next, dispatched)
  {
  }

  // A discard takes every record of one question out of the queue, the others in order, and applies nothing.
  lemma DiscardExactly(desk: Desk, id: Id)
    ensures var (v, after) := AfterDiscard(desk, id);
      (v == Done <==> exists x :: x in desk.queue && x.id == id) && (v != Done ==> v == NotQueued) &&
      after == desk.(queue := after.queue) && after.queue == Others(desk.queue, id) &&
      (forall x :: x in after.queue <==> x in desk.queue && x.id != id)
  {
    if forall x :: x in desk.queue ==> x.id != id { NoOthers(desk.queue, id); }
  }

  lemma {:induction false} NoOthers(queue: seq<Record>, id: Id)
    requires forall x :: x in queue ==> x.id != id
    ensures Others(queue, id) == queue
  {
    if queue != [] {
      assert queue == queue[..|queue| - 1] + [queue[|queue| - 1]];
      NoOthers(queue[..|queue| - 1], id);
    }
  }

  // ---- what becomes of each directive --------------------------------------------------------------

  // The last item shown under its id asks for the owner's authority.
  predicate ForTheOwner(items: seq<Item>, d: Directive) {
    var item := LastItem(items, d.id);
    item.Some? && (item.value.kind == AuthorityRequest || item.value.kind == OwnerEscalation)
  }

  // It waits for approval: always by default, in SAFE unless it answers a plain question, in AUTO never.
  predicate Waits(items: seq<Item>, mode: Mode, d: Directive) {
    var item := LastItem(items, d.id);
    item.Some? && !ForTheOwner(items, d) && mode != Auto &&
    (mode == Safe ==> item.value.kind != ClarificationRequest && item.value.kind != DecisionRequest)
  }

  predicate AtOnce(items: seq<Item>, mode: Mode, d: Directive) {
    !ForTheOwner(items, d) && !Waits(items, mode, d)
  }

  function Escalated(items: seq<Item>, ds: seq<Directive>): seq<Id> {
    if ds == [] then []
    else Escalated(items, ds[..|ds| - 1]) + if ForTheOwner(items, ds[|ds| - 1]) then [ds[|ds| - 1].id] else []
  }

  function Answered(items: seq<Item>, mode: Mode, ds: seq<Directive>): seq<Id> {
    if ds == [] then []
    else Answered(items, mode, ds[..|ds| - 1]) + if AtOnce(items, mode, ds[|ds| - 1]) then [ds[|ds| - 1].id] else []
  }

  function Waiting(items: seq<Item>, mode: Mode, ds: seq<Directive>): seq<Record> {
    if ds == [] then []
    else
      var d := ds[|ds| - 1];
      Waiting(items, mode, ds[..|ds| - 1]) + if Waits(items, mode, d) then [Record(d.id, d.text)] else []
  }

  // Exactly the owner's questions are escalated ...
  lemma {:induction false} EscalatedExactly(items: seq<Item>, ds: seq<Directive>, id: Id)
    ensures id in Escalated(items, ds) <==> exists n :: 0 <= n < |ds| && ds[n].id == id && ForTheOwner(items, ds[n])
  {
    if ds != [] {
      var front := ds[..|ds| - 1];
      EscalatedExactly(items, front, id);
      assert forall n :: 0 <= n < |front| ==> front[n] == ds[n];
    }
  }

  // ... those that need not wait answered ...
  lemma {:induction false} AnsweredNowExactly(items: seq<Item>, mode: Mode, ds: seq<Directive>, id: Id)
    ensures id in Answered(items, mode, ds) <==>
            exists n :: 0 <= n < |ds| && ds[n].id == id && AtOnce(items, mode, ds[n])
  {
    if ds != [] {
      var front := ds[..|ds| - 1];
      AnsweredNowExactly(items, mode, front, id);
      assert forall n :: 0 <= n < |front| ==> front[n] == ds[n];
    }
  }

  // ... and the others queued, each with its own text.
  lemma {:induction false} QueuedExactly(items: seq<Item>, mode: Mode, ds: seq<Directive>, id: Id, text: string)
    ensures Record(id, text) in Waiting(items, mode, ds) <==>
            exists n :: 0 <= n < |ds| && ds[n].id == id && ds[n].text == text && Waits(items, mode, ds[n])
  {
    if ds != [] {
      var front := ds[..|ds| - 1];
      QueuedExactly(items, mode, front, id, text);
      assert forall n :: 0 <= n < |front| ==> front[n] == ds[n];
    }
  }

  function RecordIds(queue: seq<Record>): set<Id> {
    set x | x in queue :: x.id
  }

  // The queue's records for other questions, in order.
  function Kept(queue: seq<Record>, ids: set<Id>): seq<Record> {
    if queue == [] then []
    else
      var last := queue[|queue| - 1];
      Kept(queue[..|queue| - 1], ids) + if last.id in ids then [] else [last]
  }

  lemma {:induction false} KeptExactly(queue: seq<Record>, ids: set<Id>, x: Record)
    ensures x in Kept(queue, ids) <==> x in queue && x.id !in ids
  {
    if queue != [] {
      assert queue == queue[..|queue| - 1] + [queue[|queue| - 1]];
      KeptExactly(queue[..|queue| - 1], ids, x);
    }
  }

  lemma OthersLast(a: seq<Record>, x: Record, id: Id)
    ensures Others(a + [x], id) == Others(a, id) + if x.id == id then [] else [x]
  {
    assert (a + [x])[..|a|] == a;
  }

  lemma {:induction false} OthersAreKept(queue: seq<Record>, ids: set<Id>, id: Id)
    ensures Others(Kept(queue, ids), id) == Kept(queue, ids + {id})
  {
    if queue != [] {
      var front, last := queue[..|queue| - 1], queue[|queue| - 1];
      OthersAreKept(front, ids, id);
      if last.id in ids {
        assert Kept(queue, ids) == Kept(front, ids);
      } else {
        OthersLast(Kept(front, ids), last, id);
      }
    }
  }

  lemma {:induction false} OthersSplit(a: seq<Record>, b: seq<Record>, id: Id)
    requires forall x :: x in b ==> x.id != id
    ensures Others(a + b, id) == Others(a, id) + b
    decreases b
  {
    if b == [] {
      assert a + b == a;
    } else {
      var front, last := b[..|b| - 1], b[|b| - 1];
      assert (a + b)[..|a + b| - 1] == a + front && b == front + [last];
      OthersSplit(a, front, id);
    }
  }

  lemma {:induction false} NothingKeptOut(queue: seq<Record>)
    ensures Kept(queue, {}) == queue
  {
    if queue != [] {
      NothingKeptOut(queue[..|queue| - 1]);
    }
  }

  // The desk after these directives: the owner's questions escalated, what may not wait answered, the rest
  // queued with its text in place of any earlier record for the same question.
  ghost predicate SortsOut(before: Desk, items: seq<Item>, mode: Mode, ds: seq<Directive>, after: Desk) {
    var queued := Waiting(items, mode, ds);
    after.escalations == before.escalations + Escalated(items, ds) &&
    after.answers == before.answers + Answered(items, mode, ds) &&
    after.queue == Kept(before.queue, RecordIds(queued)) + queued
  }

  lemma OneSortsOut(desk: Desk, items: seq<Item>, mode: Mode, d: Directive)
    requires Answers(d, items)
    ensures Handle(desk, items, mode, d) ==
      if ForTheOwner(items, d) then desk.(escalations := desk.escalations + [d.id])
      else if Waits(items, mode, d) then desk.(queue := Others(desk.queue, d.id) + [Record(d.id, d.text)])
      else desk.(answers := desk.answers + [d.id])
  {
  }

  lemma ListsMoveOn(items: seq<Item>, mode: Mode, ds: seq<Directive>, answers: seq<Id>, escalations: seq<Id>)
    requires ds != []
    ensures var front, d := ds[..|ds| - 1], ds[|ds| - 1];
      escalations + Escalated(items, ds) ==
        escalations + Escalated(items, front) + (if ForTheOwner(items, d) then [d.id] else []) &&
      answers + Answered(items, mode, ds) ==
        answers + Answered(items, mode, front) + (if AtOnce(items, mode, d) then [d.id] else []) &&
      (!Waits(items, mode, d) ==> Waiting(items, mode, ds) == Waiting(items, mode, front))
  {
  }

  lemma {:induction false} HandleAllSortsOut(desk: Desk, items: seq<Item>, mode: Mode, ds: seq<Directive>)
    requires DistinctTargets(ds) && forall n :: 0 <= n < |ds| ==> Answers(ds[n], items)
    ensures SortsOut(desk, items, mode, ds, HandleAll(desk, items, mode, ds))
  {
    if ds == [] {
      NothingKeptOut(desk.queue);
      assert RecordIds([]) == {};
    } else {
      var d := ds[|ds| - 1];
      HandleAllSortsOut(desk, items, mode, ds[..|ds| - 1]);
      assert Answers(d, items);
      OneSortsOut(HandleAll(desk, items, mode, ds[..|ds| - 1]), items, mode, d);
      ListsMoveOn(items, mode, ds, desk.answers, desk.escalations);
      if Waits(items, mode, d) { QueueMovesOn(desk.queue, items, mode, ds); }
    }
  }

  lemma QueueMovesOn(queue: seq<Record>, items: seq<Item>, mode: Mode, ds: seq<Directive>)
    requires ds != [] && DistinctTargets(ds) && Waits(items, mode, ds[|ds| - 1])
    ensures var was, d := Waiting(items, mode, ds[..|ds| - 1]), ds[|ds| - 1];
      Others(Kept(queue, RecordIds(was)) + was, d.id) + [Record(d.id, d.text)] ==
      Kept(queue, RecordIds(Waiting(items, mode, ds))) + Waiting(items, mode, ds)
  {
    var was, d := Waiting(items, mode, ds[..|ds| - 1]), ds[|ds| - 1];
    forall x | x in was ensures x.id != d.id {
      QueuedExactly(items, mode, ds[..|ds| - 1], x.id, x.text);
      var n :| 0 <= n < |ds| - 1 && ds[..|ds| - 1][n].id == x.id;
      assert ds[n].id == x.id;
    }
    OthersSplit(Kept(queue, RecordIds(was)), was, d.id);
    OthersAreKept(queue, RecordIds(was), d.id);
    OneMoreId(was, d.id, d.text);
  }

  lemma OneMoreId(was: seq<Record>, id: Id, text: string)
    ensures RecordIds(was + [Record(id, text)]) == RecordIds(was) + {id}
  {
    var all := was + [Record(id, text)];
    assert all[|was|] == Record(id, text);
    assert forall x :: x in was ==> x in all;
    assert forall x :: x in all ==> x in was || x == Record(id, text);
  }

  // With a failure: of the directives that took effect, the queue as it was unless it was written.
  lemma DisposedSortsOut(desk: Desk, items: seq<Item>, mode: Mode, ds: seq<Directive>, fault: Option<Fault>)
    requires DistinctTargets(ds) && forall n :: 0 <= n < |ds| ==> Answers(ds[n], items)
    ensures var after, done := Disposed(desk, items, mode, ds, fault), Handled(ds, fault);
      if fault.Some? && fault.value.place.AtDirective?
      then exists full :: SortsOut(desk, items, mode, done, full) && after == full.(queue := desk.queue)
      else SortsOut(desk, items, mode, ds, after)
  {
    HandleAllSortsOut(desk, items, mode, Handled(ds, fault));
  }

  class Seat {
    var desk: Desk
    var budget: Budget
    var mode: Mode

    constructor (mode: Mode)
      ensures desk == Desk([], [], []) && budget == Budget(false, 0, None) && this.mode == mode
    {
      desk, budget, this.mode := Desk([], [], []), Budget(false, 0, None), mode;
    }

    method Answer(id: Id)
      modifies this`desk
      ensures desk == old(desk).(answers := old(desk).answers + [id])
    {
      desk := desk.(answers := desk.answers + [id]);
    }

    // Apply, queue or escalate each directive, in order. The queue is written back once, at the end, and the
    // count reset after that; the failure may come at any of these writes.
    method DisposeDirectives(items: seq<Item>, ds: seq<Directive>, fault: Option<Fault>) returns (ok: bool)
      modifies this`desk, this`budget
      ensures desk == Disposed(old(desk), items, mode, ds, fault) && ok == fault.None?
      ensures budget == if fault.None? || fault.value.place == AfterReset then old(budget).(refusals := 0)
                        else old(budget)
      ensures DistinctTargets(ds) && (forall n :: 0 <= n < |ds| ==> Answers(ds[n], items)) && fault.None? ==>
        SortsOut(old(desk), items, mode, ds, desk)
    {
      if DistinctTargets(ds) && forall n :: 0 <= n < |ds| ==> Answers(ds[n], items) {
        DisposedSortsOut(desk, items, mode, ds, fault);
      }
      var queue := desk.queue;
      for n := 0 to |ds|
        invariant desk.(queue := queue) == HandleAll(old(desk), items, mode, ds[..n]) && desk.queue == old(desk).queue
        invariant budget == old(budget) && (fault.Some? && fault.value.place.AtDirective? ==> n <= fault.value.place.n)
      {
        if fault.Some? && fault.value.place == AtDirective(n) { return false; }
        assert ds[..n + 1][..n] == ds[..n];
        var d := ds[n];
        var found := LastItem(items, d.id);
        var item := if found.Some? then found.value else Item(d.id, false, OtherKind);
        match Dispose(mode, item) {
          case Apply => Answer(d.id);
          case Queue => queue := Others(queue, d.id) + [Record(d.id, d.text)];
          case Escalate => desk := desk.(escalations := desk.escalations + [d.id]);
        }
      }
      assert ds[..|ds|] == ds;
      if fault.Some? && fault.value.place.AtDirective? { return false; }
      desk := desk.(queue := queue);
      if fault.Some? && fault.value.place == AfterQueue { return false; }
      budget := budget.(refusals := 0);
      ok := fault.None?;
    }

    method CountRefusedTurn(inbox: seq<Item>)
      modifies this`budget
      ensures budget == CountRefusal(old(budget), Fingerprint(inbox))
    {
      var scope := Fingerprint(inbox);
      budget := Budget(false, if budget.scope == Some(scope) then budget.refusals + 1 else 1, Some(scope));
    }

    // The run is given up first, so a turn is consumed at most once; and unless its row is missing, it ends
    // admitted or counted as a refusal, whatever fails.
    method ConsumeRun(items: seq<Item>, turn: Turn)
      modifies this
      ensures budget == AfterConsume(old(budget), items, turn) && mode == old(mode)
      ensures desk == if old(budget).running && Admitted(turn, items)
                      then Disposed(old(desk), items, mode, turn.doc.directives, turn.fault) else old(desk)
    {
      if !budget.running || turn.Unfinished? { return; }
      budget := budget.(running := false);
      if turn.Missing? { return; }
      if turn.Response? {
        var ok, errors := ValidateDirectiveResponse(turn.doc, items);
        if ok {
          ok := DisposeDirectives(items, turn.doc.directives, turn.fault);
          if !ok { CountRefusedTurn(turn.fault.value.left); }
          return;
        }
      }
      CountRefusedTurn(items);
    }

    // Consume, then dispatch the next turn if there is work and the seat is not halted.
    method GovernanceStep(items: seq<Item>, turn: Turn, offer: set<Id>, admitted: bool) returns (dispatched: bool)
      modifies this
      ensures var b := Rescoped(AfterConsume(old(budget), items, turn), offer);
        dispatched == (admitted && MayDispatch(b, offer)) && budget == if dispatched then b.(running := true) else b
      ensures desk == if old(budget).running && Admitted(turn, items)
                      then Disposed(old(desk), items, mode, turn.doc.directives, turn.fault) else old(desk)
      ensures GovernsAs(old(budget), items, turn, offer, admitted, budget, dispatched)
    {
      StepGovernsAs(budget, items, turn, offer, admitted);
      ConsumeRun(items, turn);
      if budget.refusals > 0 && Some(offer) != budget.scope { budget := budget.(refusals := 0); }
      if budget.refusals >= MAX_CONSECUTIVE_REFUSALS { return false; }
      dispatched := !budget.running && offer != {} && admitted;
      if dispatched { budget := budget.(running := true); }
    }

    // Removed from the queue before it is applied; every record for the question goes.
    method Approve(id: Id) returns (v: Verdict)
      modifies this`desk
      ensures (v, desk) == AfterApprove(old(desk), id)
    {
      if forall x :: x in desk.queue ==> x.id != id { return NotQueued; }
      desk := desk.(queue := Others(desk.queue, id));
      if id in desk.answers { return AlreadyAnswered; }
      Answer(id);
      return Done;
    }

    method Discard(id: Id) returns (v: Verdict)
      modifies this`desk
      ensures (v, desk) == AfterDiscard(old(desk), id)
    {
      var keep := Others(desk.queue, id);
      if |keep| == |desk.queue| { return NotQueued; }
      desk := desk.(queue := keep);
      return Done;
    }
  }

  // ---- the queue -----------------------------------------------------------------------------------

  datatype DeskEvent =
    | Consumed(items: seq<Item>, mode: Mode, ds: seq<Directive>, fault: Option<Fault>)
    | Approved(id: Id) | Discarded(id: Id) | Human(id: Id)

  function DeskStep(d: Desk, e: DeskEvent): Desk {
    match e
    case Consumed(items, mode, ds, fault) => Disposed(d, items, mode, ds, fault)
    case Approved(id) => AfterApprove(d, id).1
    case Discarded(id) => AfterDiscard(d, id).1
    case Human(id) => d.(answers := d.answers + [id])
  }

  function DeskMachine(): (Desk, DeskEvent) -> Desk { (d, e) => DeskStep(d, e) }

  predicate DeskInv(d: Desk) {
    OnePerQuestion(d.queue)
  }

  lemma {:induction false} HandleAllKeepsInv(d: Desk, items: seq<Item>, mode: Mode, ds: seq<Directive>)
    requires DeskInv(d)
    ensures DeskInv(HandleAll(d, items, mode, ds))
  {
    if ds != [] {
      HandleAllKeepsInv(d, items, mode, ds[..|ds| - 1]);
      OthersStayDistinct(HandleAll(d, items, mode, ds[..|ds| - 1]).queue, ds[|ds| - 1].id);
    }
  }

  lemma DeskStepKeepsInv(d: Desk, e: DeskEvent)
    requires DeskInv(d)
    ensures DeskInv(DeskStep(d, e))
  {
    match e
    case Consumed(items, mode, ds, fault) => HandleAllKeepsInv(d, items, mode, Handled(ds, fault));
    case Approved(id) => OthersStayDistinct(d.queue, id);
    case Discarded(id) => OthersStayDistinct(d.queue, id);
    case Human(id) =>
  }

  // ONE PENDING DIRECTIVE PER QUESTION, after any sequence of consumed turns, approvals, discards and
  // human answers, in any mode; and an approval then never answers an answered message, answers one
  // that is queued and unanswered exactly once, and leaves no record for it behind.
  lemma OnePendingPerQuestion(es: seq<DeskEvent>, id: Id)
    ensures var d := Run(DeskMachine(), Desk([], [], []), es);
      var (v, after) := AfterApprove(d, id);
      OnePerQuestion(d.queue) &&
      (forall x :: x in after.queue ==> x.id != id) &&
      (id in d.answers ==> after.answers == d.answers) &&
      (v == Done <==> id !in d.answers && exists x :: x in d.queue && x.id == id) &&
      (v == Done ==> after.answers == d.answers + [id] && |after.queue| == |d.queue| - 1)
  {
    var ok := (d: Desk, e: DeskEvent) => true;
    forall d, e | DeskInv(d) && ok(d, e) ensures DeskInv(DeskMachine()(d, e)) { DeskStepKeepsInv(d, e); }
    AllAllowed(DeskMachine(), ok, Desk([], [], []), es);
    InvariantHolds(DeskMachine(), ok, DeskInv, Desk([], [], []), es);
    OneLess(Run(DeskMachine(), Desk([], [], []), es).queue, id);
  }

  lemma {:induction false} OneLess(queue: seq<Record>, id: Id)
    requires OnePerQuestion(queue)
    ensures (exists x :: x in queue && x.id == id) ==> |Others(queue, id)| == |queue| - 1
  {
    if queue != [] {
      var front, last := queue[..|queue| - 1], queue[|queue| - 1];
      assert queue == front + [last];
      OneLess(front, id);
      if last.id == id {
        forall x | x in front ensures x.id != id {
          var i :| 0 <= i < |front| && front[i] == x;
          assert queue[i].id != queue[|queue| - 1].id;
        }
      }
    }
  }

  // ---- the owner's questions -----------------------------------------------------------------------

  // What becomes of a directive is decided by the last item shown under its id: one of the owner's is
  // refused by validation, and would be escalated in every mode if it got through.
  lemma OwnerItemsAreNeverDisposedOf(doc: Doc, items: seq<Item>, mode: Mode, n: nat)
    requires Admissible(doc, items) && n < |doc.directives|
    ensures var last := LastItem(items, doc.directives[n].id);
      last.Some? && !last.value.owner &&
      (Dispose(mode, last.value) == Apply <==>
         !OwnerKind(last.value.kind) && (mode == Auto || (mode == Safe && Routine(last.value.kind))))
  {
    assert Answers(doc.directives[n], items);
  }

  // An admissible response answers this id.
  ghost predicate AnsweredBy(doc: Doc, items: seq<Item>, id: Id) {
    Admissible(doc, items) && exists n :: 0 <= n < |doc.directives| && doc.directives[n].id == id
  }

  // A question shown can be answered exactly when the LAST item under its id is not the owner's. The
  // owner's own item is protected exactly when nothing else is shown under its id after it.
  lemma OwnerItemsExactly(items: seq<Item>, i: nat)
    requires i < |items| && items[i].id != ""
    ensures LastItem(items, items[i].id).Some?
    ensures (exists doc :: AnsweredBy(doc, items, items[i].id)) <==> !LastItem(items, items[i].id).value.owner
  {
    var id := items[i].id;
    if !LastItem(items, id).value.owner {
      assert AnsweredBy(Only(id), items, id) by { assert Only(id).directives[0].id == id; }
    }
  }

  // One well-formed directive.
  function Only(id: Id): Doc {
    Doc(false, [Directive(id, "t", "", false, false)])
  }

  // So when no id is shown twice, no owner item is ever answered.
  lemma DistinctIdsProtectTheOwner(doc: Doc, items: seq<Item>, i: nat, n: nat)
    requires forall a, b :: 0 <= a < b < |items| && items[a].id != "" ==> items[a].id != items[b].id
    requires Admissible(doc, items) && i < |items| && items[i].owner && n < |doc.directives|
    ensures doc.directives[n].id != items[i].id
  {
    assert Answers(doc.directives[n], items);
    var last := LastItem(items, doc.directives[n].id).value;
    var k :| 0 <= k < |items| && items[k] == last;
  }

  // The last item under this id applies without asking anybody.
  predicate Applies(items: seq<Item>, mode: Mode, id: Id) {
    LastItem(items, id).Some? && Dispose(mode, LastItem(items, id).value) == Apply
  }

  function AppliedIds(items: seq<Item>, mode: Mode, ds: seq<Directive>): (r: seq<Id>)
    ensures forall id :: id in r ==> Applies(items, mode, id)
  {
    if ds == [] then []
    else AppliedIds(items, mode, ds[..|ds| - 1]) +
         if Applies(items, mode, ds[|ds| - 1].id) then [ds[|ds| - 1].id] else []
  }

  lemma {:induction false} AppliedAre(items: seq<Item>, mode: Mode, ds: seq<Directive>, id: Id)
    ensures id in AppliedIds(items, mode, ds) <==>
            Applies(items, mode, id) && exists n :: 0 <= n < |ds| && ds[n].id == id
  {
    if ds != [] {
      var front := ds[..|ds| - 1];
      AppliedAre(items, mode, front, id);
      assert forall n :: 0 <= n < |front| ==> front[n] == ds[n];
    }
  }

  lemma {:induction false} HandleAllAnswers(desk: Desk, items: seq<Item>, mode: Mode, ds: seq<Directive>)
    requires forall n :: 0 <= n < |ds| ==> Answers(ds[n], items)
    ensures HandleAll(desk, items, mode, ds).answers == desk.answers + AppliedIds(items, mode, ds)
  {
    if ds != [] {
      assert Answers(ds[|ds| - 1], items);
      HandleAllAnswers(desk, items, mode, ds[..|ds| - 1]);
    }
  }

  // And an answer reaches the message, at once, exactly when that last item also applies in the mode.
  lemma AnsweredExactly(desk: Desk, items: seq<Item>, mode: Mode, id: Id)
    requires id !in desk.answers
    ensures (exists doc {:trigger Admissible(doc, items)} ::
               Admissible(doc, items) && id in HandleAll(desk, items, mode, doc.directives).answers) <==>
            Applies(items, mode, id)
  {
    forall doc | Admissible(doc, items) && id in HandleAll(desk, items, mode, doc.directives).answers
      ensures Applies(items, mode, id)
    {
      HandleAllAnswers(desk, items, mode, doc.directives);
    }
    if Applies(items, mode, id) {
      OnlyApplies(desk, items, mode, id);
    }
  }

  lemma OnlyApplies(desk: Desk, items: seq<Item>, mode: Mode, id: Id)
    requires Applies(items, mode, id)
    ensures Admissible(Only(id), items)
    ensures HandleAll(desk, items, mode, Only(id).directives).answers == desk.answers + [id]
  {
    var ds := Only(id).directives;
    HandleAllAnswers(desk, items, mode, ds);
    assert ds[..0] == [] && AppliedIds(items, mode, ds) == [id];
  }

  // That is no idle condition: a directive queued earlier is shown again under the same id, last and not as
  // the owner's: the owner's own item is then shadowed, the directive is admitted, and in AUTO it applies.
  lemma OwnerItemCanBeShadowed() returns (items: seq<Item>, doc: Doc)
    ensures |items| == 2 && items[0].owner && |doc.directives| == 1 && doc.directives[0].id == items[0].id
    ensures Admissible(doc, items)
    ensures HandleAll(Desk([], [], []), items, Auto, doc.directives).answers == [items[0].id]
  {
    items := [Item("m", true, Blocker), Item("m", false, PendingApproval)];
    doc := Only("m");
    assert LastItem(items, "m") == Some(items[1]);
    OnlyApplies(Desk([], [], []), items, Auto, "m");
  }

  // ---- answering twice -----------------------------------------------------------------------------

  lemma NoRepeatJoins(ids: seq<Id>, id: Id)
    ensures NoRepeat(ids + [id]) <==> NoRepeat(ids) && id !in ids
  {
    var all := ids + [id];
    assert all[|ids|] == id && forall k :: 0 <= k < |ids| ==> all[k] == ids[k];
    if NoRepeat(all) {
      assert forall k :: 0 <= k < |ids| ==> all[k] != all[|ids|];
    }
  }

  lemma NoRepeatPrefix(ids: seq<Id>, all: seq<Id>)
    requires ids <= all && NoRepeat(all)
    ensures NoRepeat(ids)
  {
    assert forall k :: 0 <= k < |ids| ==> ids[k] == all[k];
  }

  // No directive applied is for a message already answered.
  predicate Unanswered(answers: seq<Id>, items: seq<Item>, mode: Mode, ds: seq<Directive>) {
    forall n :: 0 <= n < |ds| && Applies(items, mode, ds[n].id) ==> ds[n].id !in answers
  }

  lemma LastUnanswered(answers: seq<Id>, items: seq<Item>, mode: Mode, ds: seq<Directive>)
    requires ds != []
    ensures Unanswered(answers, items, mode, ds) <==>
            Unanswered(answers, items, mode, ds[..|ds| - 1]) &&
            (Applies(items, mode, ds[|ds| - 1].id) ==> ds[|ds| - 1].id !in answers)
  {
    var front := ds[..|ds| - 1];
    assert forall n :: 0 <= n < |front| ==> front[n] == ds[n];
  }

  lemma LastIsNew(items: seq<Item>, mode: Mode, ds: seq<Directive>)
    requires ds != [] && DistinctTargets(ds)
    ensures ds[|ds| - 1].id !in AppliedIds(items, mode, ds[..|ds| - 1]) && DistinctTargets(ds[..|ds| - 1])
  {
    AppliedAre(items, mode, ds[..|ds| - 1], ds[|ds| - 1].id);
  }

  lemma {:induction false} AppliedRepeat(answers: seq<Id>, items: seq<Item>, mode: Mode, ds: seq<Directive>)
    requires NoRepeat(answers) && DistinctTargets(ds)
    ensures NoRepeat(answers + AppliedIds(items, mode, ds)) <==> Unanswered(answers, items, mode, ds)
  {
    if ds == [] {
      assert answers + [] == answers;
    } else {
      var front, id := ds[..|ds| - 1], ds[|ds| - 1].id;
      var applied := AppliedIds(items, mode, front);
      LastIsNew(items, mode, ds);
      LastUnanswered(answers, items, mode, ds);
      AppliedRepeat(answers, items, mode, front);
      if Applies(items, mode, id) {
        assert answers + AppliedIds(items, mode, ds) == answers + applied + [id];
        NoRepeatJoins(answers + applied, id);
      } else {
        assert answers + AppliedIds(items, mode, ds) == answers + applied;
      }
    }
  }

  // The seat's own path does not ask whether a message was answered before. Shown these items, it cannot
  // answer one twice exactly when no id whose last item applies in the mode is answered already.
  lemma {:induction false} SeatAnswersOnceExactly(desk: Desk, items: seq<Item>, mode: Mode)
    requires NoRepeat(desk.answers)
    ensures (forall doc {:trigger Admissible(doc, items)} ::
               Admissible(doc, items) ==> NoRepeat(HandleAll(desk, items, mode, doc.directives).answers)) <==>
            (forall id :: id in desk.answers ==> !Applies(items, mode, id))
  {
    forall doc | Admissible(doc, items) && (forall id :: id in desk.answers ==> !Applies(items, mode, id))
      ensures NoRepeat(HandleAll(desk, items, mode, doc.directives).answers)
    {
      HandleAllAnswers(desk, items, mode, doc.directives);
      AppliedRepeat(desk.answers, items, mode, doc.directives);
    }
    forall id | id in desk.answers && Applies(items, mode, id)
      ensures Admissible(Only(id), items) && !NoRepeat(HandleAll(desk, items, mode, Only(id).directives).answers)
    {
      OnlyApplies(desk, items, mode, id);
      NoRepeatJoins(desk.answers, id);
    }
  }

  // The least instance: AUTO, shown an answered message, answers it again.
  lemma SeatCanAnswerTwice(id: Id)
    requires id != ""
    ensures var items := [Item(id, false, Blocker)];
      Admissible(Only(id), items) &&
      HandleAll(Desk([], [id], []), items, Auto, Only(id).directives).answers == [id, id]
  {
    var items := [Item(id, false, Blocker)];
    assert LastItem(items, id) == Some(items[0]);
    OnlyApplies(Desk([], [id], []), items, Auto, id);
  }

  // What a caller of the two unguarded paths would have to check; approval checks it itself.
  predicate AnswersFresh(d: Desk, e: DeskEvent) {
    match e
    case Consumed(items, mode, ds, fault) => Unanswered(d.answers, items, mode, Handled(ds, fault))
    case Human(id) => id !in d.answers
    case _ => true
  }

  predicate Validated(e: DeskEvent) {
    e.Consumed? ==> Admissible(Doc(false, e.ds), e.items)
  }

  lemma DeskStepAnswers(d: Desk, e: DeskEvent)
    requires Validated(e)
    ensures d.answers <= DeskStep(d, e).answers
    ensures NoRepeat(d.answers) ==> (NoRepeat(DeskStep(d, e).answers) <==> AnswersFresh(d, e))
  {
    match e
    case Consumed(items, mode, ds, fault) =>
      assert forall n :: 0 <= n < |ds| ==> Doc(false, ds).directives[n] == ds[n];
      var done := Handled(ds, fault);
      HandleAllAnswers(d, items, mode, done);
      if NoRepeat(d.answers) { AppliedRepeat(d.answers, items, mode, done); }
    case Approved(id) => NoRepeatJoins(d.answers, id);
    case Discarded(id) =>
    case Human(id) => NoRepeatJoins(d.answers, id);
  }

  lemma {:induction false} AnswersStay(d: Desk, es: seq<DeskEvent>)
    requires forall n :: 0 <= n < |es| ==> Validated(es[n])
    ensures d.answers <= Run(DeskMachine(), d, es).answers
    decreases es
  {
    if es != [] {
      DeskStepAnswers(d, es[0]);
      AnswersStay(DeskStep(d, es[0]), es[1..]);
    }
  }

  // NO MESSAGE IS ANSWERED TWICE over a whole history of validated turns, approvals, discards and human
  // answers exactly when each turn and each human answer found its messages unanswered.
  lemma {:induction false} NoMessageAnsweredTwice(d: Desk, es: seq<DeskEvent>)
    requires NoRepeat(d.answers) && forall n :: 0 <= n < |es| ==> Validated(es[n])
    ensures NoRepeat(Run(DeskMachine(), d, es).answers) <==> Allowed(DeskMachine(), AnswersFresh, d, es)
    decreases es
  {
    if es != [] {
      var next := DeskStep(d, es[0]);
      DeskStepAnswers(d, es[0]);
      if AnswersFresh(d, es[0]) {
        NoMessageAnsweredTwice(next, es[1..]);
      } else {
        AnswersStay(next, es[1..]);
        if NoRepeat(Run(DeskMachine(), d, es).answers) {
          NoRepeatPrefix(next.answers, Run(DeskMachine(), d, es).answers);
        }
      }
    }
  }

  // ---- the refusal budget --------------------------------------------------------------------------

  datatype BudgetEvent = Govern(items: seq<Item>, turn: Turn, offer: set<Id>, admitted: bool)

  function BudgetStep(b: Budget, e: BudgetEvent): Budget {
    var next := Rescoped(AfterConsume(b, e.items, e.turn), e.offer);
    if e.admitted && MayDispatch(next, e.offer) then next.(running := true) else next
  }

  function Dispatches(b: Budget, e: BudgetEvent): nat {
    if e.admitted && MayDispatch(Rescoped(AfterConsume(b, e.items, e.turn), e.offer), e.offer) then 1 else 0
  }

  lemma EventGovernsAs(b: Budget, e: BudgetEvent)
    ensures GovernsAs(b, e.items, e.turn, e.offer, e.admitted, BudgetStep(b, e), Dispatches(b, e) == 1)
    ensures Dispatches(b, e) <= 1
  {
    StepGovernsAs(b, e.items, e.turn, e.offer, e.admitted);
  }

  function BudgetMachine(): (Budget, BudgetEvent) -> Budget { (b, e) => BudgetStep(b, e) }

  function DispatchesOf(): (Budget, BudgetEvent) -> nat { (b, e) => Dispatches(b, e) }

  // The work on offer is always f, and every turn that finishes is refused on it, its count not reset first.
  predicate Hopeless(f: set<Id>, e: BudgetEvent) {
    e.offer == f && Fingerprint(CountedOn(e.turn, e.items)) == f &&
    (e.turn.Unfinished? || (RefusedTurn(e.turn, e.items) && !ResetFirst(e.turn, e.items)))
  }

  // Turns left before the seat halts on f.
  function TurnsLeft(f: set<Id>, b: Budget): nat {
    var used := (if b.scope == Some(f) then b.refusals else 0) + (if b.running then 1 else 0);
    if used >= MAX_CONSECUTIVE_REFUSALS then 0 else MAX_CONSECUTIVE_REFUSALS - used
  }

  lemma HopelessStepPays(f: set<Id>, b: Budget, e: BudgetEvent)
    requires Hopeless(f, e)
    ensures Dispatches(b, e) + TurnsLeft(f, BudgetStep(b, e)) <= TurnsLeft(f, b)
  {
  }

  // THREE STRIKES. While the answerable questions stay the same and every turn is refused, at most three
  // turns are dispatched, less those already used up on these questions.
  lemma {:induction false} AtMostThreeHopelessTurns(f: set<Id>, b: Budget, es: seq<BudgetEvent>)
    requires forall n :: 0 <= n < |es| ==> Hopeless(f, es[n])
    ensures Total(BudgetMachine(), DispatchesOf(), b, es) <= TurnsLeft(f, b) <= MAX_CONSECUTIVE_REFUSALS
    decreases es
  {
    if es != [] {
      HopelessStepPays(f, b, es[0]);
      AtMostThreeHopelessTurns(f, BudgetStep(b, es[0]), es[1..]);
    }
  }

  function Refusals(b: Budget, e: BudgetEvent): nat {
    if b.running && RefusedTurn(e.turn, e.items) then 1 else 0
  }

  function RefusalsOf(): (Budget, BudgetEvent) -> nat { (b, e) => Refusals(b, e) }

  // f is what is on offer, and a turn that ends here is refused on these very questions.
  predicate OpensAt(f: set<Id>, b: Budget, e: BudgetEvent) {
    e.offer == f &&
    (b.running && !e.turn.Unfinished? && !e.turn.Missing? ==>
       RefusedTurn(e.turn, e.items) && Fingerprint(CountedOn(e.turn, e.items)) == f)
  }

  // The same, and the count goes on.
  predicate SteadyAt(f: set<Id>, b: Budget, e: BudgetEvent) {
    OpensAt(f, b, e) && !(b.running && ResetFirst(e.turn, e.items))
  }

  function Steady(f: set<Id>): (Budget, BudgetEvent) -> bool { (b, e) => SteadyAt(f, b, e) }

  const UNUSED := Budget(false, 0, None)

  // From the i-th event on, f has been on offer throughout and n turns on it were refused, none admitted, and
  // after the first event no count reset.
  ghost predicate Struck(es: seq<BudgetEvent>, f: set<Id>, i: nat, n: nat) {
    i < |es| &&
    var b := Run(BudgetMachine(), UNUSED, es[..i]);
    OpensAt(f, b, es[i]) && n >= Refusals(b, es[i]) &&
    Window(BudgetMachine(), RefusalsOf(), Steady(f), UNUSED, es, i + 1, n - Refusals(b, es[i]))
  }

  lemma StruckOpens(front: seq<BudgetEvent>, e: BudgetEvent, f: set<Id>)
    requires OpensAt(f, Run(BudgetMachine(), UNUSED, front), e)
    ensures Struck(front + [e], f, |front|, Refusals(Run(BudgetMachine(), UNUSED, front), e))
  {
    assert (front + [e])[..|front|] == front;
    WindowOpens(BudgetMachine(), RefusalsOf(), Steady(f), UNUSED, front + [e]);
  }

  lemma StruckGrows(front: seq<BudgetEvent>, e: BudgetEvent, f: set<Id>, i: nat, n: nat)
    requires Struck(front, f, i, n) && SteadyAt(f, Run(BudgetMachine(), UNUSED, front), e)
    ensures Struck(front + [e], f, i, n + Refusals(Run(BudgetMachine(), UNUSED, front), e))
  {
    assert (front + [e])[..i] == front[..i];
    WindowGrows(BudgetMachine(), RefusalsOf(), Steady(f), UNUSED, front, i + 1,
                n - Refusals(Run(BudgetMachine(), UNUSED, front[..i]), front[i]), e);
  }

  // The count is the number of refusals in such a window.
  lemma {:induction false} CountIsStruck(es: seq<BudgetEvent>) returns (i: nat)
    ensures var b := Run(BudgetMachine(), UNUSED, es);
      b.refusals > 0 ==> b.scope.Some? && Struck(es, b.scope.value, i, b.refusals)
    decreases |es|
  {
    i := 0;
    if es != [] {
      var front, e := es[..|es| - 1], es[|es| - 1];
      assert es == front + [e];
      i := CountIsStruck(front);
      var b, next := Run(BudgetMachine(), UNUSED, front), Run(BudgetMachine(), UNUSED, es);
      Snoc(BudgetMachine(), RefusalsOf(), Steady(e.offer), UNUSED, front, e);
      if next.refusals > 0 {
        StepIsSteady(b, e);
        if GoesOn(b, e) {
          StruckGrows(front, e, e.offer, i, b.refusals);
        } else {
          i := |front|;
          StruckOpens(front, e, e.offer);
        }
      }
    }
  }

  // The event adds to a count already begun on what is on offer.
  predicate GoesOn(b: Budget, e: BudgetEvent) {
    b.refusals > 0 && b.scope == Some(e.offer) && !(b.running && ResetFirst(e.turn, e.items))
  }

  lemma StepIsSteady(b: Budget, e: BudgetEvent)
    requires BudgetStep(b, e).refusals > 0
    ensures OpensAt(e.offer, b, e) && BudgetStep(b, e).scope == Some(e.offer)
    ensures GoesOn(b, e) ==> SteadyAt(e.offer, b, e)
    ensures BudgetStep(b, e).refusals == (if GoesOn(b, e) then b.refusals else 0) + Refusals(b, e)
  {
  }

  lemma {:induction false} SteadyCounts(f: set<Id>, b: Budget, es: seq<BudgetEvent>)
    requires Allowed(BudgetMachine(), Steady(f), b, es)
    ensures Run(BudgetMachine(), b, es).refusals >= Total(BudgetMachine(), RefusalsOf(), b, es)
    ensures b.scope == Some(f) ==>
      Run(BudgetMachine(), b, es).refusals == b.refusals + Total(BudgetMachine(), RefusalsOf(), b, es)
    decreases es
  {
    if es != [] {
      SteadyStep(f, b, es[0]);
      SteadyCounts(f, BudgetStep(b, es[0]), es[1..]);
    }
  }

  lemma SteadyStep(f: set<Id>, b: Budget, e: BudgetEvent)
    requires OpensAt(f, b, e)
    ensures Refusals(b, e) > 0 ==> BudgetStep(b, e).scope == Some(f) && BudgetStep(b, e).refusals >= 1
    ensures SteadyAt(f, b, e) && b.scope == Some(f) ==>
      BudgetStep(b, e).scope == Some(f) && BudgetStep(b, e).refusals == b.refusals + Refusals(b, e)
  {
  }

  lemma StruckCounts(es: seq<BudgetEvent>, f: set<Id>, i: nat, n: nat)
    requires Struck(es, f, i, n)
    ensures Run(BudgetMachine(), UNUSED, es).refusals >= n
  {
    var b := Run(BudgetMachine(), UNUSED, es[..i]);
    var next := BudgetStep(b, es[i]);
    assert es == es[..i + 1] + es[i + 1..] && es[..i + 1] == es[..i] + [es[i]];
    Snoc(BudgetMachine(), RefusalsOf(), Steady(f), UNUSED, es[..i], es[i]);
    RunConcat(BudgetMachine(), UNUSED, es[..i + 1], es[i + 1..]);
    SteadyStep(f, b, es[i]);
    SteadyCounts(f, next, es[i + 1..]);
  }

  // WHEN THE SEAT HALTS. It stands halted exactly when some set of questions has been on offer without a
  // break while three turns on it were refused, none admitted between them and the count not reset after the
  // first.
  lemma {:induction false} HaltsExactly(es: seq<BudgetEvent>)
    ensures Run(BudgetMachine(), UNUSED, es).refusals >= MAX_CONSECUTIVE_REFUSALS <==>
            exists f: set<Id>, i: nat, n: nat :: n >= MAX_CONSECUTIVE_REFUSALS && Struck(es, f, i, n)
  {
    var b := Run(BudgetMachine(), UNUSED, es);
    var i := CountIsStruck(es);
    if b.refusals >= MAX_CONSECUTIVE_REFUSALS {
      assert Struck(es, b.scope.value, i, b.refusals);
    }
    forall f: set<Id>, j: nat, n: nat | n >= MAX_CONSECUTIVE_REFUSALS && Struck(es, f, j, n)
      ensures b.refusals >= MAX_CONSECUTIVE_REFUSALS
    {
      StruckCounts(es, f, j, n);
    }
  }

  // A disposition that fails after the reset, every time, is a first refusal every time: the same questions
  // are dispatched for ever.
  lemma {:induction false} LateFailuresNeverHalt(id: Id, b: Budget, n: nat) returns (es: seq<BudgetEvent>)
    requires id != "" && b.running && b.refusals < MAX_CONSECUTIVE_REFUSALS
    ensures |es| == n && Total(BudgetMachine(), DispatchesOf(), b, es) == n
    ensures forall k :: 0 <= k < n ==> es[k].offer == {id} && RefusedTurn(es[k].turn, es[k].items)
    decreases n
  {
    es := [];
    if n > 0 {
      var items := [Item(id, false, DecisionRequest)];
      var e := Govern(items, Response(Only(id), Some(Fault(AfterReset, items))), {id}, true);
      assert Fingerprint(items) == {id} by { assert items[0].id in Fingerprint(items); }
      assert LastItem(items, id) == Some(items[0]);
      OnlyAdmissible(items, id);
      assert id in {id};
      var next := BudgetStep(b, e);
      assert next.running && next.refusals == 1;
      var rest := LateFailuresNeverHalt(id, next, n - 1);
      es := [e] + rest;
      assert es[1..] == rest;
    }
  }

  lemma OnlyAdmissible(items: seq<Item>, id: Id)
    requires LastItem(items, id).Some? && !LastItem(items, id).value.owner
    ensures Admissible(Only(id), items)
  {
  }

  // So if two sets take turns on offer, every refusal is a first one, and the seat never halts.
  lemma {:induction false} AlternatingWorkNeverHalts(f: Id, g: Id, b: Budget, n: nat) returns (es: seq<BudgetEvent>)
    requires f != g && f != "" && g != "" && b.running && (b.refusals == 0 || b.scope == Some({f}))
    ensures |es| == n && Total(BudgetMachine(), DispatchesOf(), b, es) == n
    ensures forall k :: 0 <= k < n ==> es[k].turn.Unreadable?
    decreases n
  {
    es := [];
    if n > 0 {
      var items := [Item(g, false, DecisionRequest)];
      var e := Govern(items, Unreadable, {g}, true);
      assert Fingerprint(items) == {g} by { assert items[0].id in Fingerprint(items); }
      assert g in {g} && g !in {f};
      var next := BudgetStep(b, e);
      assert next.running && next.scope == Some({g});
      var rest := AlternatingWorkNeverHalts(g, f, next, n - 1);
      es := [e] + rest;
      assert es[1..] == rest;
    }
  }
}
