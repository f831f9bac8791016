// What one fetch round produces (logicrunner/request_fetcher.go), as a function
// of what the ledger answers; and what that is when the ledger is faithful.
module Fetching {
  import opened Collections
  import opened References
  import opened ExecutionRegistries
  import opened BrokerSystem

  const SKIP_SLICE_SIZE_LIMIT := 300

  datatype PendingsAnswer = Pendings(refs: seq<Reference>) | NoPendingRequest | PendingsError

  // valid: the request passes checkIncomingRequest or checkOutgoingRequest.
  datatype Request = Incoming(immutable: bool, valid: bool) | Outgoing(valid: bool) | Unknown

  datatype RequestAnswer = Got(request: Request) | RequestError

  // Everything a round sees of the world: the answer to its n-th GetPendings, the
  // answer to its n-th GetRequest, and whether it is aborted by then.
  datatype World = World(
    getPendings: (nat, seq<Local>) -> PendingsAnswer,
    getRequest: (nat, Reference) -> RequestAnswer,
    isAborted: nat -> bool)

  datatype End = ToldEmpty | PendingsFailed | RequestFailed | WasAborted | StillFetching

  // One answer of the world: to a GetPendings with this skip list, or to a
  // GetRequest, followed by whether the round was aborted by then.
  datatype Heard =
    | Told(skip: seq<Local>, pendings: PendingsAnswer)
    | Looked(ref: Reference, request: RequestAnswer, aborted: bool)

  // What a round has done so far, and what it has heard.
  datatype Round = Round(
    skip: seq<Local>, calls: nat, lookups: nat, emitted: seq<Item>, forwarded: seq<Reference>, heard: seq<Heard>)

  function Ask(rd: Round, answer: PendingsAnswer): Round {
    rd.(calls := rd.calls + 1, heard := rd.heard + [Told(rd.skip, answer)])
  }

  function Look(rd: Round, ref: Reference, answer: RequestAnswer, aborted: bool): Round {
    rd.(lookups := rd.lookups + 1, heard := rd.heard + [Looked(ref, answer, aborted)])
  }

  function Handle(rd: Round, ref: Reference, request: Request): Round {
    match request
    case Incoming(immutable, valid) =>
      if valid then rd.(emitted := rd.emitted + [Deliver(Transcript(ref, immutable))]) else rd
    case Outgoing(valid) => if valid then rd.(forwarded := rd.forwarded + [ref]) else rd
    case Unknown => rd
  }

  function Skip(rd: Round, ref: Reference): Round {
    rd.(skip := rd.skip + [ref.local])
  }

  // One batch; StillFetching if the round goes on after it.
  function Batch(w: World, rd: Round, refs: seq<Reference>): (Round, End)
    decreases |refs|
  {
    if refs == [] then (rd, StillFetching)
    else
      var skipped := Skip(rd, refs[0]);
      if !refs[0].IsRecordScope() then Batch(w, skipped, refs[1..])
      else
        var answer := w.getRequest(rd.lookups, refs[0]);
        match answer
        case RequestError => (Look(skipped, refs[0], answer, false), RequestFailed)
        case Got(request) =>
          if w.isAborted(rd.lookups) then (Look(skipped, refs[0], answer, true), WasAborted)
          else Batch(w, Handle(Look(skipped, refs[0], answer, false), refs[0], request), refs[1..])
  }

  function Trim(rd: Round): Round {
    if |rd.skip| > SKIP_SLICE_SIZE_LIMIT then rd.(skip := []) else rd
  }

  // A round cut off after the given number of calls to the ledger.
  function Fetch(w: World, rd: Round, limit: nat): (Round, End)
    decreases limit
  {
    if limit == 0 then (rd, StillFetching)
    else
      var answer := w.getPendings(rd.calls, Trim(rd).skip);
      var asked := Ask(Trim(rd), answer);
      match answer
      case NoPendingRequest => (asked.(emitted := rd.emitted + [NoMore]), ToldEmpty)
      case PendingsError => (asked, PendingsFailed)
      case Pendings(refs) =>
        var (after, end) := Batch(w, asked, refs);
        if end == StillFetching then Fetch(w, after, limit - 1) else (after, end)
  }

  const NEW_ROUND := Round([], 0, 0, [], [], [])

  // ----- nil comes last, and only when the ledger has nothing more

  predicate OnlyDeliveries(items: seq<Item>) {
    forall i :: 0 <= i < |items| ==> items[i].Deliver?
  }

  lemma {:induction false} BatchDelivers(w: World, rd: Round, refs: seq<Reference>)
    requires OnlyDeliveries(rd.emitted)
    ensures var (after, end) := Batch(w, rd, refs); OnlyDeliveries(after.emitted) && end != ToldEmpty
    decreases |refs|
  {
    if refs == [] {
    } else {
      var skipped := Skip(rd, refs[0]);
      if !refs[0].IsRecordScope() {
        BatchDelivers(w, skipped, refs[1..]);
      } else if w.getRequest(rd.lookups, refs[0]).Got? && !w.isAborted(rd.lookups) {
        var answer := w.getRequest(rd.lookups, refs[0]);
        BatchDelivers(w, Handle(Look(skipped, refs[0], answer, false), refs[0], answer.request), refs[1..]);
      }
    }
  }

  lemma {:induction false} NilIsLast(w: World, rd: Round, limit: nat)
    requires OnlyDeliveries(rd.emitted)
    ensures var (after, end) := Fetch(w, rd, limit);
            if end == ToldEmpty then
              after.emitted != [] && after.emitted[|after.emitted| - 1] == NoMore
              && OnlyDeliveries(after.emitted[..|after.emitted| - 1])
            else OnlyDeliveries(after.emitted)
    decreases limit
  {
    hide Batch;
    if limit == 0 {
    } else {
      var answer := w.getPendings(rd.calls, Trim(rd).skip);
      var asked := Ask(Trim(rd), answer);
      if answer.Pendings? {
        BatchDelivers(w, asked, answer.refs);
        var (after, end) := Batch(w, asked, answer.refs);
        if end == StillFetching { NilIsLast(w, after, limit - 1); }
      } else if answer.NoPendingRequest? {
        assert (rd.emitted + [NoMore])[..|rd.emitted|] == rd.emitted;
      }
    }
  }

  // ----- A faithful ledger with a fixed set of pendings, by record id

  type Pending = map<Local, Reference>

  predicate Distinct(refs: seq<Reference>) {
    forall i, j :: 0 <= i < j < |refs| ==> refs[i].local != refs[j].local
  }

  predicate GoodBatch(pendings: Pending, skip: seq<Local>, refs: seq<Reference>) {
    && Distinct(refs)
    && forall i :: 0 <= i < |refs| ==>
         refs[i].local in pendings && pendings[refs[i].local] == refs[i] && refs[i].local !in skip
  }

  predicate AllSkipped(pendings: Pending, skip: seq<Local>) {
    forall l :: l in pendings ==> l in skip
  }

  predicate GoodAnswer(pendings: Pending, skip: seq<Local>, answer: PendingsAnswer) {
    if AllSkipped(pendings, skip) then answer == NoPendingRequest
    else answer.Pendings? && answer.refs != [] && GoodBatch(pendings, skip, answer.refs)
  }

  ghost predicate Faithful(w: World, pendings: Pending, kind: Reference -> Request) {
    && (forall l :: l in pendings ==> pendings[l].local == l)
    && (forall n, skip :: GoodAnswer(pendings, skip, w.getPendings(n, skip)))
    && (forall n, ref :: w.getRequest(n, ref) == Got(kind(ref)))
    && (forall n :: !w.isAborted(n))
  }

  function Deliveries(items: seq<Item>, ref: Reference): nat {
    if items == [] then 0
    else Deliveries(items[..|items| - 1], ref)
         + One(items[|items| - 1].Deliver? && items[|items| - 1].transcript.requestRef == ref)
  }

  lemma DeliveriesPush(items: seq<Item>, item: Item, ref: Reference)
    ensures Deliveries(items + [item], ref) ==
            Deliveries(items, ref) + One(item.Deliver? && item.transcript.requestRef == ref)
  {
    assert (items + [item])[..|items|] == items;
  }

  // A pending the round has dealt with.
  predicate Handled(pendings: Pending, skip: seq<Local>, ref: Reference) {
    ref.local in pendings && pendings[ref.local] == ref && ref.local in skip && ref.IsRecordScope()
  }

  predicate Emits(request: Request) {
    request.Incoming? && request.valid
  }

  predicate Forwarded(request: Request) {
    request.Outgoing? && request.valid
  }

  // For one reference: emitted and forwarded as often as it should be.
  predicate ExactFor(pendings: Pending, kind: Reference -> Request, rd: Round, ref: Reference) {
    && Deliveries(rd.emitted, ref) == One(Handled(pendings, rd.skip, ref) && Emits(kind(ref)))
    && Occurrences(rd.forwarded, ref) == One(Handled(pendings, rd.skip, ref) && Forwarded(kind(ref)))
  }

  ghost predicate Exact(pendings: Pending, kind: Reference -> Request, rd: Round) {
    forall ref :: ExactFor(pendings, kind, rd, ref)
  }

  predicate SkipIsSound(pendings: Pending, skip: seq<Local>) {
    && (forall i, j :: 0 <= i < j < |skip| ==> skip[i] != skip[j])
    && (forall i :: 0 <= i < |skip| ==> skip[i] in pendings)
  }

  // One reference of a batch, in a world without errors.
  function Next(rd: Round, ref: Reference, kind: Reference -> Request): Round {
    if !ref.IsRecordScope() then Skip(rd, ref)
    else Handle(Look(Skip(rd, ref), ref, Got(kind(ref)), false), ref, kind(ref))
  }

  lemma NextIsExact(pendings: Pending, kind: Reference -> Request, rd: Round, ref: Reference, other: Reference)
    requires ref.local in pendings && pendings[ref.local] == ref && ref.local !in rd.skip
    requires ExactFor(pendings, kind, rd, other)
    ensures ExactFor(pendings, kind, Next(rd, ref, kind), other)
  {
    hide Deliveries, Occurrences;
    DeliveriesPush(rd.emitted, Deliver(Transcript(ref, kind(ref).Incoming? && kind(ref).immutable)), other);
    OccurrencesPush(rd.forwarded, ref, other);
  }

  lemma BatchStep(w: World, pendings: Pending, kind: Reference -> Request, rd: Round, refs: seq<Reference>)
    requires Faithful(w, pendings, kind) && refs != []
    ensures Batch(w, rd, refs) == Batch(w, Next(rd, refs[0], kind), refs[1..])
  {
  }

  lemma {:induction false} BatchIsExact(w: World, pendings: Pending, kind: Reference -> Request, rd: Round,
      refs: seq<Reference>)
    requires Faithful(w, pendings, kind) && GoodBatch(pendings, rd.skip, refs)
    requires SkipIsSound(pendings, rd.skip) && Exact(pendings, kind, rd)
    ensures var (after, end) := Batch(w, rd, refs);
            end == StillFetching && |after.skip| == |rd.skip| + |refs| && after.calls == rd.calls
            && SkipIsSound(pendings, after.skip) && Exact(pendings, kind, after)
    decreases |refs|
  {
    hide ExactFor, Faithful, Batch;
    if refs == [] {
      BatchEnds(w, rd);
    } else {
      var next := Next(rd, refs[0], kind);
      forall other ensures ExactFor(pendings, kind, next, other) { NextIsExact(pendings, kind, rd, refs[0], other); }
      BatchStep(w, pendings, kind, rd, refs);
      assert next.skip == rd.skip + [refs[0].local];
      BatchIsExact(w, pendings, kind, next, refs[1..]);
    }
  }

  lemma BatchEnds(w: World, rd: Round)
    ensures Batch(w, rd, []) == (rd, StillFetching)
  {
  }

  // ----- Counting ids

  function Ids(skip: seq<Local>): set<Local> {
    set i | 0 <= i < |skip| :: skip[i]
  }

  lemma {:induction false} IdsSize(skip: seq<Local>)
    ensures |Ids(skip)| <= |skip|
    ensures (forall i, j :: 0 <= i < j < |skip| ==> skip[i] != skip[j]) ==> |Ids(skip)| == |skip|
  {
    if skip == [] {
    } else {
      var front, last := skip[..|skip| - 1], skip[|skip| - 1];
      IdsSize(front);
      assert Ids(skip) == Ids(front) + {last};
    }
  }

  // A sound skip list holds everything once it is as long as the pendings, and not before.
  lemma SkipCounts(pendings: Pending, skip: seq<Local>)
    requires SkipIsSound(pendings, skip)
    ensures |skip| <= |pendings| && (AllSkipped(pendings, skip) <==> |skip| == |pendings|)
  {
    IdsSize(skip);
    SubsetSize(Ids(skip), pendings.Keys);
    if AllSkipped(pendings, skip) { assert Ids(skip) == pendings.Keys; }
  }

  // ----- The round

  lemma {:induction false} FaithfulRound(w: World, pendings: Pending, kind: Reference -> Request, rd: Round, limit: nat)
    requires Faithful(w, pendings, kind) && |pendings| <= 300
    requires SkipIsSound(pendings, rd.skip) && Exact(pendings, kind, rd) && |pendings| - |rd.skip| < limit
    ensures var (after, end) := Fetch(w, rd, limit);
            end == ToldEmpty && AllSkipped(pendings, after.skip) && Exact(pendings, kind, after)
    decreases limit
  {
    hide ExactFor, Batch;
    SkipCounts(pendings, rd.skip);
    var answer := w.getPendings(rd.calls, rd.skip);
    var asked := Ask(rd, answer);
    assert GoodAnswer(pendings, rd.skip, answer);
    AskedIsExact(pendings, kind, rd, answer);
    if AllSkipped(pendings, rd.skip) {
      TellEmpty(pendings, kind, asked);
    } else {
      BatchIsExact(w, pendings, kind, asked, answer.refs);
      var (after, end) := Batch(w, asked, answer.refs);
      FaithfulRound(w, pendings, kind, after, limit - 1);
    }
  }

  lemma AskedIsExact(pendings: Pending, kind: Reference -> Request, rd: Round, answer: PendingsAnswer)
    requires Exact(pendings, kind, rd)
    ensures Exact(pendings, kind, Ask(rd, answer))
  {
    forall ref ensures ExactFor(pendings, kind, Ask(rd, answer), ref) {
      assert ExactFor(pendings, kind, rd, ref);
    }
  }

  lemma TellEmpty(pendings: Pending, kind: Reference -> Request, rd: Round)
    requires Exact(pendings, kind, rd)
    ensures Exact(pendings, kind, rd.(emitted := rd.emitted + [NoMore]))
  {
    hide Deliveries;
    var told := rd.(emitted := rd.emitted + [NoMore]);
    forall ref ensures ExactFor(pendings, kind, told, ref) {
      assert ExactFor(pendings, kind, rd, ref);
      DeliveriesPush(rd.emitted, NoMore, ref);
    }
  }

  // With more pendings than the skip list may hold, a round never ends.
  lemma {:induction false} TooManyPendings(w: World, pendings: Pending, kind: Reference -> Request, rd: Round,
      limit: nat)
    requires Faithful(w, pendings, kind) && |pendings| > 300
    ensures Fetch(w, rd, limit).1 == StillFetching
    decreases limit
  {
    hide Batch;
    if limit == 0 {
    } else {
      var skip := Trim(rd).skip;
      if AllSkipped(pendings, skip) {
        IdsSize(skip);
        assert pendings.Keys <= Ids(skip);
        SubsetSize(pendings.Keys, Ids(skip));
        assert false;
      }
      var answer := w.getPendings(rd.calls, skip);
      assert GoodAnswer(pendings, skip, answer);
      var asked := Ask(Trim(rd), answer);
      BatchGoesOn(w, pendings, kind, asked, answer.refs);
      TooManyPendings(w, pendings, kind, Batch(w, asked, answer.refs).0, limit - 1);
    }
  }

  lemma {:induction false} BatchGoesOn(w: World, pendings: Pending, kind: Reference -> Request, rd: Round,
      refs: seq<Reference>)
    requires Faithful(w, pendings, kind)
    ensures Batch(w, rd, refs).1 == StillFetching
    decreases |refs|
  {
    hide Batch, Faithful;
    if refs == [] {
      BatchEnds(w, rd);
    } else {
      BatchStep(w, pendings, kind, rd, refs);
      BatchGoesOn(w, pendings, kind, Next(rd, refs[0], kind), refs[1..]);
    }
  }

  lemma NothingYet(pendings: Pending, kind: Reference -> Request)
    ensures SkipIsSound(pendings, NEW_ROUND.skip) && Exact(pendings, kind, NEW_ROUND)
  {
  }

  // A fresh round against a faithful ledger ends, and tells "no more", exactly
  // when there are at most 300 pendings.
  lemma RoundEnds(w: World, pendings: Pending, kind: Reference -> Request)
    requires Faithful(w, pendings, kind)
    ensures (exists limit :: Fetch(w, NEW_ROUND, limit).1 == ToldEmpty) <==> |pendings| <= 300
  {
    hide Fetch, Faithful;
    NothingYet(pendings, kind);
    if |pendings| <= SKIP_SLICE_SIZE_LIMIT {
      FaithfulRound(w, pendings, kind, NEW_ROUND, |pendings| + 1);
    } else {
      forall limit: nat ensures Fetch(w, NEW_ROUND, limit).1 != ToldEmpty {
        TooManyPendings(w, pendings, kind, NEW_ROUND, limit);
      }
    }
  }

  // A ledger that names one unskipped pending at a time.
  ghost function OneAtATime(pendings: Pending, skip: seq<Local>): PendingsAnswer {
    if AllSkipped(pendings, skip) then NoPendingRequest
    else var l :| l in pendings && l !in skip; Pendings([pendings[l]])
  }

  ghost function SlowLedger(pendings: Pending, kind: Reference -> Request): World {
    World((n, skip) => OneAtATime(pendings, skip), (n, ref) => Got(kind(ref)), n => false)
  }

  // So every set of pendings has a faithful ledger.
  lemma FaithfulLedgerExists(pendings: Pending, kind: Reference -> Request)
    requires forall l :: l in pendings ==> pendings[l].local == l
    ensures Faithful(SlowLedger(pendings, kind), pendings, kind)
  {
    var w := SlowLedger(pendings, kind);
    forall n, skip ensures GoodAnswer(pendings, skip, w.getPendings(n, skip)) {
      assert w.getPendings(n, skip) == OneAtATime(pendings, skip);
    }
  }

  // n pendings with the ids 1 to n.
  function Numbered(n: nat): (pendings: Pending)
    requires n < 0x4000_0000
    ensures |pendings| == n
    ensures forall l :: l in pendings ==> pendings[l].local == l && pendings[l].IsRecordScope() && l.pulseAndScope <= n
  {
    if n == 0 then map[]
    else
      var id := Local(n, ZERO_HASH);
      Numbered(n - 1)[id := Reference(id, EMPTY_LOCAL)]
  }

  // 301 requests, a faithful ledger, and a round that never ends.
  lemma EndlessRound(kind: Reference -> Request, limit: nat)
    ensures Faithful(SlowLedger(Numbered(301), kind), Numbered(301), kind)
    ensures Fetch(SlowLedger(Numbered(301), kind), NEW_ROUND, limit).1 == StillFetching
  {
    hide Faithful, Fetch, Numbered;
    FaithfulLedgerExists(Numbered(301), kind);
    TooManyPendings(SlowLedger(Numbered(301), kind), Numbered(301), kind, NEW_ROUND, limit);
  }

  lemma {:induction false} EndedForGood(w: World, rd: Round, limit: nat, more: nat)
    requires Fetch(w, rd, limit).1 != StillFetching
    ensures Fetch(w, rd, limit + more) == Fetch(w, rd, limit)
    decreases limit
  {
    hide Batch;
    var answer := w.getPendings(rd.calls, Trim(rd).skip);
    var asked := Ask(Trim(rd), answer);
    if answer.Pendings? {
      var (after, end) := Batch(w, asked, answer.refs);
      if end == StillFetching { EndedForGood(w, after, limit - 1, more); }
    }
  }

  // And when it ends, every valid incoming request has been emitted exactly once
  // and every valid outgoing one forwarded exactly once, and nothing else was.
  lemma RoundIsExact(w: World, pendings: Pending, kind: Reference -> Request, limit: nat, ref: Reference)
    requires Faithful(w, pendings, kind) && Fetch(w, NEW_ROUND, limit).1 == ToldEmpty
    ensures var after := Fetch(w, NEW_ROUND, limit).0;
            var fetched := ref.local in pendings && pendings[ref.local] == ref && ref.IsRecordScope();
            && Deliveries(after.emitted, ref) == One(fetched && Emits(kind(ref)))
            && Occurrences(after.forwarded, ref) == One(fetched && Forwarded(kind(ref)))
  {
    hide Fetch, Deliveries, Occurrences, Faithful;
    NothingYet(pendings, kind);
    RoundEnds(w, pendings, kind);
    EndedForGood(w, NEW_ROUND, limit, |pendings| + 1);
    FaithfulRound(w, pendings, kind, NEW_ROUND, limit + |pendings| + 1);
    assert ExactFor(pendings, kind, Fetch(w, NEW_ROUND, limit).0, ref);
  }
}
