// Execution discipline: which reader runs what, how many run at once, and in
// which order the mutable requests start.
module Ordering {
  import opened Collections
  import opened ExecutionRegistries
  import opened Broker
  import opened BrokerSystem
  import opened BrokerLifecycle
  import opened References

  // Where a request was delivered first, or the length of the record if it was not.
  function Position(d: seq<Transcript>, ref: Reference): (k: nat)
    ensures k <= |d| && (k < |d| ==> d[k].requestRef == ref)
    ensures forall m :: 0 <= m < k ==> d[m].requestRef != ref
  {
    if d == [] then 0
    else
      var front, k := d[..|d| - 1], Position(d[..|d| - 1], ref);
      if k < |front| || d[|d| - 1].requestRef == ref then k else k + 1
  }

  lemma PositionPush(d: seq<Transcript>, t: Transcript, ref: Reference)
    ensures Position(d + [t], ref) ==
            if Position(d, ref) < |d| then Position(d, ref) else if t.requestRef == ref then |d| else |d| + 1
  {
    assert (d + [t])[..|d|] == d;
  }

  // A mutable transcript of q is a first delivery.
  predicate IsFirst(t: Transcript, d: seq<Transcript>) {
    Position(d, t.requestRef) < |d| && d[Position(d, t.requestRef)] == t
  }

  predicate Before(t: Transcript, u: Transcript, d: seq<Transcript>) {
    Position(d, t.requestRef) < Position(d, u.requestRef)
  }

  // The mutable transcripts of q are first deliveries, in the order of delivery.
  predicate Ordered(q: seq<Transcript>, d: seq<Transcript>) {
    && (forall i :: 0 <= i < |q| && !q[i].immutable ==> IsFirst(q[i], d))
    && (forall i, j :: 0 <= i < j < |q| && !q[i].immutable && !q[j].immutable ==> Before(q[i], q[j], d))
  }

  lemma DropOne(a: seq<Transcript>, x: Transcript, b: seq<Transcript>, d: seq<Transcript>)
    requires Ordered(a + [x] + b, d)
    ensures Ordered(a + b, d)
  {
    var q, r := a + [x] + b, a + b;
    assert forall i :: 0 <= i < |r| ==> r[i] == q[if i < |a| then i else i + 1];
  }

  lemma AddImmutable(a: seq<Transcript>, x: Transcript, b: seq<Transcript>, d: seq<Transcript>)
    requires Ordered(a + b, d) && x.immutable
    ensures Ordered(a + [x] + b, d)
  {
    var q, r := a + [x] + b, a + b;
    assert forall i :: 0 <= i < |q| && i != |a| ==> q[i] == r[if i < |a| then i else i - 1];
  }

  lemma KeepFront(a: seq<Transcript>, b: seq<Transcript>, d: seq<Transcript>)
    requires Ordered(a + b, d)
    ensures Ordered(a, d)
  {
    assert forall i :: 0 <= i < |a| ==> a[i] == (a + b)[i];
  }

  lemma StillFirst(x: Transcript, d: seq<Transcript>, t: Transcript)
    requires IsFirst(x, d)
    ensures IsFirst(x, d + [t]) && Position(d + [t], x.requestRef) == Position(d, x.requestRef) < |d|
  {
    PositionPush(d, t, x.requestRef);
  }

  // One more delivery changes nothing for what was delivered before.
  lemma Delivered(q: seq<Transcript>, d: seq<Transcript>, t: Transcript)
    requires Ordered(q, d)
    ensures Ordered(q, d + [t])
    ensures forall i :: 0 <= i < |q| && !q[i].immutable ==> Position(d + [t], q[i].requestRef) < |d|
  {
    hide Position, IsFirst;
    forall i | 0 <= i < |q| && !q[i].immutable
      ensures IsFirst(q[i], d + [t]) && Position(d + [t], q[i].requestRef) == Position(d, q[i].requestRef) < |d|
    {
      StillFirst(q[i], d, t);
    }
  }

  // A request delivered for the first time comes last.
  lemma DeliveredFirst(q: seq<Transcript>, d: seq<Transcript>, t: Transcript)
    requires Ordered(q, d) && Position(d, t.requestRef) == |d|
    ensures Ordered(q + [t], d + [t])
  {
    hide Position;
    Delivered(q, d, t);
    PositionPush(d, t, t.requestRef);
  }

  // ----- What a broker holds

  // Each queue and each reader handles one kind of transcript.
  predicate Kinds(p: Processor) {
    && (forall i :: 0 <= i < |p.feedMutable| ==> !p.feedMutable[i].immutable)
    && (forall i :: 0 <= i < |p.feedImmutable| ==> p.feedImmutable[i].immutable)
    && (forall r :: 0 <= r < |p.readers| ==> ReaderKind(p.readers[r]))
  }

  predicate ReaderKind(reader: Reader) {
    (reader.pc.Taken? || reader.pc.Executing? || reader.pc.Finishing?) ==>
        reader.pc.transcript.immutable == reader.immutable
  }

  function Checking(pc: ReaderPc): seq<Transcript> {
    if pc.Taken? then [pc.transcript] else []
  }

  // A transcript the table does not know.
  function Unknown(q: BrokerState, t: Transcript): seq<Transcript> {
    if t.requestRef in q.deduplicationTable then [] else [t]
  }

  predicate HandsImmutable(p: Processor) {
    p.feeder.Handing? && p.feeder.hand.immutable
  }

  // What the feeder is about to hand over: a transcript the table already knows
  // goes nowhere.
  function InHand(q: BrokerState, feeder: FeederPc): seq<Transcript> {
    match feeder
    case Upserting(t) => Unknown(q, t)
    case Handing(t) => [t]
    case _ => []
  }

  // The transcripts on their way to the mutable reader, oldest first.
  function Waiting(q: BrokerState, p: Processor): seq<Transcript>
    requires |p.readers| == IMMUTABLE_EXECUTION_LIMIT + 1
  {
    Checking(p.readers[IMMUTABLE_EXECUTION_LIMIT].pc) + (p.feedMutable + InHand(q, p.feeder))
  }

  // The request has been delivered, and the table has heard of it or is about to.
  predicate Known(q: BrokerState, feeder: FeederPc, ref: Reference) {
    ref in q.deduplicationTable || (feeder.Upserting? && feeder.hand.requestRef == ref)
  }

  // Until the pulse the table holds what was delivered.
  ghost predicate TableIsComplete(s: Sys) {
    !s.q.closed && s.processors != [] ==>
      forall ref :: Known(s.q, s.processors[0].feeder, ref) <==> Position(s.h.delivered, ref) < |s.h.delivered|
  }

  // What started, followed until the pulse by what is still on its way.
  predicate InOrder(s: Sys) {
    && (s.processors != [] ==> |s.processors[0].readers| == IMMUTABLE_EXECUTION_LIMIT + 1 && Kinds(s.processors[0]))
    && Ordered(s.h.passed, s.h.delivered)
    && (!s.q.closed && s.processors != [] ==>
          Ordered(s.h.passed + Waiting(s.q, s.processors[0]), s.h.delivered))
  }

  // A fresh processor finds an empty table.
  predicate TableIsUnused(s: Sys) {
    !s.q.closed && s.processors == [] ==> s.q.deduplicationTable == {}
  }

  ghost predicate Disciplined(s: Sys) {
    InOrder(s) && TableIsComplete(s) && TableIsUnused(s)
  }

  // ----- The feeder

  lemma KindsFeeder(q: BrokerState, p: Processor, takesClosed: bool)
    requires Kinds(p)
    ensures Kinds(FeederP(q, p, takesClosed))
  {
  }

  // What a feeder step does to the mutable queue followed by the request in hand.
  lemma FeederQueue(q: BrokerState, p: Processor, takesClosed: bool)
    ensures var p' := FeederP(q, p, takesClosed);
            var queue := p.feedMutable + InHand(q, p.feeder);
            var queue' := p'.feedMutable + InHand(FeederQ(q, p, takesClosed), p'.feeder);
            p'.readers == p.readers
            && if Receives(p, takesClosed) then queue' == queue + Unknown(q, p.feed[0].transcript)
               else queue' == queue || (HandsImmutable(p) && queue' + [p.feeder.hand] == queue)
  {
    if p.feeder.Handing? {
      HandingQueue(q, p, takesClosed);
    } else {
      hide FeederP, FeederQ;
      HandMoves(q, p, takesClosed);
    }
  }

  lemma HandingQueue(q: BrokerState, p: Processor, takesClosed: bool)
    requires p.feeder.Handing?
    ensures var p' := FeederP(q, p, takesClosed);
            p'.readers == p.readers && p'.feeder == Selecting
            && p'.feedMutable == if p.feeder.hand.immutable then p.feedMutable else p.feedMutable + [p.feeder.hand]
  {
  }

  // Outside the hand-over the queue stays, and the hand changes only when a
  // transcript is received, or turns out to be known.
  lemma HandMoves(q: BrokerState, p: Processor, takesClosed: bool)
    requires !p.feeder.Handing?
    ensures var p', q' := FeederP(q, p, takesClosed), FeederQ(q, p, takesClosed);
            p'.readers == p.readers && p'.feedMutable == p.feedMutable
            && InHand(q', p'.feeder) ==
               if Receives(p, takesClosed) then Unknown(q, p.feed[0].transcript) else InHand(q, p.feeder)
    ensures Receives(p, takesClosed) ==> InHand(q, p.feeder) == []
  {
    hide FeederP, FeederQ;
    TableMoves(q, p, takesClosed);
    FeederGoes(q, p, takesClosed);
  }

  lemma FeederGoes(q: BrokerState, p: Processor, takesClosed: bool)
    requires !p.feeder.Handing?
    ensures var p' := FeederP(q, p, takesClosed);
            p'.readers == p.readers && p'.feedMutable == p.feedMutable
            && (p'.feeder.Handing? <==> p.feeder.Upserting? && p.feeder.hand.requestRef !in q.deduplicationTable)
            && (p'.feeder.Handing? ==> p'.feeder.hand == p.feeder.hand)
  {
  }

  lemma TableMoves(q: BrokerState, p: Processor, takesClosed: bool)
    ensures FeederQ(q, p, takesClosed).deduplicationTable ==
            if p.feeder.Upserting? then q.deduplicationTable + {p.feeder.hand.requestRef} else q.deduplicationTable
    ensures FeederP(q, p, takesClosed).feeder.Upserting? <==> Receives(p, takesClosed)
    ensures Receives(p, takesClosed) ==> FeederP(q, p, takesClosed).feeder == Upserting(p.feed[0].transcript)
  {
  }

  lemma FeederKnows(q: BrokerState, p: Processor, takesClosed: bool, ref: Reference)
    ensures Known(FeederQ(q, p, takesClosed), FeederP(q, p, takesClosed).feeder, ref) <==>
              Known(q, p.feeder, ref) || (Receives(p, takesClosed) && p.feed[0].transcript.requestRef == ref)
  {
    hide FeederP, FeederQ;
    TableMoves(q, p, takesClosed);
  }

  lemma TableFeeder(s: Sys, i: nat, takesClosed: bool)
    requires |s.processors| == 1 && i == 0 && TableIsComplete(s)
    ensures TableIsComplete(FeederApply(s, i, takesClosed))
  {
    hide Known, FeederP, FeederQ, Position;
    var p, t := s.processors[0], FeederApply(s, i, takesClosed);
    FeederFrame(s.q, p, takesClosed);
    if !s.q.closed {
      forall ref ensures Known(t.q, t.processors[0].feeder, ref) <==> Position(t.h.delivered, ref) < |t.h.delivered| {
        FeederKnows(s.q, p, takesClosed, ref);
        if Receives(p, takesClosed) { PositionPush(s.h.delivered, p.feed[0].transcript, ref); }
      }
    }
  }

  lemma InOrderFeeder(s: Sys, i: nat, takesClosed: bool)
    requires |s.processors| == 1 && i == 0 && InOrder(s) && TableIsComplete(s)
    ensures InOrder(FeederApply(s, i, takesClosed))
  {
    hide Kinds, FeederP, FeederQ, Ordered, Position, InHand, Checking;
    var p, passed, d := s.processors[0], s.h.passed, s.h.delivered;
    KindsFeeder(s.q, p, takesClosed);
    FeederFrame(s.q, p, takesClosed);
    FeederQueue(s.q, p, takesClosed);
    var q' := FeederQ(s.q, p, takesClosed);
    var w, w' := Waiting(s.q, p), Waiting(q', FeederP(s.q, p, takesClosed));
    if Receives(p, takesClosed) {
      var t := p.feed[0].transcript;
      Delivered(passed, d, t);
      if !s.q.closed {
        assert Known(s.q, p.feeder, t.requestRef) <==> t.requestRef in s.q.deduplicationTable;
        Delivered(passed + w, d, t);
        if t.requestRef !in s.q.deduplicationTable { DeliveredFirst(passed + w, d, t); }
        assert w' == w || w' == w + [t];
        assert passed + (w + [t]) == passed + w + [t];
      }
    } else if !s.q.closed && w' != w {
      assert w == w' + [p.feeder.hand];
      assert passed + w == passed + w' + [p.feeder.hand] + [];
      DropOne(passed + w', p.feeder.hand, [], d);
      assert passed + w' + [] == passed + w';
    }
  }

  // ----- The readers

  lemma KindsReader(q: BrokerState, registry: Registry, p: Processor, r: nat)
    requires Kinds(p) && r < |p.readers|
    ensures Kinds(ReaderP(q, registry, p, r))
  {
    assert ReaderKind(p.readers[r]);
    assert ReaderKind(ReaderP(q, registry, p, r).readers[r]);
  }

  lemma WaitingReader(q: BrokerState, registry: Registry, p: Processor, r: nat)
    requires StandardReaders(p.readers) && r < |p.readers|
    ensures var w, w' := Waiting(q, p), Waiting(ReaderQ(q, p.readers[r].pc), ReaderP(q, registry, p, r));
            if r == IMMUTABLE_EXECUTION_LIMIT && p.readers[r].pc.Taken? then w == [p.readers[r].pc.transcript] + w'
            else w' == w
  {
    hide InHand;
    var reader, hand := p.readers[r], InHand(q, p.feeder);
    SameHand(q, p.feeder, reader.pc);
    if r == IMMUTABLE_EXECUTION_LIMIT && Takes(p, reader) {
      assert p.feedMutable == [p.feedMutable[0]] + p.feedMutable[1..];
      assert [] + (p.feedMutable + hand) == [p.feedMutable[0]] + (p.feedMutable[1..] + hand);
    }
  }

  lemma SameHand(q: BrokerState, feeder: FeederPc, pc: ReaderPc)
    ensures InHand(ReaderQ(q, pc), feeder) == InHand(q, feeder)
  {
  }

  lemma TakenKind(p: Processor, r: nat)
    requires Kinds(p) && StandardReaders(p.readers) && r < |p.readers| && p.readers[r].pc.Taken?
    ensures p.readers[r].pc.transcript.immutable <==> r < IMMUTABLE_EXECUTION_LIMIT
  {
    assert ReaderKind(p.readers[r]);
  }

  lemma InOrderReader(s: Sys, i: nat, r: nat, built: bool)
    requires |s.processors| == 1 && i == 0 && r < |s.processors[0].readers| && InOrder(s)
    requires StandardReaders(s.processors[0].readers)
    ensures InOrder(ReaderApply(s, i, r, built))
  {
    hide Kinds, ReaderP, ReaderQ, ReaderRegistry, Waiting, Ordered, Position;
    var p, passed, d := s.processors[0], s.h.passed, s.h.delivered;
    ReaderFrame(s.q, s.registry, p, r, s.h, built);
    KindsReader(s.q, s.registry, p, r);
    WaitingReader(s.q, s.registry, p, r);
    var pc := p.readers[r].pc;
    var w, w' := Waiting(s.q, p), Waiting(ReaderQ(s.q, pc), ReaderP(s.q, s.registry, p, r));
    if pc.Taken? { TakenKind(p, r); }
    if !s.q.closed {
      if Passes(s.q, s.registry, pc) {
        if r == IMMUTABLE_EXECUTION_LIMIT {
          assert passed + w == passed + [pc.transcript] + w';
        } else {
          AddImmutable(passed, pc.transcript, w, d);
        }
        KeepFront(passed + [pc.transcript], w', d);
      } else if w' != w {
        assert passed + w == passed + [pc.transcript] + w';
        DropOne(passed, pc.transcript, w', d);
      }
    }
  }

  // ----- All steps

  lemma InOrderStarter(s: Sys, i: nat, answer: LedgerAnswer)
    requires Lifecycle(s) && Disciplined(s) && i < |s.starters|
    ensures Disciplined(StarterApply(s, i, answer))
  {
    hide StarterNext, StandardReaders, Kinds, Waiting, Ordered, Position, Known, NewReaders;
    FreshProcessor(StarterQ(s.q, s.starters[i]));
  }

  lemma FreshProcessor(q: BrokerState)
    ensures |NewReaders()| == IMMUTABLE_EXECUTION_LIMIT + 1 && Kinds(NewProcessor())
    ensures Waiting(q, NewProcessor()) == [] && Ordered([] + [], [])
    ensures q.deduplicationTable == {} ==> forall ref :: !Known(q, NewProcessor().feeder, ref) && Position([], ref) == 0
  {
    assert forall r :: 0 <= r < |NewReaders()| ==> ReaderKind(NewReaders()[r]);
  }

  lemma DisciplineInit(s: Sys)
    requires Init(s)
    ensures Disciplined(s)
  {
  }

  lemma InOrderHandler(s: Sys, step: Step)
    requires Disciplined(s) && !s.q.closed
    ensures Disciplined(HandlerApply(s, step))
  {
    hide Ordered, Position, Kinds, Checking;
  }

  lemma TableReader(s: Sys, i: nat, r: nat, built: bool)
    requires |s.processors| == 1 && i == 0 && r < |s.processors[0].readers| && TableIsComplete(s)
    ensures TableIsComplete(ReaderApply(s, i, r, built))
  {
    hide Known, Position, ReaderQ, ReaderP, ReaderH, ReaderRegistry;
    var p, t := s.processors[0], ReaderApply(s, i, r, built);
    ReaderFrame(s.q, s.registry, p, r, s.h, built);
    if !s.q.closed {
      forall ref ensures Known(t.q, t.processors[0].feeder, ref) <==> Known(s.q, p.feeder, ref) {
        SameTable(s.q, t.q, p.feeder, ref);
      }
    }
  }

  lemma SameTable(q: BrokerState, q': BrokerState, feeder: FeederPc, ref: Reference)
    requires q'.deduplicationTable == q.deduplicationTable
    ensures Known(q', feeder, ref) <==> Known(q, feeder, ref)
  {
  }

  lemma ProcessorStays(s: Sys, i: nat, takesClosed: bool)
    requires i < |s.processors|
    ensures FeederApply(s, i, takesClosed).processors != []
  {
  }

  lemma ReaderStays(s: Sys, i: nat, r: nat, built: bool)
    requires i < |s.processors| && r < |s.processors[i].readers|
    ensures ReaderApply(s, i, r, built).processors != []
  {
  }

  lemma DisciplinePreserved(s: Sys, step: Step)
    requires Lifecycle(s) && Disciplined(s) && Enabled(s, step)
    ensures Disciplined(Apply(s, step))
  {
    hide StarterApply, FeederApply, ReaderApply, HandlerApply, StarterEnabled, FeederEnabled, ReaderEnabled, Owned,
         Ordered, Position, StandardReaders, InHand, Checking, Known;
    match step
    case StarterStep(i, answer) => InOrderStarter(s, i, answer);
    case FeederStep(i, takesClosed) =>
      InOrderFeeder(s, i, takesClosed);
      TableFeeder(s, i, takesClosed);
      ProcessorStays(s, i, takesClosed);
    case ReaderStep(i, r, built) =>
      InOrderReader(s, i, r, built);
      TableReader(s, i, r, built);
      ReaderStays(s, i, r, built);
    case Emit(i, item) =>
    case CloseFeed(i) =>
    case OthersRegister(_) =>
    case OthersDone(_) =>
    case _ => InOrderHandler(s, step);
  }

  // ----- What runs at once

  // The readers executing a transcript of the given kind.
  function Running(rs: seq<Reader>, immutable: bool): set<nat> {
    set r: nat | r < |rs| && rs[r].pc.Executing? && rs[r].pc.transcript.immutable == immutable
  }

  lemma AtMostThirtyOne(s: Sys)
    requires Lifecycle(s) && InOrder(s) && s.processors != []
    ensures |Running(s.processors[0].readers, false)| <= 1
    ensures |Running(s.processors[0].readers, true)| <= IMMUTABLE_EXECUTION_LIMIT
  {
    hide Ordered, Waiting;
    var rs := s.processors[0].readers;
    assert forall r :: 0 <= r < |rs| ==> ReaderKind(rs[r]);
    assert Running(rs, false) <= {IMMUTABLE_EXECUTION_LIMIT};
    SubsetSize(Running(rs, false), {IMMUTABLE_EXECUTION_LIMIT});
    assert Running(rs, true) <= Below(IMMUTABLE_EXECUTION_LIMIT);
    SubsetSize(Running(rs, true), Below(IMMUTABLE_EXECUTION_LIMIT));
  }

  function Below(n: nat): (b: set<nat>)
    ensures |b| == n
    ensures forall k: nat :: k in b <==> k < n
  {
    if n == 0 then {} else Below(n - 1) + {n - 1}
  }
}
