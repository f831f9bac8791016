// At-most-once execution: no request passes canProcessTranscript twice in one
// broker, whatever the fetcher delivers again and whenever the pulse falls.
module AtMostOnce {
  import opened Collections
  import opened References
  import opened ExecutionRegistries
  import opened Broker
  import opened BrokerSystem
  import opened BrokerLifecycle

  // How often a request occurs in a queue of transcripts.
  function Count(ts: seq<Transcript>, ref: Reference): nat {
    if ts == [] then 0 else Count(ts[..|ts| - 1], ref) + One(ts[|ts| - 1].requestRef == ref)
  }

  lemma CountPush(ts: seq<Transcript>, t: Transcript, ref: Reference)
    ensures Count(ts + [t], ref) == Count(ts, ref) + One(t.requestRef == ref)
  {
    assert (ts + [t])[..|ts|] == ts;
  }

  lemma {:induction false} CountPop(ts: seq<Transcript>, ref: Reference)
    requires ts != []
    ensures Count(ts, ref) == Count(ts[1..], ref) + One(ts[0].requestRef == ref)
  {
    if |ts| == 1 {
    } else {
      var last := |ts| - 1;
      CountPop(ts[..last], ref);
      assert ts[..last][1..] == ts[1..][..last - 1];
    }
  }

  // A reader that is about to check the request, or that executes it.
  predicate Holds(pc: ReaderPc, executing: bool, ref: Reference) {
    (if executing then pc.Executing? else pc.Taken?) && pc.transcript.requestRef == ref
  }

  function ReaderCount(rs: seq<Reader>, executing: bool, ref: Reference): nat {
    if rs == [] then 0 else One(Holds(rs[0].pc, executing, ref)) + ReaderCount(rs[1..], executing, ref)
  }

  lemma {:induction false} ReaderCountUpdate(rs: seq<Reader>, i: nat, x: Reader, executing: bool, ref: Reference)
    requires i < |rs|
    ensures ReaderCount(rs[i := x], executing, ref) + One(Holds(rs[i].pc, executing, ref))
         == ReaderCount(rs, executing, ref) + One(Holds(x.pc, executing, ref))
  {
    if i == 0 {
      assert rs[i := x][1..] == rs[1..];
    } else {
      assert rs[i := x][1..] == rs[1..][i - 1 := x];
      ReaderCountUpdate(rs[1..], i - 1, x, executing, ref);
    }
  }

  lemma {:induction false} AllIdle(rs: seq<Reader>, executing: bool, ref: Reference)
    requires forall i :: 0 <= i < |rs| ==> rs[i].pc == Idle
    ensures ReaderCount(rs, executing, ref) == 0
  {
    if rs == [] {
    } else {
      AllIdle(rs[1..], executing, ref);
    }
  }

  lemma {:induction false} SomeReaderHolds(rs: seq<Reader>, executing: bool, ref: Reference) returns (i: nat)
    requires ReaderCount(rs, executing, ref) > 0
    ensures i < |rs| && Holds(rs[i].pc, executing, ref)
  {
    if Holds(rs[0].pc, executing, ref) {
      i := 0;
    } else {
      i := SomeReaderHolds(rs[1..], executing, ref);
      i := i + 1;
    }
  }

  lemma {:induction false} ReaderIsCounted(rs: seq<Reader>, i: nat, executing: bool, ref: Reference)
    requires i < |rs| && Holds(rs[i].pc, executing, ref)
    ensures ReaderCount(rs, executing, ref) > 0
  {
    if i == 0 {
    } else {
      ReaderIsCounted(rs[1..], i - 1, executing, ref);
    }
  }

  // Everything between the duplication table and the check.
  function Pipeline(p: Processor, ref: Reference): nat {
    One(p.feeder.Handing? && p.feeder.hand.requestRef == ref)
    + Count(p.feedMutable, ref) + Count(p.feedImmutable, ref) + ReaderCount(p.readers, false, ref)
  }

  function InFlight(s: Sys, ref: Reference): nat {
    (if s.processors == [] then 0 else Pipeline(s.processors[0], ref)) + Count(s.h.passed, ref)
  }

  // Per request: it has passed at most once; and before the pulse it is in
  // flight or has passed at most once, and only if the table knows it.
  predicate OnceFor(s: Sys, ref: Reference) {
    && Count(s.h.passed, ref) <= 1
    && (!s.q.closed ==> InFlight(s, ref) <= One(ref in s.q.deduplicationTable))
  }

  ghost predicate Once(s: Sys) {
    forall ref :: OnceFor(s, ref)
  }

  lemma FeederPipeline(q: BrokerState, p: Processor, takesClosed: bool, ref: Reference)
    ensures Pipeline(FeederP(q, p, takesClosed), ref) == Pipeline(p, ref)
              + One(p.feeder.Upserting? && p.feeder.hand.requestRef == ref && ref !in q.deduplicationTable)
  {
    hide Count, ReaderCount;
    if p.feeder.Handing? {
      CountPush(p.feedMutable, p.feeder.hand, ref);
      CountPush(p.feedImmutable, p.feeder.hand, ref);
    }
  }

  // A request leaves the pipeline when a reader checks it, and only then.
  lemma ReaderPipeline(q: BrokerState, registry: Registry, p: Processor, r: nat, ref: Reference)
    requires r < |p.readers|
    ensures Pipeline(ReaderP(q, registry, p, r), ref) + One(Holds(p.readers[r].pc, false, ref)) == Pipeline(p, ref)
  {
    hide Count, ReaderCount;
    var reader := p.readers[r];
    ReaderCountUpdate(p.readers, r, Reader(reader.immutable, ReaderNext(q, registry, p, reader)), false, ref);
    if Takes(p, reader) {
      CountPop(FeedOf(p, reader.immutable), ref);
    }
  }

  lemma OneProcessor(s: Sys)
    requires Lifecycle(s)
    ensures |s.processors| <= 1 && (s.processors == [] ==> s.h.passed == [])
  {
  }

  lemma OnceFeeder(s: Sys, i: nat, takesClosed: bool, ref: Reference)
    requires |s.processors| == 1 && i == 0 && OnceFor(s, ref)
    ensures OnceFor(FeederApply(s, i, takesClosed), ref)
  {
    hide Count, Pipeline, FeederP, FeederH;
    FeederPipeline(s.q, s.processors[0], takesClosed, ref);
    FeederHistoryFrame(s.h, s.processors[0], takesClosed);
  }

  lemma OnceReader(s: Sys, i: nat, r: nat, built: bool, ref: Reference)
    requires |s.processors| == 1 && i == 0 && r < |s.processors[0].readers| && OnceFor(s, ref)
    ensures OnceFor(ReaderApply(s, i, r, built), ref)
  {
    hide Count, Pipeline, ReaderP, ReaderRegistry;
    ReaderPipeline(s.q, s.registry, s.processors[0], r, ref);
    if Passes(s.q, s.registry, s.processors[0].readers[r].pc) {
      CountPush(s.h.passed, s.processors[0].readers[r].pc.transcript, ref);
    }
  }

  lemma OnceStarter(s: Sys, i: nat, answer: LedgerAnswer, ref: Reference)
    requires Lifecycle(s) && OnceFor(s, ref) && i < |s.starters|
    ensures OnceFor(StarterApply(s, i, answer), ref)
  {
    hide Pipeline, StarterNext, Count, StandardReaders;
    NewPipeline(ref);
  }

  lemma NewPipeline(ref: Reference)
    ensures Pipeline(NewProcessor(), ref) == 0
  {
    AllIdle(NewReaders(), false, ref);
  }

  lemma OnceHandler(s: Sys, step: Step, ref: Reference)
    requires OnceFor(s, ref) && !s.q.closed
    ensures OnceFor(HandlerApply(s, step), ref)
  {
    hide Pipeline, Count;
  }

  lemma OnceInit(s: Sys)
    requires Init(s)
    ensures Once(s)
  {
  }

  lemma OncePreserved(s: Sys, step: Step)
    requires Lifecycle(s) && Once(s) && Enabled(s, step)
    ensures Once(Apply(s, step))
  {
    hide Lifecycle;
    OneProcessor(s);
    forall ref ensures OnceFor(Apply(s, step), ref) {
      assert OnceFor(s, ref);
      OncePreservedFor(s, step, ref);
    }
  }

  lemma OncePreservedFor(s: Sys, step: Step, ref: Reference)
    requires Lifecycle(s) && OnceFor(s, ref) && Enabled(s, step)
    ensures OnceFor(Apply(s, step), ref)
  {
    hide StarterApply, FeederApply, ReaderApply, HandlerApply, StarterEnabled, FeederEnabled, ReaderEnabled, Owned,
         Count, ReaderCount, Lifecycle;
    OneProcessor(s);
    match step
    case StarterStep(i, answer) => OnceStarter(s, i, answer, ref);
    case FeederStep(i, takesClosed) => OnceFeeder(s, i, takesClosed, ref);
    case ReaderStep(i, r, built) => OnceReader(s, i, r, built, ref);
    case Emit(i, _) =>
    case CloseFeed(i) =>
    case OthersRegister(_) =>
    case OthersDone(_) =>
    case _ => OnceHandler(s, step, ref);
  }
}
