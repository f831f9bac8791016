// No request is dropped: until its pulse a broker with a registry of its own lets
// every request through that a reader takes, so that whatever its table knows is
// on its way or has started.
module NothingDropped {
  import opened Collections
  import opened References
  import opened BrokerSystem
  import opened BrokerLifecycle
  import opened AtMostOnce
  import opened PendingFinished

  predicate CompleteFor(s: Sys, ref: Reference) {
    !s.q.closed && !s.shared ==> InFlight(s, ref) == One(ref in s.q.deduplicationTable)
  }

  ghost predicate Complete(s: Sys) {
    forall ref :: CompleteFor(s, ref)
  }

  // A request in the hands of a reader has not started before, so nothing
  // registered it.
  lemma TakenIsUnregistered(s: Sys, r: nat)
    requires Once(s) && Owns(s) && Accounted(s) && !s.q.closed && !s.shared
    requires s.processors != [] && r < |s.processors[0].readers| && s.processors[0].readers[r].pc.Taken?
    ensures s.processors[0].readers[r].pc.transcript.requestRef !in s.registry
  {
    hide Count, ReaderCount;
    var ref := s.processors[0].readers[r].pc.transcript.requestRef;
    ReaderIsCounted(s.processors[0].readers, r, false, ref);
    assert OnceFor(s, ref) && AccountedFor(s, ref) && OwnsFor(s, ref);
  }

  lemma CompleteFeeder(s: Sys, i: nat, takesClosed: bool, ref: Reference)
    requires |s.processors| == 1 && i == 0 && CompleteFor(s, ref)
    ensures CompleteFor(FeederApply(s, i, takesClosed), ref)
  {
    hide Count, Pipeline, FeederP, FeederH;
    FeederPipeline(s.q, s.processors[0], takesClosed, ref);
    FeederHistoryFrame(s.h, s.processors[0], takesClosed);
  }

  lemma CompleteReader(s: Sys, i: nat, r: nat, built: bool, ref: Reference)
    requires |s.processors| == 1 && i == 0 && r < |s.processors[0].readers| && CompleteFor(s, ref)
    requires Once(s) && Owns(s) && Accounted(s)
    ensures CompleteFor(ReaderApply(s, i, r, built), ref)
  {
    hide Count, Pipeline, ReaderP, ReaderRegistry, Once, Owns, Accounted;
    var pc := s.processors[0].readers[r].pc;
    ReaderPipeline(s.q, s.registry, s.processors[0], r, ref);
    if pc.Taken? {
      if !s.q.closed && !s.shared { TakenIsUnregistered(s, r); }
      CountPush(s.h.passed, pc.transcript, ref);
    }
  }

  lemma CompleteStarter(s: Sys, i: nat, answer: LedgerAnswer, ref: Reference)
    requires Lifecycle(s) && CompleteFor(s, ref) && i < |s.starters|
    ensures CompleteFor(StarterApply(s, i, answer), ref)
  {
    hide Pipeline, StarterNext, Count, StandardReaders;
    NewPipeline(ref);
  }

  lemma CompleteHandler(s: Sys, step: Step, ref: Reference)
    requires CompleteFor(s, ref) && !s.q.closed
    ensures CompleteFor(HandlerApply(s, step), ref)
  {
    hide Pipeline, Count;
  }

  lemma CompletePreservedFor(s: Sys, step: Step, ref: Reference)
    requires Lifecycle(s) && Once(s) && Owns(s) && Accounted(s) && CompleteFor(s, ref) && Enabled(s, step)
    ensures CompleteFor(Apply(s, step), ref)
  {
    hide StarterApply, FeederApply, ReaderApply, HandlerApply, StarterEnabled, FeederEnabled, ReaderEnabled, Owned,
         Count, ReaderCount, Lifecycle, Once, Owns, Accounted;
    OneProcessor(s);
    match step
    case StarterStep(i, answer) => CompleteStarter(s, i, answer, ref);
    case FeederStep(i, takesClosed) => CompleteFeeder(s, i, takesClosed, ref);
    case ReaderStep(i, r, built) => CompleteReader(s, i, r, built, ref);
    case Emit(i, _) =>
    case CloseFeed(i) =>
    case OthersRegister(_) =>
    case OthersDone(_) =>
    case _ => CompleteHandler(s, step, ref);
  }

  lemma CompletePreserved(s: Sys, step: Step)
    requires Lifecycle(s) && Once(s) && Owns(s) && Accounted(s) && Complete(s) && Enabled(s, step)
    ensures Complete(Apply(s, step))
  {
    hide CompleteFor, Lifecycle, Once, Owns, Accounted, Apply, Enabled;
    forall ref ensures CompleteFor(Apply(s, step), ref) {
      assert CompleteFor(s, ref);
      CompletePreservedFor(s, step, ref);
    }
  }

  lemma CompleteInit(s: Sys)
    requires Init(s)
    ensures Complete(s)
  {
  }
}
