// Who holds what in the registry, and the PendingFinished message: sent only
// after the pulse, only with an empty registry, and never forgotten.
module PendingFinished {
  import opened Collections
  import opened References
  import opened ExecutionRegistries
  import opened Broker
  import opened BrokerSystem
  import opened BrokerLifecycle
  import opened AtMostOnce

  function ExecutingCount(s: Sys, ref: Reference): nat {
    if s.processors == [] then 0 else ReaderCount(s.processors[0].readers, true, ref)
  }

  // A request a reader executes is registered, and by no second reader; with a
  // registry of its own, the broker has registered nothing else.
  predicate OwnsFor(s: Sys, ref: Reference) {
    && ExecutingCount(s, ref) <= One(ref in s.registry)
    && (!s.shared ==> ExecutingCount(s, ref) == One(ref in s.registry))
  }

  ghost predicate Owns(s: Sys) {
    forall ref :: OwnsFor(s, ref)
  }

  lemma ExecutingIsRegistered(s: Sys, r: nat)
    requires Owns(s) && s.processors != [] && r < |s.processors[0].readers| && s.processors[0].readers[r].pc.Executing?
    ensures s.processors[0].readers[r].pc.transcript.requestRef in s.registry
  {
    var ref := s.processors[0].readers[r].pc.transcript.requestRef;
    ReaderIsCounted(s.processors[0].readers, r, true, ref);
    assert OwnsFor(s, ref);
  }

  lemma OwnsReader(s: Sys, i: nat, r: nat, built: bool, ref: Reference)
    requires |s.processors| == 1 && i == 0 && r < |s.processors[0].readers| && OwnsFor(s, ref)
    ensures OwnsFor(ReaderApply(s, i, r, built), ref)
  {
    hide ReaderCount, FeedOf, ReaderH, ReaderQ;
    var p := s.processors[0];
    var reader := p.readers[r];
    ReaderCountUpdate(p.readers, r, Reader(reader.immutable, ReaderNext(s.q, s.registry, p, reader)), true, ref);
  }

  lemma OwnsStarter(s: Sys, i: nat, answer: LedgerAnswer, ref: Reference)
    requires Lifecycle(s) && OwnsFor(s, ref) && i < |s.starters|
    ensures OwnsFor(StarterApply(s, i, answer), ref)
  {
    hide StarterNext, StandardReaders;
    AllIdle(NewReaders(), true, ref);
  }

  lemma OwnsPreservedFor(s: Sys, step: Step, ref: Reference)
    requires Lifecycle(s) && OwnsFor(s, ref) && Enabled(s, step)
    ensures OwnsFor(Apply(s, step), ref)
  {
    hide StarterApply, FeederApply, ReaderApply, StarterEnabled, FeederEnabled, ReaderEnabled, ReaderCount, Lifecycle;
    OneProcessor(s);
    match step
    case StarterStep(i, answer) => OwnsStarter(s, i, answer, ref);
    case FeederStep(i, takesClosed) => OwnsFeeder(s, i, takesClosed, ref);
    case ReaderStep(i, r, built) => OwnsReader(s, i, r, built, ref);
    case Emit(i, _) =>
    case CloseFeed(i) =>
    case OthersRegister(_) =>
    case OthersDone(other) =>
      if other == ref && s.processors != [] && ReaderCount(s.processors[0].readers, true, ref) > 0 {
        var r := SomeReaderHolds(s.processors[0].readers, true, ref);
        assert false;
      }
    case _ =>
  }

  lemma OwnsFeeder(s: Sys, i: nat, takesClosed: bool, ref: Reference)
    requires |s.processors| == 1 && i == 0 && OwnsFor(s, ref)
    ensures OwnsFor(FeederApply(s, i, takesClosed), ref)
  {
    hide ReaderCount, FeederQ, FeederH, FeederP;
    FeederFrame(s.q, s.processors[0], takesClosed);
  }

  lemma OwnsPreserved(s: Sys, step: Step)
    requires Lifecycle(s) && Owns(s) && Enabled(s, step)
    ensures Owns(Apply(s, step))
  {
    hide OwnsFor, Lifecycle, Apply, Enabled;
    forall ref ensures OwnsFor(Apply(s, step), ref) {
      assert OwnsFor(s, ref);
      OwnsPreservedFor(s, step, ref);
    }
  }

  lemma OwnsInit(s: Sys)
    requires Init(s)
    ensures Owns(s)
  {
  }

  // ----- Nothing that started is forgotten

  // Before the pulse, whatever has passed is executing or on the finished list.
  predicate AccountedFor(s: Sys, ref: Reference) {
    !s.q.closed ==> Count(s.h.passed, ref) == ExecutingCount(s, ref) + Count(s.q.finished, ref)
  }

  ghost predicate Accounted(s: Sys) {
    forall ref :: AccountedFor(s, ref)
  }

  lemma AccountedInit(s: Sys)
    requires Init(s)
    ensures Accounted(s)
  {
  }

  lemma ReaderMoves(q: BrokerState, registry: Registry, p: Processor, r: nat, ref: Reference)
    requires r < |p.readers|
    ensures var pc := p.readers[r].pc;
            ReaderCount(ReaderP(q, registry, p, r).readers, true, ref)
            + One(pc.Executing? && pc.transcript.requestRef == ref)
            == ReaderCount(p.readers, true, ref) + One(Passes(q, registry, pc) && pc.transcript.requestRef == ref)
  {
    hide ReaderCount, FeedOf;
    var reader := p.readers[r];
    ReaderCountUpdate(p.readers, r, Reader(reader.immutable, ReaderNext(q, registry, p, reader)), true, ref);
  }

  lemma AccountedReader(s: Sys, i: nat, r: nat, built: bool, ref: Reference)
    requires |s.processors| == 1 && i == 0 && r < |s.processors[0].readers| && AccountedFor(s, ref)
    ensures AccountedFor(ReaderApply(s, i, r, built), ref)
  {
    hide ReaderCount, Count, ReaderRegistry, ReaderP, MayProcess;
    var pc := s.processors[0].readers[r].pc;
    ReaderMoves(s.q, s.registry, s.processors[0], r, ref);
    if pc.Taken? { CountPush(s.h.passed, pc.transcript, ref); }
    if pc.Executing? { CountPush(s.q.finished, pc.transcript, ref); }
  }

  lemma AccountedStarter(s: Sys, i: nat, answer: LedgerAnswer, ref: Reference)
    requires Lifecycle(s) && AccountedFor(s, ref) && i < |s.starters|
    ensures AccountedFor(StarterApply(s, i, answer), ref)
  {
    hide StarterNext, StandardReaders, ReaderCount, Count;
    AllIdle(NewReaders(), true, ref);
  }

  lemma AccountedFeeder(s: Sys, i: nat, takesClosed: bool, ref: Reference)
    requires |s.processors| == 1 && i == 0 && AccountedFor(s, ref)
    ensures AccountedFor(FeederApply(s, i, takesClosed), ref)
  {
    hide ReaderCount, FeederQ, FeederH, FeederP, Count;
    FeederFrame(s.q, s.processors[0], takesClosed);
    FeederHistoryFrame(s.h, s.processors[0], takesClosed);
  }

  lemma AccountedHandler(s: Sys, step: Step, ref: Reference)
    requires AccountedFor(s, ref) && !s.q.closed
    ensures AccountedFor(HandlerApply(s, step), ref)
  {
    hide ReaderCount, Count;
  }

  lemma AccountedPreservedFor(s: Sys, step: Step, ref: Reference)
    requires Lifecycle(s) && AccountedFor(s, ref) && Enabled(s, step)
    ensures AccountedFor(Apply(s, step), ref)
  {
    hide StarterApply, FeederApply, ReaderApply, HandlerApply, StarterEnabled, FeederEnabled, ReaderEnabled, Owned,
         Count, ReaderCount, Lifecycle;
    OneProcessor(s);
    match step
    case StarterStep(i, answer) => AccountedStarter(s, i, answer, ref);
    case FeederStep(i, takesClosed) => AccountedFeeder(s, i, takesClosed, ref);
    case ReaderStep(i, r, built) => AccountedReader(s, i, r, built, ref);
    case Emit(i, _) =>
    case CloseFeed(i) =>
    case OthersRegister(_) =>
    case OthersDone(_) =>
    case _ => AccountedHandler(s, step, ref);
  }

  lemma AccountedPreserved(s: Sys, step: Step)
    requires Lifecycle(s) && Accounted(s) && Enabled(s, step)
    ensures Accounted(Apply(s, step))
  {
    hide AccountedFor, Lifecycle, Apply, Enabled;
    forall ref ensures AccountedFor(Apply(s, step), ref) {
      assert AccountedFor(s, ref);
      AccountedPreservedFor(s, step, ref);
    }
  }

  // ----- The message

  // A reader that has work on the registry, or has yet to look whether it was
  // the last one.
  predicate Busy(rs: seq<Reader>) {
    exists r :: 0 <= r < |rs| && (rs[r].pc.Executing? || rs[r].pc.Finishing?)
  }

  predicate Announced(s: Sys) {
    s.q.closed && s.h.activeAtPulse && !s.shared ==>
      s.h.pendingFinishedSent > 0 || s.h.buildFailed || (s.processors != [] && Busy(s.processors[0].readers))
  }

  // With a registry of its own, a broker with something registered has a reader
  // executing it.
  lemma RegisteredIsExecuting(s: Sys) returns (r: nat)
    requires Owns(s) && !s.shared && IsActive(s.registry)
    ensures s.processors != [] && r < |s.processors[0].readers| && s.processors[0].readers[r].pc.Executing?
  {
    var ref :| ref in s.registry;
    assert OwnsFor(s, ref);
    r := SomeReaderHolds(s.processors[0].readers, true, ref);
  }

  lemma AnnouncedReader(s: Sys, i: nat, r: nat, built: bool)
    requires |s.processors| == 1 && i == 0 && r < |s.processors[0].readers|
    requires Owns(s) && Announced(s) && (s.q.closed ==> s.q.pending == InPending)
    ensures Announced(ReaderApply(s, i, r, built))
  {
    hide ReaderCount, FeedOf, Owns, ReaderRegistry;
    var rs := s.processors[0].readers;
    var t := ReaderApply(s, i, r, built);
    var rs' := t.processors[0].readers;
    if s.q.closed && s.h.activeAtPulse && !s.shared && s.h.pendingFinishedSent == 0 && !s.h.buildFailed {
      var b :| 0 <= b < |rs| && (rs[b].pc.Executing? || rs[b].pc.Finishing?);
      if b != r {
        assert rs'[b] == rs[b];
      } else if rs[r].pc.Executing? {
        assert rs'[r].pc.Finishing?;
      } else if IsActive(s.registry) {
        var other := RegisteredIsExecuting(s);
        assert rs'[other] == rs[other];
      }
    }
  }

  lemma AnnouncedPreserved(s: Sys, step: Step)
    requires Lifecycle(s) && Owns(s) && Announced(s) && Enabled(s, step)
    ensures Announced(Apply(s, step))
  {
    hide FeederApply, ReaderApply, StarterNext, Owned, FeederEnabled, ReaderEnabled, StandardReaders, Owns;
    match step
    case StarterStep(i, answer) =>
    case FeederStep(i, takesClosed) =>
      AnnouncedFeeder(s, i, takesClosed);
    case ReaderStep(i, r, built) => AnnouncedReader(s, i, r, built);
    case Pulse =>
      if !s.shared && IsActive(s.registry) {
        var r := RegisteredIsExecuting(s);
      }
    case _ =>
  }

  lemma AnnouncedFeeder(s: Sys, i: nat, takesClosed: bool)
    requires |s.processors| == 1 && i == 0 && Announced(s)
    ensures Announced(FeederApply(s, i, takesClosed))
  {
    hide FeederQ, FeederP, FeederH;
    FeederFrame(s.q, s.processors[0], takesClosed);
    FeederHistoryFrame(s.h, s.processors[0], takesClosed);
  }

  // Every PendingFinished goes out after the pulse and with an empty registry.
  lemma SentOnlyAfterPulse(s: Sys, step: Step)
    requires Lifecycle(s) && Enabled(s, step)
    ensures Apply(s, step).h.pendingFinishedSent != s.h.pendingFinishedSent ==> s.q.closed && s.registry == map[]
  {
    hide FeederP, FeederQ, ReaderP, ReaderQ, ReaderRegistry, StarterNext, Owned, FeederEnabled, ReaderEnabled,
         StandardReaders;
    match step
    case FeederStep(i, takesClosed) => FeederHistoryFrame(s.h, s.processors[i], takesClosed);
    case _ =>
  }
}
