// What holds in every state of every run of one broker: at most one processor,
// started only in NotPending, and a pending state that only moves upward.
module BrokerLifecycle {
  import opened ExecutionRegistries
  import opened Broker
  import opened BrokerSystem

  predicate StandardReaders(rs: seq<Reader>) {
    && |rs| == IMMUTABLE_EXECUTION_LIMIT + 1
    && forall i :: 0 <= i < |rs| ==> (rs[i].immutable <==> i < IMMUTABLE_EXECUTION_LIMIT)
  }

  predicate Lifecycle(s: Sys) {
    && |s.processors| <= 1
    && (s.q.processorActive <==> s.processors != [])
    && (s.q.closed ==> s.q.pending == InPending && s.q.pendingConfirmed)
    && (!s.q.closed && s.processors != [] ==> s.q.pending == NotPending)
    && (s.processors == [] ==> s.h.passed == [] && s.h.delivered == [] && s.q.finished == [])
    && (!s.q.closed ==> (s.q.pendingConfirmed <==> s.h.stillExecutingAccepted))
    && (!s.q.closed && s.q.pendingConfirmed ==> s.q.pending != PendingUnknown)
    && (s.processors != [] ==> StandardReaders(s.processors[0].readers))
  }

  lemma LifecycleInit(s: Sys)
    requires Init(s)
    ensures Lifecycle(s)
  {
  }

  // What the goroutines leave alone.
  lemma FeederFrame(q: BrokerState, p: Processor, takesClosed: bool)
    ensures var q' := FeederQ(q, p, takesClosed);
            q' == q.(probablyMore := q'.probablyMore, deduplicationTable := q'.deduplicationTable,
                     ledgerHasMoreRequests := q'.ledgerHasMoreRequests)
    ensures FeederP(q, p, takesClosed).readers == p.readers
  {
  }

  lemma FeederHistoryFrame(h: History, p: Processor, takesClosed: bool)
    ensures var h' := FeederH(h, p, takesClosed); h' == h.(delivered := h'.delivered, log := h'.log)
  {
  }

  lemma ReaderFrame(q: BrokerState, registry: Registry, p: Processor, r: nat, h: History, built: bool)
    requires r < |p.readers|
    ensures ReaderQ(q, p.readers[r].pc) == q.(finished := ReaderQ(q, p.readers[r].pc).finished)
    ensures var p' := ReaderP(q, registry, p, r);
            p' == p.(readers := p'.readers, feedMutable := p'.feedMutable, feedImmutable := p'.feedImmutable)
            && |p'.readers| == |p.readers| && forall i :: 0 <= i < |p.readers| ==>
                p'.readers[i].immutable == p.readers[i].immutable
    ensures var h' := ReaderH(q, registry, h, p.readers[r].pc, built);
            h' == h.(passed := h'.passed, pendingFinishedSent := h'.pendingFinishedSent, buildFailed := h'.buildFailed)
  {
  }

  lemma LifecycleStarter(s: Sys, i: nat, answer: LedgerAnswer)
    requires Lifecycle(s) && i < |s.starters| && StarterEnabled(s, s.starters[i])
    ensures Lifecycle(StarterApply(s, i, answer))
  {
    hide StarterNext;
  }

  lemma LifecycleFeeder(s: Sys, i: nat, takesClosed: bool)
    requires Lifecycle(s) && i < |s.processors|
    ensures Lifecycle(FeederApply(s, i, takesClosed))
  {
    hide StandardReaders, FeederQ, FeederP, FeederH;
    FeederFrame(s.q, s.processors[i], takesClosed);
    FeederHistoryFrame(s.h, s.processors[i], takesClosed);
  }

  lemma LifecycleReader(s: Sys, i: nat, r: nat, built: bool)
    requires Lifecycle(s) && i < |s.processors| && r < |s.processors[i].readers|
    ensures Lifecycle(ReaderApply(s, i, r, built))
  {
    hide ReaderQ, ReaderP, ReaderH, ReaderRegistry;
    ReaderFrame(s.q, s.registry, s.processors[i], r, s.h, built);
  }

  lemma LifecycleHandler(s: Sys, step: Step)
    requires Lifecycle(s) && !s.q.closed
    ensures Lifecycle(HandlerApply(s, step))
  {
    hide StandardReaders;
  }

  lemma LifecyclePreserved(s: Sys, step: Step)
    requires Lifecycle(s) && Enabled(s, step)
    ensures Lifecycle(Apply(s, step))
  {
    hide StarterApply, FeederApply, ReaderApply, HandlerApply, StarterEnabled, FeederEnabled, ReaderEnabled, Owned;
    match step
    case StarterStep(i, answer) => LifecycleStarter(s, i, answer);
    case FeederStep(i, takesClosed) => LifecycleFeeder(s, i, takesClosed);
    case ReaderStep(i, r, built) => LifecycleReader(s, i, r, built);
    case Emit(i, _) =>
    case CloseFeed(i) =>
    case OthersRegister(_) =>
    case OthersDone(_) =>
    case _ => LifecycleHandler(s, step);
  }

  // ----- Upward only

  // One step never lowers the pending state, except the pulse, and a step after
  // the pulse leaves it alone. Nor does any step reopen a broker, or take a
  // processor away, and a processor starts only in NotPending.
  predicate MovesUp(s: Sys, t: Sys) {
    && (s.q.closed ==> t.q.closed && t.q.pending == s.q.pending)
    && (!t.q.closed ==> Rank(s.q.pending) <= Rank(t.q.pending))
    && |s.processors| <= |t.processors|
    && (|s.processors| < |t.processors| ==> !s.q.closed && s.q.pending == NotPending)
  }

  lemma PendingMovesUp(s: Sys, step: Step)
    requires Lifecycle(s) && Enabled(s, step)
    ensures MovesUp(s, Apply(s, step))
    ensures Apply(s, step).q.closed <==> s.q.closed || step == Pulse
  {
    hide StandardReaders, FeederQ, FeederP, FeederH, ReaderQ, ReaderP, ReaderH, ReaderRegistry, StarterNext,
         NewProcessor, Owned, FeederEnabled, ReaderEnabled;
    match step
    case StarterStep(i, answer) =>
    case FeederStep(i, takesClosed) => FeederFrame(s.q, s.processors[i], takesClosed);
    case ReaderStep(i, r, built) => ReaderFrame(s.q, s.registry, s.processors[i], r, s.h, built);
    case _ =>
  }
}
