// How a processor ends: its feeder stops only after the pulse, its readers only
// after the feeder, and on the way nobody waits for something that cannot come.
module WindingDown {
  import opened ExecutionRegistries
  import opened Broker
  import opened BrokerSystem
  import opened BrokerLifecycle
  import opened AtMostOnce
  import opened PendingFinished
  import opened NothingDropped
  import opened Notifications
  import opened Ordering
  import opened BrokerRuns

  predicate Orderly(q: BrokerState, p: Processor) {
    && (p.feedsClosed <==> p.feeder == Stopped)
    && (p.feeder == Stopping || p.feeder == Stopped ==> q.closed)
    && (forall r :: 0 <= r < |p.readers| && p.readers[r].pc == Exited ==> p.feedsClosed && NoWork(p, p.readers[r]))
  }

  // The reader's channel is drained.
  predicate NoWork(p: Processor, reader: Reader) {
    FeedOf(p, reader.immutable) == []
  }

  predicate WindsDown(s: Sys) {
    s.processors != [] ==> Orderly(s.q, s.processors[0])
  }

  lemma OrderlyFeeder(q: BrokerState, p: Processor, takesClosed: bool)
    requires Orderly(q, p) && FeederEnabled(q, p, takesClosed)
    ensures Orderly(FeederQ(q, p, takesClosed), FeederP(q, p, takesClosed))
  {
    FeederFrame(q, p, takesClosed);
  }

  lemma OrderlyReader(q: BrokerState, registry: Registry, p: Processor, r: nat)
    requires Orderly(q, p) && r < |p.readers| && ReaderEnabled(p, p.readers[r])
    ensures Orderly(ReaderQ(q, p.readers[r].pc), ReaderP(q, registry, p, r))
  {
    hide Passes;
    var reader, p' := p.readers[r], ReaderP(q, registry, p, r);
    forall k | 0 <= k < |p'.readers| && p'.readers[k].pc == Exited ensures p'.feedsClosed && NoWork(p', p'.readers[k]) {
      if k != r { assert p'.readers[k] == p.readers[k]; }
    }
  }

  lemma WindsDownPreserved(s: Sys, step: Step)
    requires Lifecycle(s) && WindsDown(s) && Enabled(s, step)
    ensures WindsDown(Apply(s, step))
  {
    hide FeederP, FeederQ, FeederH, FeederEnabled, ReaderP, ReaderQ, ReaderH, ReaderEnabled, ReaderRegistry,
         StarterNext, StarterEnabled, StandardReaders, Owned, Orderly;
    match step
    case StarterStep(i, answer) => NewIsOrderly(StarterQ(s.q, s.starters[i]));
      if s.processors != [] { SameOrderly(s.q, StarterQ(s.q, s.starters[i]), s.processors[0]); }
    case FeederStep(i, takesClosed) => OrderlyFeeder(s.q, s.processors[i], takesClosed);
    case ReaderStep(i, r, built) => OrderlyReader(s.q, s.registry, s.processors[i], r);
    case Emit(i, item) =>
      var p := s.processors[i];
      SameReaders(s.q, p, p.(feed := p.feed + [item], told := p.told || item == NoMore));
    case CloseFeed(i) => SameReaders(s.q, s.processors[i], s.processors[i].(feedClosed := true));
    case OthersRegister(_) =>
    case OthersDone(_) =>
    case _ => if s.processors != [] { SameOrderly(s.q, Apply(s, step).q, s.processors[0]); }
  }

  lemma NewIsOrderly(q: BrokerState)
    ensures Orderly(q, NewProcessor())
  {
  }

  lemma SameOrderly(q: BrokerState, q': BrokerState, p: Processor)
    requires Orderly(q, p) && (q.closed ==> q'.closed)
    ensures Orderly(q', p)
  {
  }

  lemma SameReaders(q: BrokerState, p: Processor, p': Processor)
    requires Orderly(q, p) && p' == p.(feed := p'.feed, told := p'.told, feedClosed := p'.feedClosed)
    ensures Orderly(q, p')
  {
  }

  lemma {:induction false} WindsDownAlways(states: seq<Sys>, steps: seq<Step>, n: nat)
    requires IsRun(states, steps) && n < |states|
    ensures WindsDown(states[n])
  {
    hide Apply, Enabled, Orderly, Lifecycle, Once, Owns, Accounted, Announced, Notices, Disciplined, Complete;
    if n == 0 {
    } else {
      WindsDownAlways(states, steps, n - 1);
      BrokerRuns.Reachable(states, steps, n - 1);
      assert Enabled(states[n - 1], steps[n - 1]);
      WindsDownPreserved(states[n - 1], steps[n - 1]);
    }
  }

  predicate Finished(p: Processor) {
    p.feeder == Stopped && forall r :: 0 <= r < |p.readers| ==> p.readers[r].pc == Exited
  }

  predicate SomeStep(q: BrokerState, p: Processor) {
    || FeederEnabled(q, p, true) || FeederEnabled(q, p, false)
    || exists r :: 0 <= r < |p.readers| && ReaderEnabled(p, p.readers[r])
  }

  // The feeder can go on, or the reader it waits for can.
  lemma FeederIsNotStuck(q: BrokerState, p: Processor)
    requires q.closed && Orderly(q, p) && StandardReaders(p.readers) && p.feeder != Stopped
    ensures SomeStep(q, p)
  {
    if p.feeder.Handing? {
      var r := if p.feeder.hand.immutable then 0 else IMMUTABLE_EXECUTION_LIMIT;
      assert p.readers[r].immutable == p.feeder.hand.immutable;
      if FeedOf(p, p.feeder.hand.immutable) != [] { assert ReaderEnabled(p, p.readers[r]); }
    }
  }

  lemma ReaderIsNotStuck(q: BrokerState, p: Processor, r: nat)
    requires Orderly(q, p) && p.feeder == Stopped && r < |p.readers| && p.readers[r].pc != Exited
    ensures SomeStep(q, p)
  {
    assert ReaderEnabled(p, p.readers[r]);
  }

  // After the pulse some goroutine of the processor can always go on, until all
  // of them have ended; and a stopped reader has left nothing in its channel.
  lemma NoDeadlock(states: seq<Sys>, steps: seq<Step>, n: nat)
    requires IsRun(states, steps) && n < |states| && states[n].q.closed && states[n].processors != []
    ensures Finished(states[n].processors[0]) || SomeStep(states[n].q, states[n].processors[0])
    ensures Finished(states[n].processors[0]) ==>
              states[n].processors[0].feedMutable == [] && states[n].processors[0].feedImmutable == []
  {
    hide Apply, Enabled, SomeStep, FeederEnabled, ReaderEnabled, Once, Owns, Accounted, Announced, Notices,
         Disciplined, Complete;
    WindsDownAlways(states, steps, n);
    BrokerRuns.Reachable(states, steps, n);
    var q, p := states[n].q, states[n].processors[0];
    if p.feeder != Stopped {
      FeederIsNotStuck(q, p);
    } else if !Finished(p) {
      var r :| 0 <= r < |p.readers| && p.readers[r].pc != Exited;
      ReaderIsNotStuck(q, p, r);
    } else {
      assert NoWork(p, p.readers[0]) && NoWork(p, p.readers[IMMUTABLE_EXECUTION_LIMIT]);
    }
  }
}
