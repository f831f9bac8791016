// What the ledger flag says and why: which reports of the fetcher mean "the
// ledger is empty" for good, and which mean "there was something".
module LedgerFlag {
  import opened Collections
  import opened References
  import opened Broker
  import opened BrokerSystem
  import opened BrokerLifecycle
  import opened AtMostOnce
  import opened PendingFinished
  import opened Notifications
  import opened NothingDropped
  import opened Ordering
  import opened BrokerRuns

  // The feeder passes on a "no more pendings" of the fetcher.
  predicate Reports(s: Sys, step: Step) {
    step.FeederStep? && Enabled(s, step) && s.processors[step.p].feeder == ReportingNoMore
  }

  // No notification has come in since the round started.
  predicate ReportsQuietly(s: Sys, step: Step) {
    Reports(s, step) && !s.q.probablyMore
  }

  // The ledger itself said that something is pending.
  predicate LearnsOfMore(s: Sys, step: Step) {
    && step.StarterStep? && Enabled(s, step)
    && s.starters[step.i] == StarterPc.Answered(true) && s.q.pending == PendingUnknown
  }

  predicate Fresh(p: Processor) {
    p.fetchIteration == 0 && p.fetchedRequests == 0
  }

  lemma FlagChanges(s: Sys, step: Step)
    requires Enabled(s, step) && !Apply(s, step).q.closed
    ensures Apply(s, step).q.ledgerHasMoreRequests ==
            if Notifies(step) then LedgerHasMoreKnown
            else if ReportsQuietly(s, step) then
              if Fresh(s.processors[step.p]) then LedgerIsEmpty else LedgerHasMoreKnown
            else if LearnsOfMore(s, step) then LedgerHasMoreUnknown
            else s.q.ledgerHasMoreRequests
  {
    hide FeederP, FeederH, ReaderP, ReaderH, ReaderRegistry, StarterNext, NewProcessor, Owned, FeederEnabled,
         ReaderEnabled, StarterEnabled;
  }

  // ----- The first report

  // What the feeder counts, and where the fetcher's nil can be.
  predicate Counters(s: Sys) {
    && (!s.q.closed && s.processors != [] ==> s.processors[0].fetchedRequests == |s.q.deduplicationTable|)
    && (s.processors != [] ==> OneNil(s.processors[0]))
  }

  // One nil a round, behind everything else.
  predicate OneNil(p: Processor) {
    && (forall k :: 0 <= k < |p.feed| && p.feed[k] == NoMore ==> k == |p.feed| - 1 && p.told)
    && (p.feeder == ReportingNoMore ==> p.told && !HasNoMore(p.feed))
  }

  lemma NilFeeder(q: BrokerState, p: Processor, takesClosed: bool)
    requires OneNil(p)
    ensures OneNil(FeederP(q, p, takesClosed))
  {
    FeedMoves(q, p, takesClosed);
    hide FeederP;
    var p' := FeederP(q, p, takesClosed);
    if p'.feed != p.feed && p'.feed != [] {
      assert forall k :: 0 <= k < |p'.feed| ==> p'.feed[k] == p.feed[k + 1];
    }
  }

  lemma FeedMoves(q: BrokerState, p: Processor, takesClosed: bool)
    ensures var p' := FeederP(q, p, takesClosed);
            if p.feeder == Refetching then p'.feed == [] && !p'.told && p'.feeder == Selecting
            else
              && p'.told == p.told
              && (if p.feeder == Selecting && !takesClosed && p.feed != [] then
                    p'.feed == p.feed[1..] && (p'.feeder == ReportingNoMore <==> p.feed[0] == NoMore)
                  else p'.feed == p.feed && p'.feeder != ReportingNoMore)
  {
  }

  // The request a feeder step enters in the table, if it was not there.
  predicate Enters(q: BrokerState, p: Processor) {
    p.feeder.Upserting? && p.feeder.hand.requestRef !in q.deduplicationTable
  }

  lemma FeederCounts(q: BrokerState, p: Processor, takesClosed: bool)
    ensures var p' := FeederP(q, p, takesClosed);
            p'.fetchIteration == p.fetchIteration + One(p.feeder == ReportingNoMore)
            && p'.fetchedRequests == p.fetchedRequests + One(Enters(q, p))
    ensures FeederQ(q, p, takesClosed).deduplicationTable ==
            if p.feeder.Upserting? then q.deduplicationTable + {p.feeder.hand.requestRef} else q.deduplicationTable
  {
  }

  lemma SizeWith(table: set<Reference>, ref: Reference)
    ensures |table + {ref}| == |table| + One(ref !in table)
  {
    if ref in table { assert table + {ref} == table; }
  }

  lemma TableGrows(q: BrokerState, p: Processor, takesClosed: bool)
    requires p.fetchedRequests == |q.deduplicationTable|
    ensures FeederP(q, p, takesClosed).fetchedRequests == |FeederQ(q, p, takesClosed).deduplicationTable|
  {
    hide FeederP, FeederQ;
    FeederCounts(q, p, takesClosed);
    if p.feeder.Upserting? { SizeWith(q.deduplicationTable, p.feeder.hand.requestRef); }
  }

  lemma CountersPreserved(s: Sys, step: Step)
    requires Lifecycle(s) && TableIsUnused(s) && Counters(s) && Enabled(s, step)
    ensures Counters(Apply(s, step))
  {
    hide StarterNext, StarterEnabled, FeederEnabled, ReaderEnabled, Owned, StandardReaders, FeederP, FeederQ, FeederH,
         ReaderP, ReaderQ, ReaderH, ReaderRegistry, OneNil;
    match step
    case StarterStep(i, answer) => NewHasNoNil();
    case FeederStep(i, takesClosed) =>
      FeederFrame(s.q, s.processors[i], takesClosed);
      NilFeeder(s.q, s.processors[i], takesClosed);
      if !s.q.closed { TableGrows(s.q, s.processors[i], takesClosed); }
    case ReaderStep(i, r, built) =>
      ReaderFrame(s.q, s.registry, s.processors[i], r, s.h, built);
      SameFeed(s.processors[i], ReaderP(s.q, s.registry, s.processors[i], r));
    case Emit(i, item) => NilEmit(s.processors[i], item);
    case CloseFeed(i) => SameFeed(s.processors[i], s.processors[i].(feedClosed := true));
    case _ =>
  }

  lemma NewHasNoNil()
    ensures OneNil(NewProcessor())
  {
  }

  lemma SameFeed(p: Processor, p': Processor)
    requires p'.feed == p.feed && p'.feeder == p.feeder && p'.told == p.told
    ensures OneNil(p) ==> OneNil(p')
  {
  }

  lemma NilEmit(p: Processor, item: Item)
    requires !p.told && OneNil(p)
    ensures OneNil(p.(feed := p.feed + [item], told := p.told || item == NoMore))
  {
  }

  lemma {:induction false} CountersHold(states: seq<Sys>, steps: seq<Step>, n: nat)
    requires IsRun(states, steps) && n < |states|
    ensures Counters(states[n])
  {
    hide Apply, Enabled, Counters, Lifecycle, Once, Owns, Accounted, Announced, Notices, InOrder;
    if n == 0 {
      StartCounts(states[0]);
    } else {
      CountersHold(states, steps, n - 1);
      BrokerRuns.Reachable(states, steps, n - 1);
      assert Enabled(states[n - 1], steps[n - 1]);
      CountersPreserved(states[n - 1], steps[n - 1]);
    }
  }

  lemma StartCounts(s: Sys)
    requires Init(s)
    ensures Counters(s)
  {
  }

  lemma IterationGrows(s: Sys, step: Step)
    requires Lifecycle(s) && Enabled(s, step)
    ensures Apply(s, step).processors != [] && s.processors == [] ==> Apply(s, step).processors[0].fetchIteration == 0
    ensures s.processors != [] ==>
              Apply(s, step).processors != []
              && Apply(s, step).processors[0].fetchIteration == s.processors[0].fetchIteration + One(Reports(s, step))
    ensures s.processors == [] ==> !Reports(s, step)
  {
    hide FeederP, FeederQ, FeederH, ReaderQ, ReaderH, ReaderRegistry, ReaderP, StarterNext, StarterEnabled, Owned,
         FeederEnabled, ReaderEnabled, StandardReaders, NewReaders;
    if step.FeederStep? { FeederCounts(s.q, s.processors[step.p], step.takesClosed); }
    if step.ReaderStep? { ReaderFrame(s.q, s.registry, s.processors[step.p], step.r, s.h, step.built); }
  }

  lemma {:induction false} FirstIteration(states: seq<Sys>, steps: seq<Step>, n: nat)
    requires IsRun(states, steps) && n < |states|
    ensures (states[n].processors == [] || states[n].processors[0].fetchIteration == 0) <==>
              forall a :: 0 <= a < n ==> !Reports(states[a], steps[a])
  {
    hide Apply, Enabled, Reports, Lifecycle, Once, Owns, Accounted, Announced, Notices, Disciplined, Complete;
    if n == 0 {
    } else {
      FirstIteration(states, steps, n - 1);
      BrokerRuns.Reachable(states, steps, n - 1);
      assert Enabled(states[n - 1], steps[n - 1]);
      IterationGrows(states[n - 1], steps[n - 1]);
    }
  }

  // No report before, and nothing delivered.
  predicate NothingFoundBefore(states: seq<Sys>, steps: seq<Step>, n: nat)
    requires n <= |steps| <= |states|
  {
    forall a :: 0 <= a < n ==> !Reports(states[a], steps[a]) && DeliveredBy(states[a], steps[a]) == []
  }

  lemma {:induction false} NothingDelivered(states: seq<Sys>, steps: seq<Step>, n: nat)
    requires IsRun(states, steps) && n < |states|
    ensures states[n].h.delivered == [] <==> forall a :: 0 <= a < n ==> DeliveredBy(states[a], steps[a]) == []
  {
    hide Apply, Enabled, DeliveredBy;
    if n == 0 {
    } else {
      NothingDelivered(states, steps, n - 1);
      assert Enabled(states[n - 1], steps[n - 1]);
      RecordsGrow(states[n - 1], steps[n - 1]);
    }
  }

  // The two counters of the feeder say just that.
  lemma FreshMeansNothingFound(states: seq<Sys>, steps: seq<Step>, i: nat)
    requires IsRun(states, steps) && i < |steps| && Reports(states[i], steps[i]) && !states[i].q.closed
    ensures states[i].processors != [] && steps[i].p == 0
    ensures Fresh(states[i].processors[0]) <==> NothingFoundBefore(states, steps, i)
  {
    hide Apply, Init, DeliveredBy, FeederEnabled, Once, Owns, Accounted, Announced, Notices, InOrder, Position,
         Complete, OneNil;
    BrokerRuns.Reachable(states, steps, i);
    CountersHold(states, steps, i);
    FirstIteration(states, steps, i);
    NothingDelivered(states, steps, i);
    assert Enabled(states[i], steps[i]);
    TableMeansDelivered(states[i]);
  }

  lemma TableMeansDelivered(s: Sys)
    requires TableIsComplete(s) && !s.q.closed && s.processors != [] && s.processors[0].feeder == ReportingNoMore
    ensures s.q.deduplicationTable == {} <==> s.h.delivered == []
  {
    if s.h.delivered != [] {
      var ref := s.h.delivered[0].requestRef;
      assert Known(s.q, s.processors[0].feeder, ref);
    }
    if s.q.deduplicationTable != {} {
      var ref :| ref in s.q.deduplicationTable;
      assert Known(s.q, s.processors[0].feeder, ref);
    }
  }

  // ----- Why the flag is what it is

  // The step raises the flag: a notification, the ledger's own word, or a quiet
  // report after something was found or in a later round.
  predicate Raises(states: seq<Sys>, steps: seq<Step>, a: nat)
    requires a < |steps| <= |states|
  {
    Notifies(steps[a]) || LearnsOfMore(states[a], steps[a])
    || (ReportsQuietly(states[a], steps[a]) && !NothingFoundBefore(states, steps, a))
  }

  // The step clears it: the very first report, quiet, with nothing found.
  predicate Clears(states: seq<Sys>, steps: seq<Step>, a: nat)
    requires a < |steps| <= |states|
  {
    ReportsQuietly(states[a], steps[a]) && NothingFoundBefore(states, steps, a)
  }

  predicate NoneRaises(states: seq<Sys>, steps: seq<Step>, n: nat)
    requires n <= |steps| <= |states|
  {
    forall a :: 0 <= a < n ==> !Raises(states, steps, a)
  }

  predicate NoneRaisesAfter(states: seq<Sys>, steps: seq<Step>, i: nat, n: nat)
    requires n <= |steps| <= |states|
  {
    forall a :: i < a < n ==> !Raises(states, steps, a)
  }

  lemma FlagStep(states: seq<Sys>, steps: seq<Step>, i: nat)
    requires IsRun(states, steps) && i < |steps| && !states[i + 1].q.closed
    ensures !(Raises(states, steps, i) && Clears(states, steps, i))
    ensures states[i + 1].q.ledgerHasMoreRequests == LedgerIsEmpty <==>
              Clears(states, steps, i)
              || (!Raises(states, steps, i) && states[i].q.ledgerHasMoreRequests == LedgerIsEmpty)
  {
    hide Apply, Init, Enabled, NothingFoundBefore, Fresh, Lifecycle;
    assert Enabled(states[i], steps[i]);
    PendingNeverFalls(states, steps, i, i + 1);
    FlagChanges(states[i], steps[i]);
    if Reports(states[i], steps[i]) { FreshMeansNothingFound(states, steps, i); }
  }

  // Before its pulse a broker believes the ledger empty exactly if nothing ever
  // raised the flag, or nothing did since the first report cleared it.
  lemma {:induction false} WhyLedgerFlag(states: seq<Sys>, steps: seq<Step>, n: nat)
    requires IsRun(states, steps) && n < |states| && !states[n].q.closed
    ensures states[n].q.ledgerHasMoreRequests == LedgerIsEmpty <==>
              NoneRaises(states, steps, n)
              || exists i: nat :: i < n && Clears(states, steps, i) && NoneRaisesAfter(states, steps, i, n)
  {
    hide Apply, Enabled, Raises, Clears;
    if n == 0 {
    } else {
      var m := n - 1;
      PendingNeverFalls(states, steps, m, n);
      WhyLedgerFlag(states, steps, m);
      FlagStep(states, steps, m);
      ClearsAndRaises(states, steps, m);
    }
  }

  lemma ClearsAndRaises(states: seq<Sys>, steps: seq<Step>, m: nat)
    requires m < |steps| <= |states|
    requires !(Raises(states, steps, m) && Clears(states, steps, m))
    ensures NoneRaises(states, steps, m + 1) <==> NoneRaises(states, steps, m) && !Raises(states, steps, m)
    ensures (exists i: nat :: i < m + 1 && Clears(states, steps, i) && NoneRaisesAfter(states, steps, i, m + 1)) <==>
              Clears(states, steps, m)
              || (!Raises(states, steps, m)
                  && exists i: nat :: i < m && Clears(states, steps, i) && NoneRaisesAfter(states, steps, i, m))
  {
    hide Raises, Clears;
    if Clears(states, steps, m) {
      assert NoneRaisesAfter(states, steps, m, m + 1);
    }
    forall i: nat | i < m
      ensures NoneRaisesAfter(states, steps, i, m + 1) <==>
                NoneRaisesAfter(states, steps, i, m) && !Raises(states, steps, m)
    {
      OneMore(states, steps, i, m);
    }
  }

  lemma OneMore(states: seq<Sys>, steps: seq<Step>, i: nat, m: nat)
    requires i < m < |steps| <= |states|
    ensures NoneRaisesAfter(states, steps, i, m + 1) <==>
              NoneRaisesAfter(states, steps, i, m) && !Raises(states, steps, m)
  {
    hide Raises;
  }

  // ----- A report after something was found

  predicate FoundSomething(s: Sys) {
    s.processors != [] && !Fresh(s.processors[0]) && s.q.ledgerHasMoreRequests != LedgerIsEmpty
  }

  lemma FoundStays(s: Sys, step: Step)
    requires Lifecycle(s) && Enabled(s, step) && !Apply(s, step).q.closed && FoundSomething(s)
    ensures FoundSomething(Apply(s, step))
  {
    hide FeederQ, FeederH, ReaderQ, ReaderH, ReaderRegistry, ReaderP, StarterNext, StarterEnabled, Owned,
         FeederEnabled, ReaderEnabled, StandardReaders, NewReaders, Notifies, LearnsOfMore, HandlerApply;
    FlagChanges(s, step);
    CountersRise(s, step);
  }

  lemma CountersRise(s: Sys, step: Step)
    requires Lifecycle(s) && Enabled(s, step) && s.processors != []
    ensures Apply(s, step).processors != []
    ensures var p, p' := s.processors[0], Apply(s, step).processors[0];
            p.fetchIteration <= p'.fetchIteration && p.fetchedRequests <= p'.fetchedRequests
            && (Reports(s, step) ==> p.fetchIteration < p'.fetchIteration)
  {
    hide FeederP, FeederQ, FeederH, ReaderQ, ReaderH, ReaderRegistry, ReaderP, StarterNext, StarterEnabled, Owned,
         FeederEnabled, ReaderEnabled, StandardReaders, NewReaders;
    if step.FeederStep? { FeederCounts(s.q, s.processors[step.p], step.takesClosed); }
    if step.ReaderStep? { ReaderFrame(s.q, s.registry, s.processors[step.p], step.r, s.h, step.built); }
  }

  // Once a report was quiet and something had been found before it, the broker
  // never believes the ledger empty again before its pulse.
  lemma {:induction false} FoundIsRemembered(states: seq<Sys>, steps: seq<Step>, i: nat, k: nat)
    requires IsRun(states, steps) && i < k < |states| && i < |steps| && !states[k].q.closed
    requires ReportsQuietly(states[i], steps[i]) && !NothingFoundBefore(states, steps, i)
    ensures FoundSomething(states[k])
    decreases k
  {
    hide Apply, Enabled, Init, NothingFoundBefore, Notifies, LearnsOfMore, Fresh, Lifecycle, Once, Owns, Accounted,
         Announced, Notices, Disciplined, Complete;
    var m := k - 1;
    assert Enabled(states[m], steps[m]);
    PendingNeverFalls(states, steps, m, k);
    BrokerRuns.Reachable(states, steps, m);
    if m == i {
      FreshMeansNothingFound(states, steps, i);
      FlagChanges(states[i], steps[i]);
      CountersRise(states[i], steps[i]);
      LaterIsNotFresh(states[i].processors[0], states[k].processors[0]);
      NotAlsoANotice(states[i], steps[i]);
    } else {
      FoundIsRemembered(states, steps, i, m);
      FoundStays(states[m], steps[m]);
    }
  }

  lemma LaterIsNotFresh(p: Processor, p': Processor)
    requires p.fetchIteration < p'.fetchIteration
    ensures !Fresh(p')
  {
  }

  lemma NotAlsoANotice(s: Sys, step: Step)
    requires Reports(s, step)
    ensures !Notifies(step) && !LearnsOfMore(s, step)
  {
    hide Enabled;
  }

  // So the pulse passes it on.
  lemma FoundIsPassedOn(states: seq<Sys>, steps: seq<Step>, i: nat, k: nat, ref: Reference)
    requires IsRun(states, steps) && i < k < |steps| && steps[k] == Pulse
    requires ReportsQuietly(states[i], steps[i]) && !NothingFoundBefore(states, steps, i)
    ensures var messages := PulseMessages(ref, states[k].q, states[k].registry);
            |messages| == 1 && messages[0].recordRef == ref && messages[0].ledgerHasMoreRequests
  {
    hide Apply, Init, NothingFoundBefore, ReportsQuietly;
    assert Enabled(states[k], steps[k]);
    FoundIsRemembered(states, steps, i, k);
  }

  // ----- A first report with nothing found

  predicate Settled(s: Sys) {
    && s.processors != [] && !s.q.probablyMore && s.q.ledgerHasMoreRequests == LedgerIsEmpty
    && s.processors[0].told && !HasNoMore(s.processors[0].feed)
    && s.processors[0].feeder != ReportingNoMore && s.processors[0].feeder != Refetching
  }

  lemma SettledFeeder(q: BrokerState, p: Processor, takesClosed: bool)
    requires p.told && !HasNoMore(p.feed) && p.feeder != ReportingNoMore && p.feeder != Refetching
    requires !q.probablyMore && FeederEnabled(q, p, takesClosed)
    ensures var p' := FeederP(q, p, takesClosed);
            p'.told && !HasNoMore(p'.feed) && p'.feeder != ReportingNoMore && p'.feeder != Refetching
    ensures FeederQ(q, p, takesClosed).ledgerHasMoreRequests == q.ledgerHasMoreRequests
    ensures !FeederQ(q, p, takesClosed).probablyMore
  {
    FeedShrinks(p.feed);
  }

  lemma SettledStays(s: Sys, step: Step)
    requires Lifecycle(s) && Enabled(s, step) && !s.q.closed && step != Pulse && !Notifies(step) && Settled(s)
    ensures Settled(Apply(s, step))
  {
    hide FeederP, FeederQ, FeederH, FeederEnabled, ReaderP, ReaderQ, ReaderH, ReaderRegistry, StarterNext,
         StarterEnabled, Owned, ReaderEnabled, StandardReaders, HasNoMore, NewProcessor;
    match step
    case FeederStep(i, takesClosed) => SettledFeeder(s.q, s.processors[i], takesClosed);
    case ReaderStep(i, r, built) => ReaderFrame(s.q, s.registry, s.processors[i], r, s.h, built);
    case _ =>
  }

  lemma ReportSettles(s: Sys, step: Step)
    requires Lifecycle(s) && Counters(s) && ReportsQuietly(s, step) && !s.q.closed && Fresh(s.processors[step.p])
    ensures Settled(Apply(s, step))
  {
  }

  // After a first report that was quiet, with nothing found before it, the broker
  // believes the ledger empty until the next notification.
  lemma {:induction false} NothingIsRemembered(states: seq<Sys>, steps: seq<Step>, i: nat, k: nat)
    requires IsRun(states, steps) && i < k < |states| && i < |steps| && !states[k].q.closed
    requires ReportsQuietly(states[i], steps[i]) && NothingFoundBefore(states, steps, i)
    requires forall a :: i < a < k ==> !Notifies(steps[a])
    ensures Settled(states[k])
    decreases k
  {
    hide Apply, Enabled, Init, NothingFoundBefore, Notifies, Fresh, Lifecycle, Settled, Counters, Once, Owns,
         Accounted, Announced, Notices, Disciplined, Complete;
    var m := k - 1;
    assert Enabled(states[m], steps[m]);
    PendingNeverFalls(states, steps, m, k);
    BrokerRuns.Reachable(states, steps, m);
    if m == i {
      FreshMeansNothingFound(states, steps, i);
      CountersHold(states, steps, i);
      ReportSettles(states[i], steps[i]);
    } else {
      NothingIsRemembered(states, steps, i, m);
      PendingMovesUp(states[m], steps[m]);
      SettledStays(states[m], steps[m]);
    }
  }

  // So if the broker has not started anything either, its pulse sends nothing.
  lemma NothingIsPassedOn(states: seq<Sys>, steps: seq<Step>, i: nat, k: nat, ref: Reference)
    requires IsRun(states, steps) && i < k < |steps| && steps[k] == Pulse && !states[k].shared
    requires ReportsQuietly(states[i], steps[i]) && NothingFoundBefore(states, steps, i)
    requires forall a :: i < a < k ==> !Notifies(steps[a])
    requires states[k].h.passed == []
    ensures PulseMessages(ref, states[k].q, states[k].registry) == []
  {
    hide Apply, Init, Enabled, NothingFoundBefore, ReportsQuietly, Notifies, Count, Announced, Notices, Disciplined,
         Complete;
    assert Enabled(states[k], steps[k]);
    PulseFindsOpen(states[k]);
    NothingIsRemembered(states, steps, i, k);
    BrokerRuns.Reachable(states, steps, k);
    if states[k].q.finished != [] || states[k].registry != map[] { SomethingStarted(states[k]); }
  }

  lemma SomethingStarted(s: Sys)
    requires Lifecycle(s) && Owns(s) && Accounted(s) && !s.shared && !s.q.closed
    requires s.q.finished != [] || s.registry != map[]
    ensures s.h.passed != []
  {
    hide ReaderCount, Lifecycle;
    if s.q.finished != [] {
      var ref := s.q.finished[|s.q.finished| - 1].requestRef;
      assert AccountedFor(s, ref);
    } else {
      var ref :| ref in s.registry;
      assert AccountedFor(s, ref) && OwnsFor(s, ref);
    }
  }
}
