// No lost notification: if the ledger flag says "empty", every notification was
// followed by a later-started fetch round that found the ledger empty.
module Notifications {
  import opened Collections
  import opened Broker
  import opened BrokerSystem
  import opened BrokerLifecycle

  // The notification at index i is answered: a round started after it, and
  // reported "no more pendings" after that.
  predicate Answered(log: seq<Event>, i: nat) {
    exists j, k :: i < j < k < |log| && log[j] == RoundStarted && log[k] == ReportedEmpty
  }

  predicate AllAnswered(log: seq<Event>) {
    forall i :: 0 <= i < |log| && log[i] == Notified ==> Answered(log, i)
  }

  // No notification since the last round started.
  predicate Quiet(log: seq<Event>) {
    log == [] || (var last := |log| - 1; log[last] == RoundStarted || (log[last] != Notified && Quiet(log[..last])))
  }

  // The last round has reported "no more pendings".
  predicate Reported(log: seq<Event>) {
    && log != []
    && (var last := |log| - 1;
        log[last] == ReportedEmpty || (log[last] != RoundStarted && Reported(log[..last])))
  }

  lemma {:induction false} QuietRound(log: seq<Event>) returns (j: nat)
    requires Quiet(log) && exists i :: 0 <= i < |log| && log[i] == Notified
    ensures j < |log| && log[j] == RoundStarted && forall i :: j <= i < |log| ==> log[i] != Notified
  {
    var last := |log| - 1;
    if log[last] == RoundStarted {
      j := last;
    } else {
      var i :| 0 <= i < |log| && log[i] == Notified;
      assert log[..last][i] == Notified;
      j := QuietRound(log[..last]);
      assert forall i :: j <= i < last ==> log[..last][i] == log[i];
    }
  }

  lemma {:induction false} ReportedRound(log: seq<Event>, j: nat) returns (k: nat)
    requires Reported(log) && j < |log| && log[j] == RoundStarted
    ensures j < k < |log| && log[k] == ReportedEmpty
  {
    var last := |log| - 1;
    if log[last] == ReportedEmpty {
      k := last;
    } else {
      assert log[..last][j] == RoundStarted;
      k := ReportedRound(log[..last], j);
    }
  }

  // A quiet log whose last round has reported leaves nothing unanswered.
  lemma QuietAndReported(log: seq<Event>)
    requires Quiet(log) && Reported(log)
    ensures AllAnswered(log)
  {
    forall i | 0 <= i < |log| && log[i] == Notified ensures Answered(log, i) {
      var j := QuietRound(log);
      var k := ReportedRound(log, j);
    }
  }

  lemma Push(log: seq<Event>, e: Event)
    ensures e != Notified && AllAnswered(log) ==> AllAnswered(log + [e])
    ensures Quiet(log + [e]) <==> e == RoundStarted || (e != Notified && Quiet(log))
    ensures Reported(log + [e]) <==> e == ReportedEmpty || (e != RoundStarted && Reported(log))
  {
    assert (log + [e])[..|log|] == log;
    if e != Notified && AllAnswered(log) {
      forall i | 0 <= i < |log + [e]| && (log + [e])[i] == Notified ensures Answered(log + [e], i) {
        assert log[i] == Notified && Answered(log, i);
        var j, k :| i < j < k < |log| && log[j] == RoundStarted && log[k] == ReportedEmpty;
        assert (log + [e])[j] == RoundStarted && (log + [e])[k] == ReportedEmpty;
      }
    }
  }

  predicate Refetches(s: Sys) {
    s.processors != [] && s.processors[0].feeder == Refetching
  }

  predicate HasNoMore(feed: seq<Item>) {
    exists i :: 0 <= i < |feed| && feed[i] == NoMore
  }

  predicate ReportPending(p: Processor) {
    p.feeder == ReportingNoMore || HasNoMore(p.feed)
  }

  predicate Notices(s: Sys) {
    && (!s.q.probablyMore && !Refetches(s) ==> Quiet(s.h.log))
    && (s.processors != [] && ReportPending(s.processors[0]) ==> Reported(s.h.log))
    && (s.q.ledgerHasMoreRequests == LedgerIsEmpty ==> AllAnswered(s.h.log))
  }

  lemma NoticesInit(s: Sys)
    requires Init(s)
    ensures Notices(s)
  {
  }

  lemma NoticesHandler(s: Sys, step: Step)
    requires Notices(s) && !s.q.closed
    ensures Notices(HandlerApply(s, step))
  {
    hide Quiet, Reported, AllAnswered, ReportPending;
    Push(s.h.log, Notified);
  }

  lemma NoticesStarter(s: Sys, i: nat, answer: LedgerAnswer)
    requires Lifecycle(s) && Notices(s) && i < |s.starters|
    ensures Notices(StarterApply(s, i, answer))
  {
    hide Quiet, Reported, AllAnswered, StarterNext, StandardReaders;
    Push(s.h.log, RoundStarted);
  }

  lemma FeederReports(q: BrokerState, p: Processor, takesClosed: bool)
    ensures ReportPending(FeederP(q, p, takesClosed)) ==> ReportPending(p) && p.feeder != Refetching
    ensures FeederP(q, p, takesClosed).feeder == Refetching <==> p.feeder == AwaitingNotice && !takesClosed
  {
    hide HasNoMore;
    FeedShrinks(p.feed);
  }

  lemma NoticesFeeder(s: Sys, i: nat, takesClosed: bool)
    requires |s.processors| == 1 && i == 0 && Notices(s) && FeederEnabled(s.q, s.processors[0], takesClosed)
    ensures Notices(FeederApply(s, i, takesClosed))
  {
    hide Quiet, Reported, AllAnswered, HasNoMore, FeederP;
    var p := s.processors[0];
    Push(s.h.log, RoundStarted);
    FeederReports(s.q, p, takesClosed);
    if p.feeder == ReportingNoMore && !s.q.probablyMore {
      QuietAndReported(s.h.log);
    }
  }

  lemma FeedShrinks(feed: seq<Item>)
    ensures !HasNoMore([])
    ensures feed != [] && HasNoMore(feed[1..]) ==> HasNoMore(feed)
    ensures feed != [] && feed[0] == NoMore ==> HasNoMore(feed)
  {
  }

  lemma NoticesEmit(s: Sys, i: nat, item: Item)
    requires |s.processors| == 1 && i == 0 && Notices(s) && !s.processors[0].feedClosed
    requires Enabled(s, Emit(i, item))
    ensures Notices(Apply(s, Emit(i, item)))
  {
    hide Quiet, Reported, AllAnswered;
    Push(s.h.log, ReportedEmpty);
    if item.Deliver? {
      var feed := s.processors[0].feed;
      if HasNoMore(feed + [item]) {
        var k :| 0 <= k < |feed + [item]| && (feed + [item])[k] == NoMore;
        assert feed[k] == NoMore;
      }
    }
  }

  lemma NoticesReader(s: Sys, i: nat, r: nat, built: bool)
    requires |s.processors| == 1 && i == 0 && r < |s.processors[0].readers| && Notices(s)
    ensures Notices(ReaderApply(s, i, r, built))
  {
    hide Quiet, Reported, AllAnswered, ReaderQ, ReaderP, ReaderH, ReaderRegistry;
    ReaderFrame(s.q, s.registry, s.processors[0], r, s.h, built);
  }

  lemma NoticesPreserved(s: Sys, step: Step)
    requires Lifecycle(s) && Notices(s) && Enabled(s, step)
    ensures Notices(Apply(s, step))
  {
    hide StarterApply, FeederApply, ReaderApply, HandlerApply, StarterEnabled, FeederEnabled, ReaderEnabled, Owned,
         Quiet, Reported, AllAnswered, StandardReaders;
    match step
    case StarterStep(i, answer) => NoticesStarter(s, i, answer);
    case FeederStep(i, takesClosed) => NoticesFeeder(s, i, takesClosed);
    case ReaderStep(i, r, built) => NoticesReader(s, i, r, built);
    case Emit(i, item) => NoticesEmit(s, i, item);
    case CloseFeed(i) =>
    case OthersRegister(_) =>
    case OthersDone(_) =>
    case _ => NoticesHandler(s, step);
  }

  // ----- Every round has its cause

  // Rounds started, and rounds to come, are covered by notifications, with one
  // more for the start of the processor: a notification makes one more round at
  // most, and without one the feeder does not ask the ledger again.
  predicate Caused(s: Sys) {
    Occurrences(s.h.log, Event.RoundStarted) + One(s.q.probablyMore) + One(Refetches(s))
    <= Occurrences(s.h.log, Event.Notified) + |s.processors|
  }

  lemma LogPush(log: seq<Event>, e: Event)
    ensures Occurrences(log + [e], Event.RoundStarted) == Occurrences(log, Event.RoundStarted) + One(e == RoundStarted)
    ensures Occurrences(log + [e], Event.Notified) == Occurrences(log, Event.Notified) + One(e == Notified)
  {
    OccurrencesPush(log, e, Event.RoundStarted);
    OccurrencesPush(log, e, Event.Notified);
  }

  lemma CausedPreserved(s: Sys, step: Step)
    requires Lifecycle(s) && Caused(s) && Enabled(s, step)
    ensures Caused(Apply(s, step))
  {
    hide StarterApply, FeederApply, ReaderApply, HandlerApply, StarterEnabled, FeederEnabled, ReaderEnabled, Owned,
         Occurrences, StandardReaders;
    match step
    case StarterStep(i, answer) => CausedStarter(s, i, answer);
    case FeederStep(i, takesClosed) => CausedFeeder(s, i, takesClosed);
    case ReaderStep(i, r, built) => CausedReader(s, i, r, built);
    case Emit(_, _) => LogPush(s.h.log, ReportedEmpty);
    case CloseFeed(_) =>
    case OthersRegister(_) =>
    case OthersDone(_) =>
    case _ => CausedHandler(s, step);
  }

  lemma CausedStarter(s: Sys, i: nat, answer: LedgerAnswer)
    requires Lifecycle(s) && Caused(s) && i < |s.starters|
    ensures Caused(StarterApply(s, i, answer))
  {
    hide StarterNext, StandardReaders, Occurrences, NewReaders;
    LogPush(s.h.log, RoundStarted);
  }

  lemma CausedReader(s: Sys, i: nat, r: nat, built: bool)
    requires |s.processors| == 1 && i == 0 && r < |s.processors[0].readers| && Caused(s)
    ensures Caused(ReaderApply(s, i, r, built))
  {
    hide ReaderQ, ReaderP, ReaderH, ReaderRegistry, Occurrences;
    ReaderFrame(s.q, s.registry, s.processors[0], r, s.h, built);
  }

  lemma CausedFeeder(s: Sys, i: nat, takesClosed: bool)
    requires |s.processors| == 1 && i == 0 && Caused(s) && FeederEnabled(s.q, s.processors[0], takesClosed)
    ensures Caused(FeederApply(s, i, takesClosed))
  {
    hide Occurrences, FeederP;
    LogPush(s.h.log, RoundStarted);
    FeederReports(s.q, s.processors[0], takesClosed);
  }

  lemma CausedHandler(s: Sys, step: Step)
    requires Caused(s)
    ensures Caused(HandlerApply(s, step))
  {
    hide Occurrences;
    LogPush(s.h.log, Notified);
  }

  lemma {:induction false} RoundsAreCaused(states: seq<Sys>, steps: seq<Step>, n: nat)
    requires IsRun(states, steps) && n < |states|
    ensures Lifecycle(states[n]) && Caused(states[n])
  {
    hide Apply, Enabled, Caused, Lifecycle;
    if n == 0 {
      StartIsCaused(states[0]);
    } else {
      RoundsAreCaused(states, steps, n - 1);
      assert Enabled(states[n - 1], steps[n - 1]);
      LifecyclePreserved(states[n - 1], steps[n - 1]);
      CausedPreserved(states[n - 1], steps[n - 1]);
    }
  }

  lemma StartIsCaused(s: Sys)
    requires Init(s)
    ensures Lifecycle(s) && Caused(s)
  {
  }
}
