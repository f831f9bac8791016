// The theorems about one broker: every interleaving of its handlers, its pulse,
// its feeder and its 31 readers, told in terms of the steps of a run.
module BrokerRuns {
  import opened Collections
  import opened References
  import opened ExecutionRegistries
  import opened Broker
  import opened BrokerSystem
  import opened BrokerLifecycle
  import opened AtMostOnce
  import opened PendingFinished
  import opened NothingDropped
  import opened Notifications
  import opened Ordering

  ghost predicate Invariant(s: Sys) {
    Lifecycle(s) && Once(s) && Owns(s) && Accounted(s) && Announced(s) && Notices(s) && Disciplined(s) && Complete(s)
  }

  lemma InvariantPreserved(s: Sys, step: Step)
    requires Invariant(s) && Enabled(s, step)
    ensures Invariant(Apply(s, step))
  {
    hide Apply, Enabled, Lifecycle, Once, Owns, Accounted, Announced, Notices, Disciplined, Complete;
    LifecyclePreserved(s, step);
    OncePreserved(s, step);
    OwnsPreserved(s, step);
    AccountedPreserved(s, step);
    AnnouncedPreserved(s, step);
    NoticesPreserved(s, step);
    DisciplinePreserved(s, step);
    CompletePreserved(s, step);
  }

  lemma {:induction false} Reachable(states: seq<Sys>, steps: seq<Step>, i: nat)
    requires IsRun(states, steps) && i < |states|
    ensures Invariant(states[i])
  {
    hide Apply, Enabled, Invariant, Init;
    if i == 0 {
      StartHolds(states[0]);
    } else {
      Reachable(states, steps, i - 1);
      assert Enabled(states[i - 1], steps[i - 1]);
      InvariantPreserved(states[i - 1], steps[i - 1]);
    }
  }

  lemma StartHolds(s: Sys)
    requires Init(s)
    ensures Invariant(s)
  {
    hide Lifecycle, Once, Owns, Accounted, Notices, Disciplined, Complete;
    LifecycleInit(s);
    OnceInit(s);
    OwnsInit(s);
    AccountedInit(s);
    NoticesInit(s);
    DisciplineInit(s);
    CompleteInit(s);
  }

  // ----- At most once

  // The step is a canProcessTranscript that lets the request through.
  predicate LetsThrough(s: Sys, step: Step, ref: Reference) {
    step.ReaderStep? && Enabled(s, step)
    && (var pc := s.processors[step.p].readers[step.r].pc;
        Passes(s.q, s.registry, pc) && pc.transcript.requestRef == ref)
  }

  // The transcript a step lets through, if any, and the one it takes from the fetcher.
  function LetBy(s: Sys, step: Step): seq<Transcript> {
    if !(step.ReaderStep? && Enabled(s, step)) then []
    else
      var pc := s.processors[step.p].readers[step.r].pc;
      if Passes(s.q, s.registry, pc) then [pc.transcript] else []
  }

  function DeliveredBy(s: Sys, step: Step): seq<Transcript> {
    if step.FeederStep? && Enabled(s, step) && Receives(s.processors[step.p], step.takesClosed)
    then [s.processors[step.p].feed[0].transcript]
    else []
  }

  // The records are what the steps did, in order.
  lemma RecordsGrow(s: Sys, step: Step)
    requires Enabled(s, step)
    ensures Apply(s, step).h.passed == s.h.passed + LetBy(s, step)
    ensures Apply(s, step).h.delivered == s.h.delivered + DeliveredBy(s, step)
  {
    hide FeederP, FeederQ, ReaderP, ReaderQ, ReaderRegistry, StarterNext, StarterQ, Owned, FeederEnabled,
         ReaderEnabled, StarterEnabled, HandlerApply, MayProcess, NewProcessor, MayStart;
    match step
    case FeederStep(i, takesClosed) => FeederHistoryFrame(s.h, s.processors[i], takesClosed);
    case ReaderStep(i, r, built) => ReaderFrame(s.q, s.registry, s.processors[i], r, s.h, built);
    case StarterStep(_, _) =>
    case Emit(_, _) =>
    case CloseFeed(_) =>
    case OthersRegister(_) =>
    case OthersDone(_) =>
    case _ => HandlerKeeps(s, step);
  }

  lemma PassedGrows(s: Sys, step: Step, ref: Reference)
    requires Enabled(s, step)
    ensures Count(Apply(s, step).h.passed, ref) == Count(s.h.passed, ref) + One(LetsThrough(s, step, ref))
  {
    hide Apply, Enabled, Count, Passes;
    RecordsGrow(s, step);
    if LetBy(s, step) == [] {
      assert s.h.passed + [] == s.h.passed;
    } else {
      CountPush(s.h.passed, LetBy(s, step)[0], ref);
    }
  }

  lemma HandlerKeeps(s: Sys, step: Step)
    ensures HandlerApply(s, step).h.passed == s.h.passed
    ensures HandlerApply(s, step).h.delivered == s.h.delivered
    ensures HandlerApply(s, step).h.pendingFinishedSent == s.h.pendingFinishedSent
    ensures HandlerApply(s, step).h.buildFailed == s.h.buildFailed
  {
  }

  lemma {:induction false} PassedMonotone(states: seq<Sys>, steps: seq<Step>, i: nat, j: nat, ref: Reference)
    requires IsRun(states, steps) && i <= j < |states|
    ensures Count(states[i].h.passed, ref) <= Count(states[j].h.passed, ref)
    decreases j
  {
    hide Apply, Enabled, Init, Count, LetsThrough;
    if i == j {
    } else {
      PassedMonotone(states, steps, i, j - 1, ref);
      Reachable(states, steps, j - 1);
      assert Enabled(states[j - 1], steps[j - 1]);
      PassedGrows(states[j - 1], steps[j - 1], ref);
    }
  }

  // No request passes canProcessTranscript twice in one broker.
  lemma ExecutedAtMostOnce(states: seq<Sys>, steps: seq<Step>, i: nat, j: nat, ref: Reference)
    requires IsRun(states, steps) && i < j < |steps|
    ensures !(LetsThrough(states[i], steps[i], ref) && LetsThrough(states[j], steps[j], ref))
  {
    hide Apply, Enabled, Init, Count, LetsThrough, Lifecycle;
    Reachable(states, steps, i);
    Reachable(states, steps, j);
    Reachable(states, steps, j + 1);
    PassedGrows(states[i], steps[i], ref);
    PassedMonotone(states, steps, i + 1, j, ref);
    PassedGrows(states[j], steps[j], ref);
    assert OnceFor(states[j + 1], ref);
  }

  // ----- Nothing dropped

  // Until the pulse, a reader that checks a request lets it through exactly if
  // nothing has registered it; with a registry of the broker's own it always does,
  // whatever else executes.
  lemma CheckedIsLetThrough(states: seq<Sys>, steps: seq<Step>, i: nat)
    requires IsRun(states, steps) && i < |steps| && steps[i].ReaderStep? && !states[i].q.closed
    ensures |states[i].processors| == 1 && steps[i].p == 0 && steps[i].r < |states[i].processors[0].readers|
    ensures var pc := states[i].processors[0].readers[steps[i].r].pc;
            pc.Taken? ==>
              var known := pc.transcript.requestRef in states[i].registry;
              LetBy(states[i], steps[i]) == (if known then [] else [pc.transcript])
              && (!states[i].shared ==> LetBy(states[i], steps[i]) == [pc.transcript])
  {
    hide Apply, Init, ReaderEnabled, Once, Owns, Accounted, Announced, Notices, Disciplined, Complete;
    Reachable(states, steps, i);
    assert Enabled(states[i], steps[i]);
    if states[i].processors[0].readers[steps[i].r].pc.Taken? && !states[i].shared {
      TakenIsUnregistered(states[i], steps[i].r);
    }
  }

  // The feeder is about to enter the request in its table.
  predicate IsNew(s: Sys, ref: Reference) {
    s.processors != [] && s.processors[0].feeder.Upserting? && s.processors[0].feeder.hand.requestRef == ref
    && ref !in s.q.deduplicationTable
  }

  // Until the pulse of a broker with a registry of its own, every request that was
  // ever delivered is about to be entered, on its way to a reader, or has started:
  // in one of these places, once, however often it was delivered.
  lemma DeliveredIsNotDropped(states: seq<Sys>, steps: seq<Step>, n: nat, a: nat, t: Transcript)
    requires IsRun(states, steps) && a < n < |states| && !states[n].q.closed && !states[n].shared
    requires DeliveredBy(states[a], steps[a]) == [t]
    ensures InFlight(states[n], t.requestRef) + One(IsNew(states[n], t.requestRef)) == 1
  {
    hide Apply, Enabled, Init, InFlight, DeliveredBy, Once, Owns, Accounted, Announced, Notices, InOrder, Position;
    Reachable(states, steps, n);
    assert Enabled(states[a], steps[a]);
    RecordsGrow(states[a], steps[a]);
    RecordsArePrefixes(states, steps, a + 1, n);
    var s, ref := states[n], t.requestRef;
    assert s.h.delivered[|states[a].h.delivered|] == t;
    assert Position(s.h.delivered, ref) < |s.h.delivered|;
    assert CompleteFor(s, ref);
    if s.processors != [] { assert Known(s.q, s.processors[0].feeder, ref); }
  }

  // ----- The pending state over a run

  lemma {:induction false} PendingNeverFalls(states: seq<Sys>, steps: seq<Step>, i: nat, j: nat)
    requires IsRun(states, steps) && i <= j < |states|
    ensures !states[j].q.closed ==> !states[i].q.closed && Rank(states[i].q.pending) <= Rank(states[j].q.pending)
    ensures |states[i].processors| <= |states[j].processors| <= 1
    decreases j
  {
    hide Apply, Enabled, Init;
    Reachable(states, steps, j);
    if i == j {
    } else {
      PendingNeverFalls(states, steps, i, j - 1);
      Reachable(states, steps, j - 1);
      assert Enabled(states[j - 1], steps[j - 1]);
      PendingMovesUp(states[j - 1], steps[j - 1]);
    }
  }

  // A processor starts once in a run at most, and in NotPending.
  lemma StartsInNotPending(states: seq<Sys>, steps: seq<Step>, i: nat)
    requires IsRun(states, steps) && i < |steps| && |states[i].processors| != |states[i + 1].processors|
    ensures states[i].processors == [] && |states[i + 1].processors| == 1
    ensures states[i].q.pending == NotPending && !states[i].q.closed
    ensures var readers := states[i + 1].processors[0].readers;
            |readers| == 31 && forall r :: 0 <= r < 31 ==> (readers[r].immutable <==> r < 30)
  {
    hide Apply, Enabled, Init;
    Reachable(states, steps, i);
    Reachable(states, steps, i + 1);
    assert Enabled(states[i], steps[i]);
    PendingMovesUp(states[i], steps[i]);
  }

  // The pulse of a broker that finished something and runs nothing releases the object.
  lemma ActivityReleases(states: seq<Sys>, steps: seq<Step>, i: nat, ref: Reference)
    requires IsRun(states, steps) && i < |steps| && steps[i] == Pulse
    requires states[i].q.finished != [] && states[i].registry == map[]
    ensures PulseMessages(ref, states[i].q, states[i].registry)
         == [ExecutorResults(ref, NotPending, states[i].q.ledgerHasMoreRequests != LedgerIsEmpty)]
  {
    hide Apply, Init;
    Reachable(states, steps, i);
    assert Enabled(states[i], steps[i]);
  }

  // So does the pulse of a broker that ever let a request through, once nothing
  // of it executes any more.
  lemma PastExecutionReleases(states: seq<Sys>, steps: seq<Step>, a: nat, i: nat, request: Reference, ref: Reference)
    requires IsRun(states, steps) && a < i < |steps| && steps[i] == Pulse
    requires LetsThrough(states[a], steps[a], request) && states[i].registry == map[]
    ensures PulseMessages(ref, states[i].q, states[i].registry)
         == [ExecutorResults(ref, NotPending, states[i].q.ledgerHasMoreRequests != LedgerIsEmpty)]
  {
    hide Apply, Enabled, Init, Lifecycle, Count, LetsThrough, PulseMessages;
    Reachable(states, steps, a);
    Reachable(states, steps, i);
    assert Enabled(states[a], steps[a]) && Enabled(states[i], steps[i]);
    PulseFindsOpen(states[i]);
    PassedGrows(states[a], steps[a], request);
    PassedMonotone(states, steps, a + 1, i, request);
    assert AccountedFor(states[i], request) && OwnsFor(states[i], request);
    NoneCounted(request);
    ActivityReleases(states, steps, i, ref);
  }

  lemma PulseFindsOpen(s: Sys)
    requires Enabled(s, Pulse)
    ensures !s.q.closed
  {
  }

  lemma NoneCounted(ref: Reference)
    ensures Count([], ref) == 0
  {
  }

  // The step makes a broker NotPending: the ledger says nothing is pending, the
  // previous executor says so, or has finished, or the caller decides.
  predicate Releases(s: Sys, step: Step) {
    match step
    case SetNotPending => true
    case PendingResult(prev) =>
      prev == NotPending && (s.q.pending == PendingUnknown || (s.q.pending == InPending && s.registry == map[]))
    case PendingFinishedMessage => s.registry == map[]
    case StarterStep(i, _) => i < |s.starters| && s.starters[i] == Answered(false) && s.q.pending == PendingUnknown
    case _ => false
  }

  // The step tells a broker anything about who executes the object.
  predicate Informs(s: Sys, step: Step) {
    match step
    case SetNotPending => true
    case AbandonedRequests => true
    case StillExecutingMessage => true
    case PendingResult(prev) => prev != PendingUnknown
    case PendingFinishedMessage => s.registry == map[]
    case StarterStep(i, _) => i < |s.starters| && s.starters[i].Answered?
    case _ => false
  }

  lemma PendingChanges(s: Sys, step: Step)
    requires Enabled(s, step) && !Apply(s, step).q.closed
    ensures Apply(s, step).q.pending == NotPending <==> s.q.pending == NotPending || Releases(s, step)
    ensures Apply(s, step).q.pending == PendingUnknown <==> s.q.pending == PendingUnknown && !Informs(s, step)
  {
    hide FeederQ, FeederP, FeederH, ReaderQ, ReaderP, ReaderH, ReaderRegistry, StarterNext, NewProcessor, Owned,
         FeederEnabled, ReaderEnabled;
    match step
    case FeederStep(i, takesClosed) => FeederFrame(s.q, s.processors[i], takesClosed);
    case ReaderStep(i, r, built) => ReaderFrame(s.q, s.registry, s.processors[i], r, s.h, built);
    case _ =>
  }

  // Before its pulse ends a broker is NotPending exactly if some step released
  // it, and knows nothing exactly if no step informed it.
  lemma {:induction false} WhyPending(states: seq<Sys>, steps: seq<Step>, n: nat)
    requires IsRun(states, steps) && n < |states| && !states[n].q.closed
    ensures states[n].q.pending == NotPending <==> exists a :: 0 <= a < n && Releases(states[a], steps[a])
    ensures states[n].q.pending == PendingUnknown <==> forall a :: 0 <= a < n ==> !Informs(states[a], steps[a])
  {
    hide Apply, Enabled, Releases, Informs;
    if n == 0 {
    } else {
      PendingNeverFalls(states, steps, n - 1, n);
      WhyPending(states, steps, n - 1);
      assert Enabled(states[n - 1], steps[n - 1]);
      PendingChanges(states[n - 1], steps[n - 1]);
    }
  }

  // ----- Executions

  lemma ExecutionDiscipline(states: seq<Sys>, steps: seq<Step>, i: nat)
    requires IsRun(states, steps) && i < |states| && states[i].processors != []
    ensures |Running(states[i].processors[0].readers, false)| <= 1
    ensures |Running(states[i].processors[0].readers, true)| <= 30
  {
    hide Apply, Enabled, Init, Lifecycle, Running, InOrder;
    Reachable(states, steps, i);
    AtMostThirtyOne(states[i]);
  }

  // The step is the first that takes this request from the fetcher, as this transcript.
  predicate DeliversFirst(states: seq<Sys>, steps: seq<Step>, x: nat, t: Transcript) {
    && x < |steps| <= |states|
    && DeliveredBy(states[x], steps[x]) == [t]
    && forall k :: 0 <= k < x && DeliveredBy(states[k], steps[k]) != [] ==>
         DeliveredBy(states[k], steps[k])[0].requestRef != t.requestRef
  }

  lemma {:induction false} RecordsArePrefixes(states: seq<Sys>, steps: seq<Step>, i: nat, j: nat)
    requires IsRun(states, steps) && i <= j < |states|
    ensures states[i].h.passed <= states[j].h.passed && states[i].h.delivered <= states[j].h.delivered
    decreases j
  {
    hide Apply, Enabled, Init, LetBy, DeliveredBy;
    if i == j {
    } else {
      RecordsArePrefixes(states, steps, i, j - 1);
      assert Enabled(states[j - 1], steps[j - 1]);
      RecordsGrow(states[j - 1], steps[j - 1]);
    }
  }

  // Every delivery was a step.
  lemma {:induction false} DeliveryHasStep(states: seq<Sys>, steps: seq<Step>, j: nat, k: nat) returns (x: nat)
    requires IsRun(states, steps) && j < |states| && k < |states[j].h.delivered|
    ensures x < j && |states[x].h.delivered| == k && DeliveredBy(states[x], steps[x]) == [states[j].h.delivered[k]]
    decreases j
  {
    hide Apply, Enabled, DeliveredBy;
    var i := j - 1;
    assert Enabled(states[i], steps[i]);
    RecordsGrow(states[i], steps[i]);
    OneDeliveryAtATime(states[i], steps[i]);
    if k < |states[i].h.delivered| {
      x := DeliveryHasStep(states, steps, i, k);
    } else {
      x := i;
    }
  }

  lemma OneDeliveryAtATime(s: Sys, step: Step)
    ensures |DeliveredBy(s, step)| <= 1
    ensures step.ReaderStep? ==> DeliveredBy(s, step) == []
  {
    hide Enabled;
  }

  // The first delivery of a request in the record was the first such step.
  lemma FirstDeliveryHasStep(states: seq<Sys>, steps: seq<Step>, j: nat, t: Transcript) returns (x: nat)
    requires IsRun(states, steps) && j < |states| && IsFirst(t, states[j].h.delivered)
    ensures x < j && |states[x].h.delivered| == Position(states[j].h.delivered, t.requestRef)
    ensures DeliversFirst(states, steps, x, t)
  {
    hide Apply, Enabled, Init, DeliveredBy, Position;
    var d := states[j].h.delivered;
    x := DeliveryHasStep(states, steps, j, Position(d, t.requestRef));
    forall k | 0 <= k < x && DeliveredBy(states[k], steps[k]) != []
      ensures DeliveredBy(states[k], steps[k])[0].requestRef != t.requestRef
    {
      assert Enabled(states[k], steps[k]);
      RecordsGrow(states[k], steps[k]);
      RecordsArePrefixes(states, steps, k + 1, x);
      RecordsArePrefixes(states, steps, x, j);
      assert d[|states[k].h.delivered|] == DeliveredBy(states[k], steps[k])[0];
    }
  }

  // Mutable requests start in the order of their first delivery: if a passes
  // before b does, then the step that first took a from the fetcher came before
  // the one that first took b, however often either is delivered again.
  lemma StartsInDeliveryOrder(states: seq<Sys>, steps: seq<Step>, i: nat, j: nat, a: Transcript, b: Transcript)
    returns (x: nat, y: nat)
    requires IsRun(states, steps) && i < j < |steps| && !a.immutable && !b.immutable
    requires LetBy(states[i], steps[i]) == [a] && LetBy(states[j], steps[j]) == [b]
    ensures x < y < j && DeliversFirst(states, steps, x, a) && DeliversFirst(states, steps, y, b)
  {
    hide Apply, Enabled, Init, LetBy, Position, Lifecycle, Once, DeliveredBy, DeliversFirst;
    Reachable(states, steps, j + 1);
    assert Enabled(states[i], steps[i]) && Enabled(states[j], steps[j]);
    RecordsGrow(states[i], steps[i]);
    RecordsGrow(states[j], steps[j]);
    RecordsArePrefixes(states, steps, i + 1, j);
    var passed, d := states[j + 1].h.passed, states[j + 1].h.delivered;
    var u, v := |states[i].h.passed|, |states[j].h.passed|;
    assert u < v < |passed| && passed[u] == a && passed[v] == b;
    assert IsFirst(passed[u], d) && IsFirst(passed[v], d) && Before(passed[u], passed[v], d);
    x := FirstDeliveryHasStep(states, steps, j + 1, a);
    y := FirstDeliveryHasStep(states, steps, j + 1, b);
    if y <= x { RecordsArePrefixes(states, steps, y, x); }
    if y == j { NoDeliveryWhileLetting(states, steps, j, b); }
  }

  lemma NoDeliveryWhileLetting(states: seq<Sys>, steps: seq<Step>, j: nat, t: Transcript)
    requires j < |steps| <= |states| && LetBy(states[j], steps[j]) != []
    ensures !DeliversFirst(states, steps, j, t)
  {
    hide Enabled;
  }

  // What a reader executes is registered until it is done, so Done never fails.
  lemma DoneNeverFails(states: seq<Sys>, steps: seq<Step>, i: nat)
    requires IsRun(states, steps) && i < |steps| && steps[i].ReaderStep?
    ensures steps[i].p == 0 && |states[i].processors| == 1 && steps[i].r < |states[i].processors[0].readers|
    ensures var pc := states[i].processors[0].readers[steps[i].r].pc;
            pc.Executing? ==> pc.transcript.requestRef in states[i].registry
  {
    hide Apply, Init, ReaderEnabled;
    Reachable(states, steps, i);
    assert Enabled(states[i], steps[i]);
    if states[i].processors[0].readers[steps[i].r].pc.Executing? {
      ExecutingIsRegistered(states[i], steps[i].r);
    }
  }

  // ----- PendingFinished

  // The step is a finishPendingIfNeeded that gets as far as building the message.
  predicate Announces(s: Sys, step: Step) {
    step.ReaderStep? && Enabled(s, step)
    && s.processors[step.p].readers[step.r].pc.Finishing? && PendingIsFinished(s.q, s.registry)
  }

  lemma AnnouncesOnlyAfterPulse(states: seq<Sys>, steps: seq<Step>, i: nat)
    requires IsRun(states, steps) && i < |steps| && Announces(states[i], steps[i])
    ensures states[i].q.closed && states[i].registry == map[]
  {
    hide Apply, Init;
    Reachable(states, steps, i);
  }

  lemma SentByAStep(s: Sys, step: Step)
    requires Enabled(s, step)
    ensures var h := Apply(s, step).h;
            if Announces(s, step) then
              h.pendingFinishedSent == s.h.pendingFinishedSent + One(step.built)
              && (h.buildFailed <==> s.h.buildFailed || !step.built)
            else h.pendingFinishedSent == s.h.pendingFinishedSent && h.buildFailed == s.h.buildFailed
  {
    hide FeederP, FeederQ, FeederH, ReaderP, ReaderQ, ReaderRegistry, StarterNext, StarterQ, Owned, FeederEnabled,
         ReaderEnabled, HandlerApply, MayProcess, NewProcessor;
    match step
    case FeederStep(i, takesClosed) => FeederHistoryFrame(s.h, s.processors[i], takesClosed);
    case ReaderStep(i, r, _) =>
    case StarterStep(_, _) =>
    case Emit(_, _) =>
    case CloseFeed(_) =>
    case OthersRegister(_) =>
    case OthersDone(_) =>
    case _ => HandlerKeeps(s, step);
  }

  lemma {:induction false} SomeStepAnnounced(states: seq<Sys>, steps: seq<Step>, j: nat) returns (b: nat)
    requires IsRun(states, steps) && j < |states|
    requires states[j].h.pendingFinishedSent > 0 || states[j].h.buildFailed
    ensures b < j && Announces(states[b], steps[b])
  {
    hide Apply, Enabled, Announces;
    var i := j - 1;
    assert Enabled(states[i], steps[i]);
    SentByAStep(states[i], steps[i]);
    if Announces(states[i], steps[i]) { b := i; } else { b := SomeStepAnnounced(states, steps, i); }
  }

  lemma {:induction false} ClosedFrom(states: seq<Sys>, steps: seq<Step>, i: nat, j: nat)
    requires IsRun(states, steps) && i < |steps| && steps[i] == Pulse && i < j < |states|
    ensures states[j].q.closed && states[j].shared == states[i].shared
    ensures states[j].h.activeAtPulse == IsActive(states[i].registry)
    ensures !states[i].q.closed
    decreases j
  {
    hide Init, StarterNext, FeederQ, FeederP, FeederH, ReaderQ, ReaderP, ReaderH, ReaderRegistry, Owned,
         FeederEnabled, ReaderEnabled, NewProcessor, Apply;
    assert Enabled(states[j - 1], steps[j - 1]);
    if j == i + 1 {
      assert Apply(states[i], Pulse) == HandlerApply(states[i], Pulse) by { ApplyPulse(states[i]); }
    } else {
      ClosedFrom(states, steps, i, j - 1);
      StaysClosed(states[j - 1], steps[j - 1]);
    }
  }

  lemma ApplyPulse(s: Sys)
    requires Enabled(s, Pulse)
    ensures Apply(s, Pulse) == HandlerApply(s, Pulse)
  {
  }

  lemma StaysClosed(s: Sys, step: Step)
    requires Enabled(s, step) && s.q.closed
    ensures var t := Apply(s, step); t.q.closed && t.h.activeAtPulse == s.h.activeAtPulse && t.shared == s.shared
  {
    hide StarterNext, FeederQ, FeederP, FeederH, ReaderQ, ReaderP, ReaderH, ReaderRegistry, Owned, FeederEnabled,
         ReaderEnabled, NewProcessor;
    match step
    case FeederStep(i, takesClosed) =>
      FeederFrame(s.q, s.processors[i], takesClosed);
      FeederHistoryFrame(s.h, s.processors[i], takesClosed);
    case ReaderStep(i, r, built) => ReaderFrame(s.q, s.registry, s.processors[i], r, s.h, built);
    case _ =>
  }

  // If the pulse found something executing in a registry that is the broker's
  // own, then once no reader is busy some reader has announced it: after the
  // pulse, and with nothing registered.
  lemma AnnouncedInTheEnd(states: seq<Sys>, steps: seq<Step>, i: nat, j: nat) returns (b: nat)
    requires IsRun(states, steps) && i < j < |states| && i < |steps|
    requires steps[i] == Pulse && IsActive(states[i].registry) && !states[i].shared
    requires states[j].processors == [] || !Busy(states[j].processors[0].readers)
    ensures i < b < j && Announces(states[b], steps[b]) && states[b].registry == map[]
  {
    hide Apply, Enabled, Init, Lifecycle, Busy, Announces;
    Reachable(states, steps, j);
    ClosedFrom(states, steps, i, j);
    b := SomeStepAnnounced(states, steps, j);
    AnnouncesOnlyAfterPulse(states, steps, b);
    if b <= i {
      PendingNeverFalls(states, steps, b, i);
    }
  }

  // ----- Notifications

  predicate Notifies(step: Step) {
    step == HasMoreRequests || step == AbandonedRequests
  }

  predicate StartsRound(s: Sys, step: Step) {
    Enabled(s, step)
    && ((step.StarterStep? && Starts(s.q, s.starters[step.i]))
        || (step.FeederStep? && s.processors[step.p].feeder == Refetching))
  }

  predicate ReportsEmpty(step: Step) {
    step.Emit? && step.item == NoMore
  }

  function EventOf(s: Sys, step: Step): seq<Event> {
    if Notifies(step) then [Notified] else if StartsRound(s, step) then [RoundStarted]
    else if ReportsEmpty(step) then [ReportedEmpty] else []
  }

  lemma LogGrows(s: Sys, step: Step)
    requires Enabled(s, step)
    ensures Apply(s, step).h.log == s.h.log + EventOf(s, step)
  {
    hide FeederP, FeederQ, ReaderP, ReaderQ, ReaderRegistry, StarterNext, StarterQ, Owned, FeederEnabled,
         ReaderEnabled, StarterEnabled, NewProcessor, MayStart, IsActive;
    match step
    case ReaderStep(i, r, built) => ReaderFrame(s.q, s.registry, s.processors[i], r, s.h, built);
    case _ =>
  }

  lemma {:induction false} LogPrefix(states: seq<Sys>, steps: seq<Step>, i: nat, j: nat)
    requires IsRun(states, steps) && i <= j < |states|
    ensures states[i].h.log <= states[j].h.log
    decreases j
  {
    hide Apply, Enabled, Init, EventOf;
    if i == j {
    } else {
      LogPrefix(states, steps, i, j - 1);
      assert Enabled(states[j - 1], steps[j - 1]);
      LogGrows(states[j - 1], steps[j - 1]);
    }
  }

  // Every entry of the record was written by a step.
  lemma {:induction false} EntryHasStep(states: seq<Sys>, steps: seq<Step>, j: nat, k: nat) returns (b: nat)
    requires IsRun(states, steps) && j < |states| && k < |states[j].h.log|
    ensures b < j && |states[b].h.log| == k && EventOf(states[b], steps[b]) == [states[j].h.log[k]]
    decreases j
  {
    hide Apply, Enabled, Notifies, StartsRound, ReportsEmpty;
    var i := j - 1;
    assert Enabled(states[i], steps[i]);
    LogGrows(states[i], steps[i]);
    if k < |states[i].h.log| { b := EntryHasStep(states, steps, i, k); } else { b := i; }
  }

  // If the pulse finds the flag saying that the ledger is empty, every earlier
  // notification was followed by the start of a round, and later by its report.
  lemma NoNotificationLost(states: seq<Sys>, steps: seq<Step>, i: nat, a: nat) returns (b: nat, c: nat)
    requires IsRun(states, steps) && a < i < |steps| && steps[i] == Pulse && Notifies(steps[a])
    requires states[i].q.ledgerHasMoreRequests == LedgerIsEmpty
    ensures a < b < c < i && StartsRound(states[b], steps[b]) && ReportsEmpty(steps[c])
  {
    hide Apply, Enabled, Init, Lifecycle, Notifies, StartsRound, ReportsEmpty, Refetches, ReportPending, Quiet,
         Reported;
    Reachable(states, steps, i);
    var log := states[i].h.log;
    var x := |states[a].h.log|;
    assert Enabled(states[a], steps[a]);
    LogGrows(states[a], steps[a]);
    LogPrefix(states, steps, a + 1, i);
    assert log[x] == Notified && Notifications.Answered(log, x);
    var y, z :| x < y < z < |log| && log[y] == RoundStarted && log[z] == ReportedEmpty;
    b := EntryHasStep(states, steps, i, y);
    c := EntryHasStep(states, steps, i, z);
    if b < a { LogPrefix(states, steps, b, a); }
    if c < b { LogPrefix(states, steps, c, b); }
  }

  // And otherwise the pulse sends exactly one report, which says there is more.
  lemma OtherwisePassedOn(q: BrokerState, registry: Registry, ref: Reference)
    requires q.ledgerHasMoreRequests != LedgerIsEmpty
    ensures var messages := PulseMessages(ref, q, registry); |messages| == 1 && messages[0].ledgerHasMoreRequests
  {
  }

  // For each notification before a pulse: a later-started round has reported "no
  // more", or the pulse sends one report, and it says that there is more.
  lemma AnsweredOrPassedOn(states: seq<Sys>, steps: seq<Step>, i: nat, a: nat, ref: Reference)
    requires IsRun(states, steps) && a < i < |steps| && steps[i] == Pulse && Notifies(steps[a])
    ensures var messages := PulseMessages(ref, states[i].q, states[i].registry);
            (exists b, c :: a < b < c < i && StartsRound(states[b], steps[b]) && ReportsEmpty(steps[c]))
            || (|messages| == 1 && messages[0].ledgerHasMoreRequests)
  {
    hide Apply, Enabled, Init, Notifies, StartsRound, ReportsEmpty, PulseMessages;
    if states[i].q.ledgerHasMoreRequests == LedgerIsEmpty {
      var b, c := NoNotificationLost(states, steps, i, a);
    } else {
      OtherwisePassedOn(states[i].q, states[i].registry, ref);
    }
  }
}
