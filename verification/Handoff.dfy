// The pulse handoff: what one node's pulse reports about an object, and what the
// next node makes of it (logicrunner/handle_executorresults.go).
module Handoff {
  import opened References
  import opened ExecutionRegistries
  import opened Broker
  import opened StateStorages
  import opened BrokerSystem
  import opened BrokerLifecycle
  import opened AtMostOnce
  import opened PendingFinished
  import opened NothingDropped
  import opened Notifications
  import opened Ordering
  import opened BrokerRuns
  import opened StartCalls

  datatype WriteAccess = Granted | WriteClosed | Refused

  datatype Outcome = Done | Cancelled | Failed

  // Whether the references of a message make sense.
  predicate CheckPayloadExecutorResults(caller: Reference, recordRef: Reference) {
    (caller.IsEmpty() || caller.IsObjectReference()) && recordRef.IsObjectReference()
  }

  // The report of a pulse names no caller, and is accepted for every object.
  lemma ReportsAreAccepted(ref: Reference)
    requires ref.IsObjectReference()
    ensures CheckPayloadExecutorResults(Reference(EMPTY_LOCAL, EMPTY_LOCAL), ref)
  {
  }

  // A broker after the report of the previous executor.
  function Receive(q: BrokerState, registry: Registry, msg: ExecutorResults): BrokerState {
    var q' := PrevExecutorPendingResult(q, registry, msg.pending);
    if msg.ledgerHasMoreRequests then SetHasMoreRequests(q') else q'
  }

  // started says whether `go startProcessor` follows.
  method Present(storage: StateStorage, access: WriteAccess, caller: Reference, msg: ExecutorResults)
    returns (outcome: Outcome, started: bool)
    requires storage.Valid()
    modifies storage, storage.brokers.Values
    ensures storage.Valid()
    ensures var wellFormed := (caller.IsEmpty() || caller.IsObjectReference()) && msg.recordRef.IsObjectReference();
            outcome ==
              if !wellFormed || access == Refused then Failed else if access == WriteClosed then Cancelled else Done
    ensures outcome != Done ==>
              !started && unchanged(storage) && forall ref :: ref in storage.brokers ==> unchanged(storage.brokers[ref])
    ensures outcome == Done ==>
              var ref := msg.recordRef;
              && ref in storage.brokers && started == msg.ledgerHasMoreRequests
              && (if ref in old(storage.brokers) then
                    storage.brokers == old(storage.brokers)
                    && storage.brokers[ref].State()
                       == Receive(old(storage.brokers[ref].State()), storage.registries[ref].registry, msg)
                  else
                    fresh(storage.brokers[ref])
                    && storage.brokers[ref].State() == Receive(NEW_BROKER, storage.registries[ref].registry, msg))
              && forall other :: other in old(storage.brokers) && other != ref ==>
                  unchanged(old(storage.brokers)[other])
  {
    started := false;
    if !caller.IsEmpty() && !caller.IsObjectReference() {
      return Failed, false;
    }
    if !msg.recordRef.IsObjectReference() {
      return Failed, false;
    }
    outcome, started := HandleMessage(storage, access, msg);
  }

  method HandleMessage(storage: StateStorage, access: WriteAccess, msg: ExecutorResults)
    returns (outcome: Outcome, started: bool)
    requires storage.Valid()
    modifies storage, storage.brokers.Values
    ensures storage.Valid()
    ensures outcome == match access case Granted => Done case WriteClosed => Cancelled case Refused => Failed
    ensures outcome != Done ==>
              !started && unchanged(storage) && forall ref :: ref in storage.brokers ==> unchanged(storage.brokers[ref])
    ensures outcome == Done ==>
              var ref := msg.recordRef;
              && ref in storage.brokers && started == msg.ledgerHasMoreRequests
              && (if ref in old(storage.brokers) then
                    storage.brokers == old(storage.brokers)
                    && storage.brokers[ref].State()
                       == Receive(old(storage.brokers[ref].State()), storage.registries[ref].registry, msg)
                  else
                    fresh(storage.brokers[ref])
                    && storage.brokers[ref].State() == Receive(NEW_BROKER, storage.registries[ref].registry, msg))
              && forall other :: other in old(storage.brokers) && other != ref ==>
                  unchanged(old(storage.brokers)[other])
  {
    if access != Granted {
      return if access == WriteClosed then Cancelled else Failed, false;
    }
    var broker := storage.UpsertExecutionState(msg.recordRef);
    broker.PrevExecutorPendingResult(msg.pending);
    started := false;
    if msg.ledgerHasMoreRequests {
      broker.HasMoreRequests();
      started := true;
    }
    outcome := Done;
  }

  // ----- What a report of NotPending means

  // A StillExecuting message was accepted before step i.
  predicate StillExecutingAccepted(states: seq<Sys>, steps: seq<Step>, i: nat)
    requires i <= |steps| <= |states|
  {
    exists a :: 0 <= a < i && steps[a] == StillExecutingMessage && states[a].q.pending != NotPending
  }

  lemma AcceptsAt(s: Sys, step: Step)
    requires Enabled(s, step)
    ensures Apply(s, step).h.stillExecutingAccepted <==>
              s.h.stillExecutingAccepted || (step == StillExecutingMessage && s.q.pending != NotPending)
  {
    hide FeederP, FeederQ, FeederH, ReaderP, ReaderQ, ReaderH, ReaderRegistry, StarterNext, StarterQ, Owned,
         FeederEnabled, ReaderEnabled, NewProcessor;
    match step
    case FeederStep(i, takesClosed) => FeederHistoryFrame(s.h, s.processors[i], takesClosed);
    case ReaderStep(i, r, built) => ReaderFrame(s.q, s.registry, s.processors[i], r, s.h, built);
    case _ =>
  }

  lemma {:induction false} AcceptedIsRecorded(states: seq<Sys>, steps: seq<Step>, i: nat)
    requires IsRun(states, steps) && i < |states|
    ensures states[i].h.stillExecutingAccepted <==> StillExecutingAccepted(states, steps, i)
  {
    hide Apply, Enabled;
    if i == 0 {
    } else {
      AcceptedIsRecorded(states, steps, i - 1);
      assert Enabled(states[i - 1], steps[i - 1]);
      AcceptsAt(states[i - 1], steps[i - 1]);
    }
  }

  // What a pulse reports, exactly. InPending: something executes here, or somebody
  // else confirmed during the pulse that it executes. NotPending: nothing executes
  // here, and the broker is NotPending, or InPending with nobody to confirm it.
  lemma ReportedPending(states: seq<Sys>, steps: seq<Step>, i: nat, ref: Reference, m: ExecutorResults)
    requires IsRun(states, steps) && i < |steps| && steps[i] == Pulse
    requires m in PulseMessages(ref, states[i].q, states[i].registry)
    ensures m.recordRef == ref
    ensures m.pending == NotPending <==>
              && states[i].registry == map[]
              && (states[i].q.pending == NotPending
                  || (states[i].q.pending == InPending && !StillExecutingAccepted(states, steps, i)))
    ensures m.pending == InPending <==>
              || states[i].registry != map[]
              || (states[i].q.pending == InPending && StillExecutingAccepted(states, steps, i))
    ensures m.pending == PendingUnknown <==> states[i].registry == map[] && states[i].q.pending == PendingUnknown
  {
    hide Apply, Init, PulseMessages, Once, Owns, Accounted, Announced, Notices, Disciplined, Complete;
    BrokerRuns.Reachable(states, steps, i);
    AcceptedIsRecorded(states, steps, i);
    assert Enabled(states[i], steps[i]);
    PulseReport(ref, states[i].q, states[i].registry);
  }

  // ----- What the receiver makes of it

  lemma ReleasedAt(s: Sys, step: Step)
    requires Enabled(s, step) && step == PendingResult(NotPending) && s.registry == map[]
    ensures Apply(s, step).q.pending == NotPending && Apply(s, step).q.closed == s.q.closed == false
  {
  }

  // A receiver with an empty registry is NotPending from the report on, until its own pulse ends.
  lemma ReceiverIsReleased(states: seq<Sys>, steps: seq<Step>, j: nat, k: nat)
    requires IsRun(states, steps) && j < |steps| && j < k < |states| && !states[k].q.closed
    requires steps[j] == PendingResult(NotPending) && states[j].registry == map[]
    ensures states[k].q.pending == NotPending
  {
    hide Apply, Enabled, Init;
    assert Enabled(states[j], steps[j]);
    ReleasedAt(states[j], steps[j]);
    PendingNeverFalls(states, steps, j + 1, k);
  }

  // ----- An executing object is handed on as pending

  // A receiver that knew nothing and hears InPending waits: until some step
  // releases it, or its own pulse ends, it is InPending and has no processor.
  lemma ReceiverWaits(states: seq<Sys>, steps: seq<Step>, j: nat, k: nat)
    requires IsRun(states, steps) && j < |steps| && j < k < |states| && !states[k].q.closed
    requires steps[j] == PendingResult(InPending) && states[j].q.pending == PendingUnknown
    requires forall a :: j < a < k ==> !Releases(states[a], steps[a])
    ensures states[k].q.pending == InPending && states[k].processors == []
  {
    hide Apply, Enabled, Init, Once, Owns, Accounted, Announced, Notices, Disciplined, Complete;
    BrokerRuns.Reachable(states, steps, k);
    PendingNeverFalls(states, steps, j, k);
    WhyPending(states, steps, j);
    WhyPending(states, steps, k);
    assert Informs(states[j], steps[j]);
    assert !Releases(states[j], steps[j]);
  }

  // One handoff: something executes when the sender's pulse ends. Its one report
  // says InPending, and a receiver that knew nothing starts no processor before
  // it is released.
  lemma ExecutingIsHandedOn(
      sent: seq<Sys>, sentSteps: seq<Step>, i: nat, ref: Reference,
      states: seq<Sys>, steps: seq<Step>, j: nat, k: nat)
    requires IsRun(sent, sentSteps) && i < |sentSteps| && sentSteps[i] == Pulse && sent[i].registry != map[]
    ensures var messages := PulseMessages(ref, sent[i].q, sent[i].registry);
            |messages| == 1 && messages[0].recordRef == ref && messages[0].pending == InPending
    requires IsRun(states, steps) && j < |steps| && j < k < |states| && !states[k].q.closed
    requires states[j].q.pending == PendingUnknown
    requires forall m :: m in PulseMessages(ref, sent[i].q, sent[i].registry) ==> steps[j] == PendingResult(m.pending)
    requires forall a :: j < a < k ==> !Releases(states[a], steps[a])
    ensures states[k].q.pending == InPending && states[k].processors == []
  {
    hide Apply, Enabled, Init, Releases;
    var messages := PulseMessages(ref, sent[i].q, sent[i].registry);
    assert messages[0] in messages;
    ReceiverWaits(states, steps, j, k);
  }

  // ----- A pending that nobody confirmed is released

  // One handoff: the sender is InPending, nobody confirmed it and nothing
  // executes. Its report says NotPending and "there is more". A receiver whose
  // registry is empty takes it in steps j and h, and from then on, until its own
  // pulse ends, is NotPending; once the call of startProcessor made in step h has
  // returned, its processor runs.
  lemma UnconfirmedPendingIsReleased(
      sent: seq<Sys>, sentSteps: seq<Step>, i: nat, ref: Reference,
      states: seq<Sys>, steps: seq<Step>, j: nat, h: nat, k: nat)
    requires IsRun(sent, sentSteps) && i < |sentSteps| && sentSteps[i] == Pulse
    requires sent[i].q.pending == InPending && !StillExecutingAccepted(sent, sentSteps, i) && sent[i].registry == map[]
    ensures PulseMessages(ref, sent[i].q, sent[i].registry) == [ExecutorResults(ref, NotPending, true)]
    requires IsRun(states, steps) && j < h < k < |states| && !states[k].q.closed
    requires states[j].registry == map[]
    requires forall m :: m in PulseMessages(ref, sent[i].q, sent[i].registry) ==>
               steps[j] == PendingResult(m.pending) && (m.ledgerHasMoreRequests ==> steps[h] == HasMoreRequests)
    ensures states[k].q.pending == NotPending
    ensures var x := |states[h].starters|;
            x < |states[k].starters| && (states[k].starters[x] == Returned ==> |states[k].processors| == 1)
  {
    hide Apply, Init, StarterEnabled, Owned, FeederEnabled, ReaderEnabled, Once, Owns, Accounted, Announced, Notices,
         Disciplined, Complete;
    BrokerRuns.Reachable(sent, sentSteps, i);
    AcceptedIsRecorded(sent, sentSteps, i);
    assert Enabled(sent[i], sentSteps[i]);
    var m := ExecutorResults(ref, NotPending, true);
    assert PulseMessages(ref, sent[i].q, sent[i].registry) == [m];
    assert m in PulseMessages(ref, sent[i].q, sent[i].registry);
    ReceiverIsReleased(states, steps, j, k);
    PendingNeverFalls(states, steps, h + 1, k);
    ReceiverIsReleased(states, steps, j, h + 1);
    ReturnedCallLeavesProcessor(states, steps, h, k);
  }

  // The two steps together are the broker the handler leaves behind.
  lemma TwoStepsAreReceive(s: Sys, msg: ExecutorResults)
    requires Enabled(s, PendingResult(msg.pending))
    ensures var t := Apply(s, PendingResult(msg.pending));
            && !t.q.closed
            && Receive(s.q, s.registry, msg) == if msg.ledgerHasMoreRequests then Apply(t, HasMoreRequests).q else t.q
  {
  }
}
