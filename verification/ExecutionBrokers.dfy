// The broker as the object of logicrunner/executionbroker.go. Every method is one
// lock section; each is proved to do what its function in module Broker says.
module ExecutionBrokers {
  import opened References
  import opened ExecutionRegistries
  import opened Broker

  class ExecutionBroker {
    const ref: Reference
    const executionRegistry: ExecutionRegistry
    var processorActive: bool
    var closed: bool                            // the channel `closed` is closed
    var ledgerHasMoreRequests: LedgerHasMore
    var probablyMoreSinceLastFetch: seq<()>     // a channel of capacity one
    var finished: seq<Transcript>
    var pending: PendingState
    var pendingConfirmed: bool
    var deduplicationTable: map<Reference, bool>

    constructor (objectRef: Reference, registry: ExecutionRegistry)
      ensures ref == objectRef && executionRegistry == registry
      ensures Valid() && State() == NEW_BROKER
    {
      ref, executionRegistry := objectRef, registry;
      processorActive, closed := false, false;
      ledgerHasMoreRequests, probablyMoreSinceLastFetch := LedgerIsEmpty, [];
      finished, pending, pendingConfirmed := [], PendingUnknown, false;
      deduplicationTable := map[];
    }

    predicate Valid()
      reads this
    {
      |probablyMoreSinceLastFetch| <= 1
    }

    function State(): BrokerState
      reads this
    {
      BrokerState(pending, pendingConfirmed, processorActive, closed, ledgerHasMoreRequests,
                    |probablyMoreSinceLastFetch| > 0, finished, deduplicationTable.Keys)
    }

    method SetHasMoreRequests()
      requires Valid()
      modifies this
      ensures ledgerHasMoreRequests == LedgerHasMoreKnown && |probablyMoreSinceLastFetch| == 1
      ensures Valid() && State() == Broker.SetHasMoreRequests(old(State()))
    {
      ledgerHasMoreRequests := LedgerHasMoreKnown;
      if |probablyMoreSinceLastFetch| < 1 {
        probablyMoreSinceLastFetch := probablyMoreSinceLastFetch + [()];
      }
    }

    method HasMoreRequests()
      requires Valid()
      modifies this
      ensures ledgerHasMoreRequests == LedgerHasMoreKnown && |probablyMoreSinceLastFetch| == 1
      ensures Valid() && State() == Broker.SetHasMoreRequests(old(State()))
    {
      SetHasMoreRequests();
    }

    method AbandonedRequestsOnLedger()
      requires Valid()
      modifies this
      ensures ledgerHasMoreRequests == LedgerHasMoreKnown && |probablyMoreSinceLastFetch| == 1
      ensures pending == (if old(pending) == PendingUnknown then InPending else old(pending))
      ensures pendingConfirmed == (old(pending) != PendingUnknown && old(pendingConfirmed))
      ensures Valid() && State() == Broker.AbandonedRequestsOnLedger(old(State()))
    {
      if pending == PendingUnknown {
        pending := InPending;
        pendingConfirmed := false;
      }
      SetHasMoreRequests();
    }

    method NoMoreRequestsOnLedgerInitial()
      requires Valid()
      modifies this
      ensures ledgerHasMoreRequests ==
              if old(probablyMoreSinceLastFetch) == [] then LedgerIsEmpty else old(ledgerHasMoreRequests)
      ensures Valid() && State() == Broker.NoMoreRequestsOnLedger(old(State()), true)
    {
      if |probablyMoreSinceLastFetch| == 0 {
        ledgerHasMoreRequests := LedgerIsEmpty;
      }
    }

    method NoMoreRequestsOnLedger()
      requires Valid()
      modifies this
      ensures ledgerHasMoreRequests ==
              if old(probablyMoreSinceLastFetch) == [] then LedgerHasMoreKnown else old(ledgerHasMoreRequests)
      ensures Valid() && State() == Broker.NoMoreRequestsOnLedger(old(State()), false)
    {
      if |probablyMoreSinceLastFetch| == 0 {
        ledgerHasMoreRequests := LedgerHasMoreKnown;
      }
    }

    // The locked part of startProcessor, up to the spawning of the goroutines.
    method StartProcessor() returns (started: bool)
      requires Valid()
      modifies this
      ensures started <==> old(pending) == NotPending && !old(processorActive) && !old(closed)
      ensures processorActive == (old(processorActive) || started)
      ensures probablyMoreSinceLastFetch == if started then [] else old(probablyMoreSinceLastFetch)
      ensures Valid() && State() == Broker.StartProcessor(old(State()))
    {
      if pending != NotPending {
        return false;
      }
      if processorActive {
        return false;
      }
      if closed {
        return false;
      }
      processorActive := true;
      if |probablyMoreSinceLastFetch| > 0 {
        probablyMoreSinceLastFetch := [];
      }
      return true;
    }

    method CanProcessTranscript(transcript: Transcript) returns (ok: bool)
      modifies executionRegistry
      ensures ok <==> !closed && transcript.requestRef !in old(executionRegistry.registry)
      ensures ok <==> MayProcess(State(), old(executionRegistry.registry), transcript)
      ensures executionRegistry.registry ==
              if ok then old(executionRegistry.registry)[transcript.requestRef := transcript]
              else old(executionRegistry.registry)
    {
      if closed {
        return false;
      }
      ok := executionRegistry.Register(transcript);
    }

    method FinishTranscript(transcript: Transcript) returns (done: bool)
      requires Valid()
      modifies this, executionRegistry
      ensures finished == old(finished) + [transcript]
      ensures Valid() && State() == Broker.FinishTranscript(old(State()), transcript)
      ensures done <==> transcript.requestRef in old(executionRegistry.registry)
      ensures executionRegistry.registry == old(executionRegistry.registry) - {transcript.requestRef}
    {
      done := executionRegistry.Done(transcript);
      finished := finished + [transcript];
    }

    // Whether a PendingFinished message goes out, if it can be built.
    method FinishPendingIfNeeded(built: bool) returns (sent: bool)
      ensures sent <==> pending == InPending && executionRegistry.registry == map[] && built
      ensures sent <==> PendingIsFinished(State(), executionRegistry.registry) && built
    {
      if pending != InPending {
        return false;
      }
      var empty := executionRegistry.IsEmpty();
      if !empty {
        return false;
      }
      if !built {
        return false;
      }
      return true;
    }

    method OnPulse() returns (messages: seq<ExecutorResults>)
      requires Valid()
      modifies this
      ensures closed && finished == [] && deduplicationTable == map[] && pending == InPending && pendingConfirmed
      ensures processorActive == old(processorActive) && probablyMoreSinceLastFetch == old(probablyMoreSinceLastFetch)
      ensures messages == [] <==>
                && executionRegistry.registry == map[] && old(finished) == []
                && old(ledgerHasMoreRequests) == LedgerIsEmpty
                && !(old(pending) == InPending && !old(pendingConfirmed))
      ensures messages != [] ==>
                |messages| == 1 && messages[0].recordRef == ref
                && messages[0].pending ==
                   (if executionRegistry.registry != map[] then InPending
                    else if old(pending) == InPending && !old(pendingConfirmed) then NotPending
                    else old(pending))
      ensures Valid() && State() == Broker.OnPulse(old(State()), executionRegistry.registry)
      ensures messages == PulseMessages(ref, old(State()), executionRegistry.registry)
    {
      closed := true;
      var sendExecResults := false;
      var empty := executionRegistry.IsEmpty();
      if !empty {
        pending := InPending;
        sendExecResults := true;
      } else if pending == InPending && !pendingConfirmed {
        pending := NotPending;
        sendExecResults := true;
        ledgerHasMoreRequests := LedgerHasMoreKnown;
      } else if |finished| > 0 {
        sendExecResults := true;
      } else if ledgerHasMoreRequests != LedgerIsEmpty {
        sendExecResults := true;
      }
      messages := [];
      if sendExecResults {
        var more := false;
        if ledgerHasMoreRequests != LedgerIsEmpty {
          more := true;
        }
        messages := messages + [ExecutorResults(ref, pending, more)];
      }
      finished := [];
      deduplicationTable := map[];
      pending := InPending;
      pendingConfirmed := true;
    }

    method PrevExecutorPendingResult(prev: PendingState)
      requires Valid()
      modifies this
      ensures old(pending) == PendingUnknown ==> pending == prev
      ensures old(pending) == InPending ==>
                pending == if executionRegistry.registry == map[] && prev == NotPending then NotPending else InPending
      ensures old(pending) == NotPending ==> pending == NotPending
      ensures Valid() && State() == Broker.PrevExecutorPendingResult(old(State()), executionRegistry.registry, prev)
    {
      match pending {
        case InPending =>
          var empty := executionRegistry.IsEmpty();
          if empty && prev == NotPending {
            pending := NotPending;
          }
        case PendingUnknown =>
          pending := prev;
        case NotPending =>
      }
    }

    method PrevExecutorStillExecuting() returns (ok: bool)
      requires Valid()
      modifies this
      ensures if old(pending) == NotPending then pending == NotPending && pendingConfirmed == old(pendingConfirmed)
              else pending == InPending && pendingConfirmed
      ensures Valid() && State() == Broker.PrevExecutorStillExecuting(old(State()))
      ensures ok <==> old(pending) != NotPending
    {
      match pending {
        case NotPending =>
          return false;
        case InPending =>
          pendingConfirmed := true;
        case PendingUnknown =>
          pending := InPending;
          pendingConfirmed := true;
      }
      return true;
    }

    method PrevExecutorSentPendingFinished() returns (ok: bool)
      requires Valid()
      modifies this
      ensures ok <==> executionRegistry.registry == map[]
      ensures pending == if ok then NotPending else old(pending)
      ensures Valid() && State() == Broker.PrevExecutorSentPendingFinished(old(State()), executionRegistry.registry)
    {
      var empty := executionRegistry.IsEmpty();
      if !empty {
        return false;
      }
      pending := NotPending;
      return true;
    }

    method SetNotPending()
      requires Valid()
      modifies this
      ensures Valid() && State() == old(State()).(pending := NotPending)
    {
      pending := NotPending;
    }

    // The last locked part of clarifyPendingStateFromLedger.
    method ApplyLedgerAnswer(has: bool)
      requires Valid()
      modifies this
      ensures pending == if old(pending) != PendingUnknown then old(pending) else if has then InPending else NotPending
      ensures ledgerHasMoreRequests ==
              if old(pending) == PendingUnknown && has then LedgerHasMoreUnknown else old(ledgerHasMoreRequests)
      ensures Valid() && State() == Broker.ClarifyPendingState(old(State()), has)
    {
      if pending == PendingUnknown {
        if has {
          pending := InPending;
          ledgerHasMoreRequests := LedgerHasMoreUnknown;
        } else {
          pending := NotPending;
        }
      }
    }

    method UpsertToDuplicationTable(transcript: Transcript) returns (alreadyInTable: bool)
      requires Valid()
      modifies this
      ensures alreadyInTable <==> transcript.requestRef in old(State()).deduplicationTable
      ensures Valid() && State() == old(State()).(deduplicationTable :=
                old(State()).deduplicationTable + {transcript.requestRef})
    {
      if transcript.requestRef in deduplicationTable {
        assert deduplicationTable.Keys + {transcript.requestRef} == deduplicationTable.Keys;
        return true;
      }
      deduplicationTable := deduplicationTable[transcript.requestRef := true];
      return false;
    }
  }
}
