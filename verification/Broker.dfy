// One execution broker (logicrunner/executionbroker.go) as a value, and each of
// its lock sections as a function on that value and the registry.
module Broker {
  import opened References
  import opened ExecutionRegistries

  datatype PendingState = PendingUnknown | NotPending | InPending
  datatype LedgerHasMore = LedgerIsEmpty | LedgerHasMoreKnown | LedgerHasMoreUnknown

  datatype ExecutorResults = ExecutorResults(recordRef: Reference, pending: PendingState, ledgerHasMoreRequests: bool)

  datatype BrokerState = BrokerState(
    pending: PendingState,
    pendingConfirmed: bool,
    processorActive: bool,
    closed: bool,
    ledgerHasMoreRequests: LedgerHasMore,
    probablyMore: bool,                        // the one-slot channel holds a token
    finished: seq<Transcript>,
    deduplicationTable: set<Reference>)

  const NEW_BROKER := BrokerState(PendingUnknown, false, false, false, LedgerIsEmpty, false, [], {})

  predicate IsActive(registry: Registry) {
    registry != map[]
  }

  function SetHasMoreRequests(q: BrokerState): BrokerState {
    q.(ledgerHasMoreRequests := LedgerHasMoreKnown, probablyMore := true)
  }

  function AbandonedRequestsOnLedger(q: BrokerState): BrokerState {
    SetHasMoreRequests(if q.pending == PendingUnknown then q.(pending := InPending, pendingConfirmed := false) else q)
  }

  function NoMoreRequestsOnLedger(q: BrokerState, initial: bool): BrokerState {
    if q.probablyMore then q
    else q.(ledgerHasMoreRequests := if initial then LedgerIsEmpty else LedgerHasMoreKnown)
  }

  predicate MayStart(q: BrokerState) {
    q.pending == NotPending && !q.processorActive && !q.closed
  }

  function StartProcessor(q: BrokerState): BrokerState {
    if MayStart(q) then q.(processorActive := true, probablyMore := false) else q
  }

  predicate MayProcess(q: BrokerState, registry: Registry, tr: Transcript) {
    !q.closed && tr.requestRef !in registry
  }

  function FinishTranscript(q: BrokerState, tr: Transcript): BrokerState {
    q.(finished := q.finished + [tr])
  }

  predicate PendingIsFinished(q: BrokerState, registry: Registry) {
    q.pending == InPending && !IsActive(registry)
  }

  // The switch in OnPulse: what it sets, and whether results are sent.
  function PulseVerdict(q: BrokerState, registry: Registry): (BrokerState, bool) {
    if IsActive(registry) then (q.(pending := InPending), true)
    else if q.pending == InPending && !q.pendingConfirmed then
      (q.(pending := NotPending, ledgerHasMoreRequests := LedgerHasMoreKnown), true)
    else if q.finished != [] then (q, true)
    else (q, q.ledgerHasMoreRequests != LedgerIsEmpty)
  }

  function PulseMessages(ref: Reference, q: BrokerState, registry: Registry): seq<ExecutorResults> {
    var (v, send) := PulseVerdict(q, registry);
    if send then [ExecutorResults(ref, v.pending, v.ledgerHasMoreRequests != LedgerIsEmpty)] else []
  }

  function OnPulse(q: BrokerState, registry: Registry): BrokerState {
    PulseVerdict(q, registry).0.(closed := true, finished := [], deduplicationTable := {},
                                 pending := InPending, pendingConfirmed := true)
  }

  function PrevExecutorPendingResult(q: BrokerState, registry: Registry, prev: PendingState): BrokerState {
    match q.pending
    case InPending => if !IsActive(registry) && prev == NotPending then q.(pending := NotPending) else q
    case PendingUnknown => q.(pending := prev)
    case NotPending => q
  }

  // The error ErrNotInPending is returned exactly in NotPending.
  function PrevExecutorStillExecuting(q: BrokerState): BrokerState {
    if q.pending == NotPending then q else q.(pending := InPending, pendingConfirmed := true)
  }

  // ErrAlreadyExecuting while the registry holds something.
  function PrevExecutorSentPendingFinished(q: BrokerState, registry: Registry): BrokerState {
    if IsActive(registry) then q else q.(pending := NotPending)
  }

  function ClarifyPendingState(q: BrokerState, has: bool): BrokerState {
    if q.pending != PendingUnknown then q
    else if has then q.(pending := InPending, ledgerHasMoreRequests := LedgerHasMoreUnknown)
    else q.(pending := NotPending)
  }

  // ----- Facts about single sections

  // The pending states in the order a broker goes through them.
  function Rank(p: PendingState): nat {
    match p case PendingUnknown => 0 case InPending => 1 case NotPending => 2
  }

  // What a broker knows after the previous executor's report, exactly.
  lemma AfterPendingResult(q: BrokerState, registry: Registry, prev: PendingState)
    ensures PrevExecutorPendingResult(q, registry, prev).pending == NotPending <==>
              q.pending == NotPending || (prev == NotPending && (q.pending == PendingUnknown || !IsActive(registry)))
    ensures Rank(q.pending) <= Rank(PrevExecutorPendingResult(q, registry, prev).pending)
  {
  }

  // The verdict of a pulse, exactly: when a message goes out, when it releases
  // the object, and when it promises more requests.
  lemma PulseReport(ref: Reference, q: BrokerState, registry: Registry)
    ensures |PulseMessages(ref, q, registry)| <= 1
    ensures PulseMessages(ref, q, registry) == [] <==>
              !IsActive(registry) && !(q.pending == InPending && !q.pendingConfirmed)
              && q.finished == [] && q.ledgerHasMoreRequests == LedgerIsEmpty
    ensures forall m :: m in PulseMessages(ref, q, registry) ==>
              m.recordRef == ref
              && (m.pending == NotPending <==>
                    !IsActive(registry) && (q.pending == NotPending || (q.pending == InPending && !q.pendingConfirmed)))
              && (m.pending == InPending <==> registry != map[] || (q.pending == InPending && q.pendingConfirmed))
              && (m.pending == PendingUnknown <==> registry == map[] && q.pending == PendingUnknown)
              && (m.ledgerHasMoreRequests <==>
                    q.ledgerHasMoreRequests != LedgerIsEmpty
                    || (!IsActive(registry) && q.pending == InPending && !q.pendingConfirmed))
  {
  }
}
