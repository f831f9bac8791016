// All the goroutines around one broker as an interleaving machine: each step is
// one lock section, one channel operation, or one action of the environment.
module BrokerSystem {
  import opened References
  import opened ExecutionRegistries
  import opened Broker

  // What the fetcher sends: a transcript, or nil for "no more pendings".
  datatype Item = Deliver(transcript: Transcript) | NoMore

  // A goroutine started by `go q.startProcessor(ctx)`.
  datatype StarterPc =
    | Begin
    | WantMutex                       // before HasPendingCheckMutex
    | Asking                          // holds it, HasPendings is being called
    | Answered(has: bool)             // holds it, before the locked update
    | Ready                           // before the locked part of startProcessor
    | Returned

  datatype LedgerAnswer = Has(has: bool) | LedgerError

  datatype FeederPc =
    | Selecting                       // the outer select
    | Upserting(hand: Transcript)     // before upsertToDuplicationTable
    | Handing(hand: Transcript)       // before the send to a feed
    | ReportingNoMore                 // got nil, before noMoreRequestsOnLedger...
    | AwaitingNotice                  // fetcher stopped, the inner select
    | Refetching                      // took the token, before FetchPendings
    | Stopping                        // before stopProcessor
    | Stopped

  datatype ReaderPc =
    | Idle
    | Taken(transcript: Transcript)       // before canProcessTranscript
    | Executing(transcript: Transcript)   // before finishTranscript
    | Finishing(transcript: Transcript)   // before finishPendingIfNeeded
    | Exited

  datatype Reader = Reader(immutable: bool, pc: ReaderPc)

  // What one successful startProcessor sets up.
  datatype Processor = Processor(
    feeder: FeederPc,
    fetchIteration: nat,
    fetchedRequests: nat,
    feed: seq<Item>,                  // transcriptFeed
    feedClosed: bool,
    told: bool,                       // nil was sent; the fetcher sends nothing after it
    feedMutable: seq<Transcript>,
    feedImmutable: seq<Transcript>,
    feedsClosed: bool,
    readers: seq<Reader>)

  const FEED_CAPACITY := 10
  const IMMUTABLE_EXECUTION_LIMIT := 30

  datatype Event = Notified | RoundStarted | ReportedEmpty

  // Variables that only record what happened.
  datatype History = History(
    delivered: seq<Transcript>,       // received by the feeder, in order
    passed: seq<Transcript>,          // let through by canProcessTranscript, in order
    log: seq<Event>,
    stillExecutingAccepted: bool,
    activeAtPulse: bool,
    pendingFinishedSent: nat,
    buildFailed: bool)

  datatype Sys = Sys(
    q: BrokerState,
    registry: Registry,
    shared: bool,                     // other brokers of the object use the registry
    starters: seq<StarterPc>,
    mutexHeld: bool,
    processors: seq<Processor>,
    h: History)

  datatype Step =
    // handlers; none runs after the pulse ended
    | HasMoreRequests
    | AbandonedRequests
    | PendingResult(prev: PendingState)
    | StillExecutingMessage
    | PendingFinishedMessage
    | SetNotPending
    | Pulse
    // goroutines
    | StarterStep(i: nat, answer: LedgerAnswer)
    | FeederStep(p: nat, takesClosed: bool)
    | ReaderStep(p: nat, r: nat, built: bool)
    // the fetcher, and other brokers that share the registry
    | Emit(p: nat, item: Item)
    | CloseFeed(p: nat)
    | OthersRegister(transcript: Transcript)
    | OthersDone(ref: Reference)

  const NO_HISTORY := History([], [], [], false, false, 0, false)

  predicate Init(s: Sys) {
    && s == Sys(NEW_BROKER, s.registry, s.shared, [], false, [], NO_HISTORY)
    && (s.shared || s.registry == map[])
  }

  function NewReaders(): seq<Reader> {
    seq(IMMUTABLE_EXECUTION_LIMIT, i => Reader(true, Idle)) + [Reader(false, Idle)]
  }

  function NewProcessor(): Processor {
    Processor(Selecting, 0, 0, [], false, false, [], [], false, NewReaders())
  }

  // ----- Handlers and the pulse

  function Notify(s: Sys, q: BrokerState): Sys {
    s.(q := q, starters := s.starters + [Begin], h := s.h.(log := s.h.log + [Notified]))
  }

  function HandlerApply(s: Sys, step: Step): Sys {
    match step
    case HasMoreRequests => Notify(s, SetHasMoreRequests(s.q))
    case AbandonedRequests => Notify(s, AbandonedRequestsOnLedger(s.q))
    case PendingResult(prev) => s.(q := PrevExecutorPendingResult(s.q, s.registry, prev))
    case StillExecutingMessage =>
      s.(q := PrevExecutorStillExecuting(s.q),
         h := s.h.(stillExecutingAccepted := s.h.stillExecutingAccepted || s.q.pending != NotPending))
    case PendingFinishedMessage =>
      s.(q := PrevExecutorSentPendingFinished(s.q, s.registry),
         starters := if IsActive(s.registry) then s.starters else s.starters + [Begin])
    case SetNotPending => s.(q := s.q.(pending := NotPending))
    case Pulse => s.(q := OnPulse(s.q, s.registry), h := s.h.(activeAtPulse := IsActive(s.registry)))
    case _ => s
  }

  // ----- startProcessor

  predicate StarterEnabled(s: Sys, pc: StarterPc) {
    pc != Returned && (pc == WantMutex ==> !s.mutexHeld)
  }

  function StarterNext(q: BrokerState, pc: StarterPc, answer: LedgerAnswer): StarterPc {
    match pc
    case Begin => if q.pending != PendingUnknown then Ready else WantMutex
    case WantMutex => if q.pending != PendingUnknown then Ready else Asking
    case Asking => if answer.LedgerError? then Ready else Answered(answer.has)
    case Answered(_) => Ready
    case Ready => Returned
    case Returned => Returned
  }

  function StarterQ(q: BrokerState, pc: StarterPc): BrokerState {
    match pc
    case Answered(has) => ClarifyPendingState(q, has)
    case Ready => StartProcessor(q)
    case _ => q
  }

  predicate Starts(q: BrokerState, pc: StarterPc) {
    pc == Ready && MayStart(q)
  }

  function StarterApply(s: Sys, i: nat, answer: LedgerAnswer): Sys
    requires i < |s.starters|
  {
    var pc := s.starters[i];
    var next := StarterNext(s.q, pc, answer);
    s.(starters := s.starters[i := next],
       mutexHeld := if pc in {WantMutex, Asking} || pc.Answered? then next == Asking || next.Answered? else s.mutexHeld,
       q := StarterQ(s.q, pc),
       processors := if Starts(s.q, pc) then s.processors + [NewProcessor()] else s.processors,
       h := if Starts(s.q, pc) then s.h.(log := s.h.log + [RoundStarted]) else s.h)
  }

  // ----- The feeder: what a step does to the broker, to its own variables and
  // channels, and to the record

  predicate FeederEnabled(q: BrokerState, p: Processor, takesClosed: bool) {
    match p.feeder
    case Selecting => if takesClosed then q.closed else (p.feed != [] || p.feedClosed)
    case Handing(tr) => if tr.immutable then |p.feedImmutable| < FEED_CAPACITY else |p.feedMutable| < FEED_CAPACITY
    case AwaitingNotice => if takesClosed then q.closed else q.probablyMore
    case Stopped => false
    case _ => true
  }

  function FeederQ(q: BrokerState, p: Processor, takesClosed: bool): BrokerState {
    match p.feeder
    case ReportingNoMore => NoMoreRequestsOnLedger(q, p.fetchIteration == 0 && p.fetchedRequests == 0)
    case Upserting(tr) => q.(deduplicationTable := q.deduplicationTable + {tr.requestRef})
    case AwaitingNotice => if takesClosed then q else q.(probablyMore := false)
    case _ => q
  }

  function FeederP(q: BrokerState, p: Processor, takesClosed: bool): Processor {
    match p.feeder
    case Selecting =>
      if takesClosed then p.(feeder := Stopping)
      else if p.feed == [] then p.(feeder := AwaitingNotice)
      else p.(feed := p.feed[1..],
              feeder := match p.feed[0] case NoMore => ReportingNoMore case Deliver(tr) => Upserting(tr))
    case ReportingNoMore => p.(feeder := Selecting, fetchIteration := p.fetchIteration + 1)
    case Upserting(tr) =>
      if tr.requestRef in q.deduplicationTable then p.(feeder := Selecting)
      else p.(feeder := Handing(tr), fetchedRequests := p.fetchedRequests + 1)
    case Handing(tr) =>
      if tr.immutable then p.(feeder := Selecting, feedImmutable := p.feedImmutable + [tr])
      else p.(feeder := Selecting, feedMutable := p.feedMutable + [tr])
    case AwaitingNotice => if takesClosed then p.(feeder := Stopping) else p.(feeder := Refetching)
    case Refetching => p.(feeder := Selecting, feed := [], feedClosed := false, told := false)
    case Stopping => p.(feeder := Stopped, feedsClosed := true)
    case Stopped => p
  }

  predicate Receives(p: Processor, takesClosed: bool) {
    p.feeder == Selecting && !takesClosed && p.feed != [] && p.feed[0].Deliver?
  }

  function FeederH(h: History, p: Processor, takesClosed: bool): History {
    if Receives(p, takesClosed) then h.(delivered := h.delivered + [p.feed[0].transcript])
    else if p.feeder == Refetching then h.(log := h.log + [RoundStarted])
    else h
  }

  function FeederApply(s: Sys, i: nat, takesClosed: bool): Sys
    requires i < |s.processors|
  {
    var p := s.processors[i];
    s.(q := FeederQ(s.q, p, takesClosed),
       processors := s.processors[i := FeederP(s.q, p, takesClosed)],
       h := FeederH(s.h, p, takesClosed))
  }

  // ----- The readers, likewise

  function FeedOf(p: Processor, immutable: bool): seq<Transcript> {
    if immutable then p.feedImmutable else p.feedMutable
  }

  predicate ReaderEnabled(p: Processor, reader: Reader) {
    match reader.pc
    case Idle => FeedOf(p, reader.immutable) != [] || p.feedsClosed
    case Exited => false
    case _ => true
  }

  predicate Takes(p: Processor, reader: Reader) {
    reader.pc == Idle && FeedOf(p, reader.immutable) != []
  }

  predicate Passes(q: BrokerState, registry: Registry, pc: ReaderPc) {
    pc.Taken? && MayProcess(q, registry, pc.transcript)
  }

  function ReaderNext(q: BrokerState, registry: Registry, p: Processor, reader: Reader): ReaderPc {
    match reader.pc
    case Idle => if Takes(p, reader) then Taken(FeedOf(p, reader.immutable)[0]) else Exited
    case Taken(tr) => if Passes(q, registry, reader.pc) then Executing(tr) else Idle
    case Executing(tr) => Finishing(tr)
    case Finishing(_) => Idle
    case Exited => Exited
  }

  function ReaderQ(q: BrokerState, pc: ReaderPc): BrokerState {
    if pc.Executing? then FinishTranscript(q, pc.transcript) else q
  }

  function ReaderRegistry(q: BrokerState, registry: Registry, pc: ReaderPc): Registry {
    if Passes(q, registry, pc) then registry[pc.transcript.requestRef := pc.transcript]
    else if pc.Executing? then registry - {pc.transcript.requestRef}
    else registry
  }

  function ReaderP(q: BrokerState, registry: Registry, p: Processor, r: nat): Processor
    requires r < |p.readers|
  {
    var reader := p.readers[r];
    var p' := p.(readers := p.readers[r := Reader(reader.immutable, ReaderNext(q, registry, p, reader))]);
    if !Takes(p, reader) then p'
    else if reader.immutable then p'.(feedImmutable := p.feedImmutable[1..])
    else p'.(feedMutable := p.feedMutable[1..])
  }

  function ReaderH(q: BrokerState, registry: Registry, h: History, pc: ReaderPc, built: bool): History {
    if Passes(q, registry, pc) then h.(passed := h.passed + [pc.transcript])
    else if pc.Finishing? && PendingIsFinished(q, registry) then
      if built then h.(pendingFinishedSent := h.pendingFinishedSent + 1) else h.(buildFailed := true)
    else h
  }

  function ReaderApply(s: Sys, i: nat, r: nat, built: bool): Sys
    requires i < |s.processors| && r < |s.processors[i].readers|
  {
    var p := s.processors[i];
    var pc := p.readers[r].pc;
    s.(q := ReaderQ(s.q, pc),
       registry := ReaderRegistry(s.q, s.registry, pc),
       processors := s.processors[i := ReaderP(s.q, s.registry, p, r)],
       h := ReaderH(s.q, s.registry, s.h, pc, built))
  }

  // ----- The machine

  predicate Enabled(s: Sys, step: Step) {
    match step
    case StarterStep(i, _) => i < |s.starters| && StarterEnabled(s, s.starters[i])
    case FeederStep(i, takesClosed) => i < |s.processors| && FeederEnabled(s.q, s.processors[i], takesClosed)
    case ReaderStep(i, r, _) =>
      i < |s.processors| && r < |s.processors[i].readers| && ReaderEnabled(s.processors[i], s.processors[i].readers[r])
    case Emit(i, _) => i < |s.processors| && !s.processors[i].feedClosed && !s.processors[i].told
    case CloseFeed(i) => i < |s.processors|
    case OthersRegister(tr) => s.shared && s.q.closed && tr.requestRef !in s.registry
    case OthersDone(ref) => s.shared && ref in s.registry && !Owned(s, ref)
    case _ => !s.q.closed
  }

  // The broker itself is executing the request.
  predicate Owned(s: Sys, ref: Reference) {
    exists i, r :: 0 <= i < |s.processors| && 0 <= r < |s.processors[i].readers|
      && s.processors[i].readers[r].pc.Executing? && s.processors[i].readers[r].pc.transcript.requestRef == ref
  }

  function Apply(s: Sys, step: Step): Sys
    requires Enabled(s, step)
  {
    match step
    case StarterStep(i, answer) => StarterApply(s, i, answer)
    case FeederStep(i, takesClosed) => FeederApply(s, i, takesClosed)
    case ReaderStep(i, r, built) => ReaderApply(s, i, r, built)
    case Emit(i, item) =>
      var p := s.processors[i];
      s.(processors := s.processors[i := p.(feed := p.feed + [item], told := p.told || item == NoMore)],
         h := if item.NoMore? then s.h.(log := s.h.log + [ReportedEmpty]) else s.h)
    case CloseFeed(i) => s.(processors := s.processors[i := s.processors[i].(feedClosed := true)])
    case OthersRegister(tr) => s.(registry := s.registry[tr.requestRef := tr])
    case OthersDone(ref) => s.(registry := s.registry - {ref})
    case _ => HandlerApply(s, step)
  }

  // A run: the states passed through and the steps between them.
  predicate IsRun(states: seq<Sys>, steps: seq<Step>) {
    && |states| == |steps| + 1
    && Init(states[0])
    && forall i :: 0 <= i < |steps| ==> Enabled(states[i], steps[i]) && states[i + 1] == Apply(states[i], steps[i])
  }
}
