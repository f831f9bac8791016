// The broker table while it is in use: every broker and every registry a node
// ever created, transcripts that start and finish at any moment, and an OnPulse
// and an IsEmpty that are loops, not single steps.
module StorageSystem {
  import opened Collections
  import opened References
  import opened ExecutionRegistries
  import opened Broker

  datatype RegistryCell = RegistryCell(objectRef: Reference, registry: Registry)

  datatype BrokerCell = BrokerCell(objectRef: Reference, registry: nat, q: BrokerState)

  // Where OnPulse is; it holds the lock of the storage throughout.
  datatype PulsePc =
    | NoPulse
    | Closing(unclosed: map<Reference, nat>)               // the first loop
    | Retiring(left: set<Reference>)                       // the second loop
    | Deleting(left: set<Reference>, ref: Reference)       // found empty, before the delete

  // Where IsEmpty is; it holds the read lock throughout.
  datatype ScanPc = NoScan | Scanning(unseen: set<Reference>)

  // A transcript executing in a broker.
  datatype Job = Job(broker: nat, requestRef: Reference)

  datatype World = World(
    cells: seq<RegistryCell>,
    brokers: seq<BrokerCell>,
    brokerOf: map<Reference, nat>,          // the map `brokers`
    registryOf: map<Reference, nat>,        // the map `registries`
    pulse: PulsePc,
    scan: ScanPc,
    executing: set<Job>)

  datatype Step =
    | Upsert(ref: Reference)
    | Moves(broker: nat, q: BrokerState)    // any other lock section of a broker
    | Register(broker: nat, transcript: Transcript)
    | Finish(broker: nat, transcript: Transcript)
    | StartPulse
    | Close(ref: Reference)
    | StartRetiring
    | Inspect(ref: Reference)
    | Delete
    | EndPulse
    | StartScan
    | Look(ref: Reference)
    | ScanStops                             // found a registry that is not empty
    | ScanSaysEmpty

  predicate Init(w: World) {
    w == World([], [], map[], map[], NoPulse, NoScan, {})
  }

  function RegistryOf(w: World, b: nat): Registry
    requires b < |w.brokers| && w.brokers[b].registry < |w.cells|
  {
    w.cells[w.brokers[b].registry].registry
  }

  predicate InTable(w: World) {
    && (forall b :: 0 <= b < |w.brokers| ==>
          w.brokers[b].registry < |w.cells| && w.cells[w.brokers[b].registry].objectRef == w.brokers[b].objectRef)
    && (forall ref :: ref in w.registryOf ==>
        w.registryOf[ref] < |w.cells| && w.cells[w.registryOf[ref]].objectRef == ref)
    && (forall ref :: ref in w.brokerOf ==> w.brokerOf[ref] < |w.brokers|)
    && (w.pulse.Closing? ==> forall ref :: ref in w.pulse.unclosed ==> w.pulse.unclosed[ref] < |w.brokers|)
  }

  predicate Enabled(w: World, step: Step)
    requires InTable(w)
  {
    match step
    case Upsert(ref) => w.pulse == NoPulse && w.scan == NoScan
    case Moves(b, q) => b < |w.brokers| && q.closed == w.brokers[b].q.closed
    case Register(b, tr) => b < |w.brokers| && MayProcess(w.brokers[b].q, RegistryOf(w, b), tr)
    case Finish(b, tr) => Job(b, tr.requestRef) in w.executing && b < |w.brokers|
    case StartPulse => w.pulse == NoPulse && w.scan == NoScan
    case Close(ref) => w.pulse.Closing? && ref in w.pulse.unclosed
    case StartRetiring => w.pulse == Closing(map[])
    case Inspect(ref) => w.pulse.Retiring? && ref in w.pulse.left && ref in w.registryOf
    case Delete => w.pulse.Deleting?
    case EndPulse => w.pulse == Retiring({})
    case StartScan => w.pulse == NoPulse && w.scan == NoScan
    case Look(ref) =>
      w.scan.Scanning? && ref in w.scan.unseen && ref in w.registryOf && !IsActive(w.cells[w.registryOf[ref]].registry)
    case ScanStops =>
      w.scan.Scanning?
      && exists ref | ref in w.scan.unseen && ref in w.registryOf :: IsActive(w.cells[w.registryOf[ref]].registry)
    case ScanSaysEmpty => w.scan == Scanning({})
  }

  function WithRegistry(w: World, r: nat, registry: Registry): seq<RegistryCell>
    requires r < |w.cells|
  {
    w.cells[r := w.cells[r].(registry := registry)]
  }

  function WithBroker(w: World, b: nat, q: BrokerState): seq<BrokerCell>
    requires b < |w.brokers|
  {
    w.brokers[b := w.brokers[b].(q := q)]
  }

  function ApplyUpsert(w: World, ref: Reference): World {
    if ref in w.brokerOf then w
    else
      var known := ref in w.registryOf;
      var r := if known then w.registryOf[ref] else |w.cells|;
      w.(cells := if known then w.cells else w.cells + [RegistryCell(ref, map[])],
         registryOf := Upserted(w.registryOf, ref, r),
         brokerOf := Upserted(w.brokerOf, ref, |w.brokers|),
         brokers := w.brokers + [BrokerCell(ref, r, NEW_BROKER)])
  }

  function Apply(w: World, step: Step): World
    requires InTable(w) && Enabled(w, step)
  {
    match step
    case Upsert(ref) => ApplyUpsert(w, ref)
    case Moves(b, q) => w.(brokers := WithBroker(w, b, q))
    case Register(b, tr) =>
      w.(cells := WithRegistry(w, w.brokers[b].registry, RegistryOf(w, b)[tr.requestRef := tr]),
         executing := w.executing + {Job(b, tr.requestRef)})
    case Finish(b, tr) =>
      w.(cells := WithRegistry(w, w.brokers[b].registry, RegistryOf(w, b) - {tr.requestRef}),
         executing := w.executing - {Job(b, tr.requestRef)})
    case StartPulse => w.(pulse := Closing(w.brokerOf), brokerOf := map[])
    case Close(ref) =>
      var b := w.pulse.unclosed[ref];
      w.(pulse := Closing(w.pulse.unclosed - {ref}),
         brokers := WithBroker(w, b, Broker.OnPulse(w.brokers[b].q, RegistryOf(w, b))))
    case StartRetiring => w.(pulse := Retiring(w.registryOf.Keys))
    case Inspect(ref) =>
      var left := w.pulse.left - {ref};
      w.(pulse := if IsActive(w.cells[w.registryOf[ref]].registry) then Retiring(left) else Deleting(left, ref))
    case Delete => w.(registryOf := w.registryOf - {w.pulse.ref}, pulse := Retiring(w.pulse.left))
    case EndPulse => w.(pulse := NoPulse)
    case StartScan => w.(scan := Scanning(w.registryOf.Keys))
    case Look(ref) => w.(scan := Scanning(w.scan.unseen - {ref}))
    case ScanStops => w.(scan := NoScan)
    case ScanSaysEmpty => w.(scan := NoScan)
  }

  // ----- The invariant

  // An open broker is in the table, or waits for its pulse to end, and works on
  // the registry stored for its object.
  predicate Listed(w: World, b: nat)
    requires b < |w.brokers|
  {
    var ref := w.brokers[b].objectRef;
    && ref in w.registryOf && w.registryOf[ref] == w.brokers[b].registry
    && match w.pulse
       case NoPulse => ref in w.brokerOf && w.brokerOf[ref] == b
       case Closing(unclosed) => ref in unclosed && unclosed[ref] == b
       case _ => false
  }

  predicate OpenAreListed(w: World) {
    && (forall b :: 0 <= b < |w.brokers| && !w.brokers[b].q.closed ==> Listed(w, b))
    && (w.pulse != NoPulse ==> w.brokerOf == map[])
  }

  predicate StoredAreOpen(w: World) {
    forall ref :: ref in w.brokerOf ==>
      var b := w.brokerOf[ref]; b < |w.brokers| && !w.brokers[b].q.closed && w.brokers[b].objectRef == ref
  }

  predicate Retired(w: World, r: nat)
    requires r < |w.cells|
  {
    var ref := w.cells[r].objectRef; ref !in w.registryOf || w.registryOf[ref] != r
  }

  predicate RetiredAreEmpty(w: World) {
    && (forall r :: 0 <= r < |w.cells| && Retired(w, r) ==> w.cells[r].registry == map[])
    && (w.pulse.Deleting? ==>
          w.pulse.ref in w.registryOf && w.registryOf[w.pulse.ref] < |w.cells|
              && w.cells[w.registryOf[w.pulse.ref]].registry == map[])
  }

  predicate Clash(w: World, j: Job, k: Job)
    requires j.broker < |w.brokers| && k.broker < |w.brokers|
  {
    j.requestRef == k.requestRef && w.brokers[j.broker].registry == w.brokers[k.broker].registry
  }

  // Registries hold exactly what executes, each request by one broker.
  predicate JobsAreRegistered(w: World) {
    && (forall j :: j in w.executing ==>
          j.broker < |w.brokers| && w.brokers[j.broker].registry < |w.cells| && j.requestRef in RegistryOf(w, j.broker))
    && (forall j, k :: j in w.executing && k in w.executing && Clash(w, j, k) ==> j == k)
  }

  ghost predicate RegisteredAreJobs(w: World) {
    forall r, ref :: 0 <= r < |w.cells| && ref in w.cells[r].registry ==> HasJob(w, r, ref)
  }

  predicate HasJob(w: World, r: nat, ref: Reference) {
    exists j :: j in w.executing && j.requestRef == ref && j.broker < |w.brokers| && w.brokers[j.broker].registry == r
  }

  ghost predicate Invariant(w: World) {
    InTable(w) && OpenAreListed(w) && StoredAreOpen(w) && RetiredAreEmpty(w) && JobsAreRegistered(w)
        && RegisteredAreJobs(w)
  }

  lemma TablePreserved(w: World, step: Step)
    requires InTable(w) && Enabled(w, step)
    ensures InTable(Apply(w, step))
  {
    hide RegistryOf, MayProcess, Broker.OnPulse, IsActive;
  }

  lemma ListedPreserved(w: World, step: Step)
    requires InTable(w) && OpenAreListed(w) && RetiredAreEmpty(w) && Enabled(w, step)
    ensures OpenAreListed(Apply(w, step))
  {
  }

  lemma StoredPreserved(w: World, step: Step)
    requires InTable(w) && OpenAreListed(w) && StoredAreOpen(w) && Enabled(w, step)
    ensures StoredAreOpen(Apply(w, step))
  {
    hide Listed, RegistryOf;
  }

  lemma RetiredPreserved(w: World, step: Step)
    requires InTable(w) && OpenAreListed(w) && RetiredAreEmpty(w) && JobsAreRegistered(w) && Enabled(w, step)
    ensures RetiredAreEmpty(Apply(w, step))
  {
  }

  // The brokers of a job keep their registries.
  lemma JobFrame(w: World, step: Step, j: Job)
    requires InTable(w) && JobsAreRegistered(w) && Enabled(w, step) && j in Apply(w, step).executing
    ensures j.broker < |w.brokers| <= |Apply(w, step).brokers|
    ensures Apply(w, step).brokers[j.broker].registry == w.brokers[j.broker].registry
    ensures j in w.executing || (step.Register? && j == Job(step.broker, step.transcript.requestRef))
    ensures step.Finish? ==> j != Job(step.broker, step.transcript.requestRef)
  {
  }

  lemma CellFrame(w: World, step: Step, j: Job)
    requires InTable(w) && JobsAreRegistered(w) && Enabled(w, step) && j in Apply(w, step).executing
    ensures var r, cells := w.brokers[j.broker].registry, Apply(w, step).cells;
            r < |cells| && j.requestRef in cells[r].registry
  {
    JobFrame(w, step, j);
  }

  lemma JobsPreserved(w: World, step: Step)
    requires InTable(w) && JobsAreRegistered(w) && Enabled(w, step)
    ensures JobsAreRegistered(Apply(w, step))
  {
    hide Apply, InTable;
    var t := Apply(w, step);
    forall j | j in t.executing
      ensures j.broker < |t.brokers| && t.brokers[j.broker].registry < |t.cells|
                && j.requestRef in RegistryOf(t, j.broker)
    {
      JobFrame(w, step, j);
      CellFrame(w, step, j);
    }
    forall j, k | j in t.executing && k in t.executing && Clash(t, j, k) ensures j == k {
      JobFrame(w, step, j);
      JobFrame(w, step, k);
    }
  }

  lemma JobKept(w: World, step: Step, r: nat, ref: Reference)
    requires InTable(w) && Enabled(w, step) && HasJob(w, r, ref)
    requires step.Finish? ==> r != w.brokers[step.broker].registry || ref != step.transcript.requestRef
    ensures HasJob(Apply(w, step), r, ref)
  {
    var j :| j in w.executing && j.requestRef == ref && j.broker < |w.brokers| && w.brokers[j.broker].registry == r;
    var t := Apply(w, step);
    assert j in t.executing && j.broker < |t.brokers| && t.brokers[j.broker].registry == r;
  }

  // A step registers one request at most, and that one executes.
  lemma NewlyRegistered(w: World, step: Step, r: nat, ref: Reference)
    requires InTable(w) && Enabled(w, step)
    requires var t := Apply(w, step); r < |t.cells| && ref in t.cells[r].registry
    ensures (r < |w.cells| && ref in w.cells[r].registry
             && (step.Finish? ==> r != w.brokers[step.broker].registry || ref != step.transcript.requestRef))
            || (step.Register? && HasJob(Apply(w, step), r, ref))
  {
    if step.Register? && r == w.brokers[step.broker].registry && ref == step.transcript.requestRef {
      assert Job(step.broker, ref) in Apply(w, step).executing;
    }
  }

  lemma RegisteredPreserved(w: World, step: Step)
    requires InTable(w) && RegisteredAreJobs(w) && Enabled(w, step)
    ensures RegisteredAreJobs(Apply(w, step))
  {
    hide Apply, Enabled, HasJob, InTable;
    var t := Apply(w, step);
    forall r, ref | 0 <= r < |t.cells| && ref in t.cells[r].registry ensures HasJob(t, r, ref) {
      NewlyRegistered(w, step, r, ref);
      if r < |w.cells| && ref in w.cells[r].registry && !HasJob(t, r, ref) {
        JobKept(w, step, r, ref);
      }
    }
  }

  lemma InvariantPreserved(w: World, step: Step)
    requires Invariant(w) && Enabled(w, step)
    ensures Invariant(Apply(w, step))
  {
    hide Apply, Enabled, InTable, OpenAreListed, StoredAreOpen, RetiredAreEmpty, JobsAreRegistered, RegisteredAreJobs;
    TablePreserved(w, step);
    ListedPreserved(w, step);
    StoredPreserved(w, step);
    RetiredPreserved(w, step);
    JobsPreserved(w, step);
    RegisteredPreserved(w, step);
  }

  // ----- Runs

  predicate IsRun(worlds: seq<World>, steps: seq<Step>) {
    && |worlds| == |steps| + 1
    && Init(worlds[0])
    && forall i :: 0 <= i < |steps| ==>
         InTable(worlds[i]) && Enabled(worlds[i], steps[i]) && worlds[i + 1] == Apply(worlds[i], steps[i])
  }

  lemma {:induction false} Reachable(worlds: seq<World>, steps: seq<Step>, i: nat)
    requires IsRun(worlds, steps) && i < |worlds|
    ensures Invariant(worlds[i])
  {
    hide Apply, Enabled;
    if i == 0 {
    } else {
      Reachable(worlds, steps, i - 1);
      assert Enabled(worlds[i - 1], steps[i - 1]);
      InvariantPreserved(worlds[i - 1], steps[i - 1]);
    }
  }

  // Outside a pulse every open broker is the one in the table, on the registry
  // in the table. So no two open brokers share a registry.
  lemma OpenBrokersAreInTheTable(worlds: seq<World>, steps: seq<Step>, i: nat, b: nat)
    requires IsRun(worlds, steps) && i < |worlds|
    requires var w := worlds[i]; b < |w.brokers| && !w.brokers[b].q.closed
    ensures var w := worlds[i]; var ref := w.brokers[b].objectRef;
            && (w.pulse == NoPulse ==> ref in w.brokerOf && w.brokerOf[ref] == b)
            && ref in w.registryOf && w.registryOf[ref] == w.brokers[b].registry
    ensures var w := worlds[i];
            forall c | 0 <= c < |w.brokers| && !w.brokers[c].q.closed ::
              w.brokers[c].registry == w.brokers[b].registry ==> c == b
  {
    Reachable(worlds, steps, i);
    var w := worlds[i];
    assert Listed(w, b);
    forall c | 0 <= c < |w.brokers| && !w.brokers[c].q.closed && w.brokers[c].registry == w.brokers[b].registry
      ensures c == b
    {
      assert Listed(w, c);
    }
  }

  // A registry OnPulse deleted stays deleted, and empty.
  lemma RetiredForGood(w: World, step: Step, r: nat)
    requires Invariant(w) && Enabled(w, step) && r < |w.cells| && Retired(w, r)
    ensures r < |Apply(w, step).cells| && Retired(Apply(w, step), r)
  {
    hide RetiredAreEmpty, JobsAreRegistered, RegisteredAreJobs, OpenAreListed, StoredAreOpen;
  }

  lemma {:induction false} RetiredStaysEmpty(worlds: seq<World>, steps: seq<Step>, i: nat, j: nat, r: nat)
    requires IsRun(worlds, steps) && i <= j < |worlds| && r < |worlds[i].cells| && Retired(worlds[i], r)
    ensures r < |worlds[j].cells| && Retired(worlds[j], r) && worlds[j].cells[r].registry == map[]
    decreases j
  {
    hide Apply, Enabled, Retired;
    Reachable(worlds, steps, j);
    if i == j {
    } else {
      RetiredStaysEmpty(worlds, steps, i, j - 1, r);
      Reachable(worlds, steps, j - 1);
      assert Enabled(worlds[j - 1], steps[j - 1]);
      RetiredForGood(worlds[j - 1], steps[j - 1], r);
    }
  }

  // What IsEmpty looks at, in one moment.
  predicate AllStoredEmpty(w: World)
    requires InTable(w)
  {
    forall ref :: ref in w.registryOf ==> w.cells[w.registryOf[ref]].registry == map[]
  }

  lemma StoredEmptyMeansIdle(w: World)
    requires Invariant(w)
    ensures AllStoredEmpty(w) <==> w.executing == {}
  {
    hide OpenAreListed, StoredAreOpen;
    if w.executing != {} {
      var j :| j in w.executing;
      assert !Retired(w, w.brokers[j.broker].registry);
    }
    if !AllStoredEmpty(w) {
      var ref :| ref in w.registryOf && w.cells[w.registryOf[ref]].registry != map[];
      var request :| request in w.cells[w.registryOf[ref]].registry;
      assert HasJob(w, w.registryOf[ref], request);
    }
  }

  // Nothing that runs is ever lost: the stored registries are empty exactly when
  // no broker ever created has a transcript still executing.
  lemma NothingIsLost(worlds: seq<World>, steps: seq<Step>, i: nat)
    requires IsRun(worlds, steps) && i < |worlds|
    ensures InTable(worlds[i]) && (AllStoredEmpty(worlds[i]) <==> worlds[i].executing == {})
  {
    hide Apply, Enabled, OpenAreListed, StoredAreOpen, RetiredAreEmpty, JobsAreRegistered, RegisteredAreJobs;
    Reachable(worlds, steps, i);
    StoredEmptyMeansIdle(worlds[i]);
  }
}
