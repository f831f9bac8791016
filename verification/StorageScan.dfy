// IsEmpty as the loop it is: it looks at one registry after another while
// transcripts start and finish, so its answer can be out of date when it comes.
// Here is exactly when it cannot.
module StorageScan {
  import opened References
  import opened ExecutionRegistries
  import opened Broker
  import opened StorageSystem

  predicate AllClosed(w: World) {
    forall b :: 0 <= b < |w.brokers| ==> w.brokers[b].q.closed
  }

  // A scan may start.
  predicate Unlocked(w: World) {
    w.pulse == NoPulse && w.scan == NoScan
  }

  predicate Leads(w: World, steps: seq<Step>, t: World)
    decreases |steps|
  {
    if steps == [] then t == w
    else InTable(w) && Enabled(w, steps[0]) && Leads(Apply(w, steps[0]), steps[1..], t)
  }

  // The rest of one call of IsEmpty that returns true, with whatever else happens meanwhile.
  predicate RestOfScan(steps: seq<Step>) {
    && steps != [] && steps[|steps| - 1] == ScanSaysEmpty
    && forall k :: 0 <= k < |steps| - 1 ==> steps[k] != StartScan && steps[k] != ScanStops && steps[k] != ScanSaysEmpty
  }

  predicate SaysEmpty(w: World, steps: seq<Step>, t: World) {
    |steps| > 1 && steps[0] == StartScan && RestOfScan(steps[1..]) && Leads(w, steps, t)
  }

  // ----- With every broker closed nothing starts, and what was seen empty stays empty

  predicate Settled(w: World)
    requires InTable(w)
  {
    && w.scan.Scanning? && w.pulse == NoPulse && AllClosed(w)
    && forall ref :: ref in w.registryOf && ref !in w.scan.unseen ==> w.cells[w.registryOf[ref]].registry == map[]
  }

  lemma SettledPreserved(w: World, step: Step)
    requires Invariant(w) && Settled(w) && Enabled(w, step) && step != ScanStops && step != ScanSaysEmpty
    ensures InTable(Apply(w, step)) && Settled(Apply(w, step))
  {
    hide OpenAreListed, StoredAreOpen, RetiredAreEmpty, JobsAreRegistered, RegisteredAreJobs;
    TablePreserved(w, step);
  }

  lemma {:induction false} SettledScan(w: World, steps: seq<Step>, t: World)
    requires Invariant(w) && Settled(w) && RestOfScan(steps) && Leads(w, steps, t)
    ensures t.executing == {}
    decreases |steps|
  {
    hide Settled, Apply;
    InvariantPreserved(w, steps[0]);
    if |steps| == 1 {
      LastLook(w, t);
    } else {
      SettledPreserved(w, steps[0]);
      SettledScan(Apply(w, steps[0]), steps[1..], t);
    }
  }

  lemma LastLook(w: World, t: World)
    requires Invariant(w) && Settled(w) && Enabled(w, ScanSaysEmpty) && t == Apply(w, ScanSaysEmpty)
    ensures t.executing == {}
  {
    StoredEmptyMeansIdle(w);
  }

  // ----- With a broker open the scan can miss what starts behind its back

  lemma {:induction false} MissedStart(w: World, b: nat) returns (steps: seq<Step>, t: World)
    requires Invariant(w) && w.scan.Scanning? && w.pulse == NoPulse && w.scan.unseen <= w.registryOf.Keys
    requires b < |w.brokers| && !w.brokers[b].q.closed
    ensures RestOfScan(steps) && Leads(w, steps, t) && t.executing != {}
    decreases |w.executing|, |w.scan.unseen|
  {
    hide Apply, Enabled, Invariant, Leads, RestOfScan;
    var step;
    if w.executing != {} {
      var j :| j in w.executing;
      step := Finish(j.broker, Transcript(j.requestRef, false));
      FinishStep(w, j);
      InvariantPreserved(w, step);
      steps, t := MissedStart(Apply(w, step), b);
    } else if w.scan.unseen != {} {
      var ref :| ref in w.scan.unseen;
      step := Look(ref);
      LookStep(w, ref);
      InvariantPreserved(w, step);
      steps, t := MissedStart(Apply(w, step), b);
    } else {
      step := Register(b, Transcript(Reference(EMPTY_LOCAL, EMPTY_LOCAL), false));
      LateStart(w, b, step.transcript);
      t := Apply(Apply(w, step), ScanSaysEmpty);
      LastStep(Apply(w, step));
      steps := [ScanSaysEmpty];
    }
    Prepend(w, step, steps, t);
    steps := [step] + steps;
  }

  // One more step before the rest of a scan.
  lemma Prepend(w: World, step: Step, steps: seq<Step>, t: World)
    requires InTable(w) && Enabled(w, step) && step != StartScan && step != ScanStops && step != ScanSaysEmpty
    requires RestOfScan(steps) && Leads(Apply(w, step), steps, t)
    ensures RestOfScan([step] + steps) && Leads(w, [step] + steps, t)
  {
    hide Apply, Enabled;
    assert ([step] + steps)[1..] == steps;
  }

  lemma LastStep(w: World)
    requires InTable(w) && Enabled(w, ScanSaysEmpty)
    ensures RestOfScan([ScanSaysEmpty]) && Leads(w, [ScanSaysEmpty], Apply(w, ScanSaysEmpty))
  {
    assert [ScanSaysEmpty][1..] == [];
  }

  lemma FinishStep(w: World, j: Job)
    requires Invariant(w) && j in w.executing
    ensures var step := Finish(j.broker, Transcript(j.requestRef, false));
            && InTable(w) && Enabled(w, step)
            && var t := Apply(w, step);
               t.executing == w.executing - {j} && t.brokers == w.brokers && t.registryOf == w.registryOf
               && t.scan == w.scan && t.pulse == w.pulse
  {
  }

  lemma LookStep(w: World, ref: Reference)
    requires Invariant(w) && w.executing == {} && w.scan.Scanning? && ref in w.scan.unseen && ref in w.registryOf
    ensures InTable(w) && Enabled(w, Look(ref)) && Apply(w, Look(ref)) == w.(scan := Scanning(w.scan.unseen - {ref}))
  {
    StoredEmptyMeansIdle(w);
  }

  lemma ActiveMeansJobs(w: World, r: nat)
    requires Invariant(w) && r < |w.cells| && IsActive(w.cells[r].registry)
    ensures w.executing != {}
  {
    var request :| request in w.cells[r].registry;
    assert HasJob(w, r, request);
  }

  lemma LateStart(w: World, b: nat, transcript: Transcript)
    requires Invariant(w) && w.executing == {} && w.scan == Scanning({})
    requires b < |w.brokers| && !w.brokers[b].q.closed
    ensures InTable(w) && Enabled(w, Register(b, transcript))
    ensures var v := Apply(w, Register(b, transcript));
            InTable(v) && Enabled(v, ScanSaysEmpty)
            && Apply(v, ScanSaysEmpty).executing == v.executing == {Job(b, transcript.requestRef)}
  {
    if IsActive(RegistryOf(w, b)) { ActiveMeansJobs(w, w.brokers[b].registry); }
    TablePreserved(w, Register(b, transcript));
  }

  // Between pulses the brokers of the table are the open ones.
  lemma NoneStoredMeansAllClosed(w: World)
    requires Invariant(w) && w.pulse == NoPulse
    ensures AllClosed(w) <==> w.brokerOf == map[]
  {
    hide RetiredAreEmpty, JobsAreRegistered, RegisteredAreJobs;
    if !AllClosed(w) {
      var b :| 0 <= b < |w.brokers| && !w.brokers[b].q.closed;
      assert Listed(w, b);
    }
    if w.brokerOf != map[] {
      var ref :| ref in w.brokerOf;
      assert !w.brokers[w.brokerOf[ref]].q.closed;
    }
  }

  // The answer "empty" can be relied on exactly when the table held no broker at the start.
  lemma EmptyIsReliable(w: World)
    requires Invariant(w) && Unlocked(w)
    ensures (forall steps, t :: SaysEmpty(w, steps, t) ==> t.executing == {}) <==> w.brokerOf == map[]
  {
    hide Leads, RestOfScan, Apply, Enabled, Invariant;
    NoneStoredMeansAllClosed(w);
    ScanStarts(w);
    var v := Apply(w, StartScan);
    InvariantPreserved(w, StartScan);
    if AllClosed(w) {
      forall steps, t | SaysEmpty(w, steps, t) ensures t.executing == {} {
        assert Leads(v, steps[1..], t) by { FirstStep(w, steps, t); }
        SettledScan(v, steps[1..], t);
      }
    } else {
      var b :| 0 <= b < |w.brokers| && !w.brokers[b].q.closed;
      var rest, t := MissedStart(v, b);
      var steps := [StartScan] + rest;
      assert steps[1..] == rest;
      FirstStep(w, steps, t);
      assert SaysEmpty(w, steps, t) by { assert rest != [] by { NonEmpty(rest); } }
    }
  }

  // The table after the first request for a broker.
  function OneBroker(ref: Reference, registry: Registry, scan: ScanPc, executing: set<Job>): World {
    World([RegistryCell(ref, registry)], [BrokerCell(ref, 0, NEW_BROKER)], map[ref := 0], map[ref :=
        0], NoPulse, scan, executing)
  }

  lemma ScanOfOneBroker(ref: Reference)
    ensures var w0 := World([], [], map[], map[], NoPulse, NoScan, {});
            InTable(w0) && Enabled(w0, Upsert(ref)) && Apply(w0, Upsert(ref)) == OneBroker(ref, map[], NoScan, {})
    ensures var w1 := OneBroker(ref, map[], NoScan, {});
            InTable(w1) && Enabled(w1, StartScan) && Apply(w1, StartScan) == OneBroker(ref, map[], Scanning({ref}), {})
    ensures var w2 := OneBroker(ref, map[], Scanning({ref}), {});
            InTable(w2) && Enabled(w2, Look(ref)) && Apply(w2, Look(ref)) == OneBroker(ref, map[], Scanning({}), {})
  {
    assert (map[ref := 0]).Keys == {ref};
    assert {ref} - {ref} == {};
  }

  lemma StartBehindTheScan(ref: Reference, transcript: Transcript)
    ensures var w := OneBroker(ref, map[], Scanning({}), {});
            var late := map[transcript.requestRef := transcript];
            var jobs := {Job(0, transcript.requestRef)};
            && InTable(w) && Enabled(w, Register(0, transcript))
            && Apply(w, Register(0, transcript)) == OneBroker(ref, late, Scanning({}), jobs)
            && InTable(OneBroker(ref, late, Scanning({}), jobs))
            && Enabled(OneBroker(ref, late, Scanning({}), jobs), ScanSaysEmpty)
            && Apply(OneBroker(ref, late, Scanning({}), jobs), ScanSaysEmpty) == OneBroker(ref, late, NoScan, jobs)
  {
    assert {} + {Job(0, transcript.requestRef)} == {Job(0, transcript.requestRef)};
  }

  // A run from the empty table in which the answer is wrong when it comes.
  lemma MissedInARun(ref: Reference, transcript: Transcript) returns (worlds: seq<World>, steps: seq<Step>)
    ensures steps == [Upsert(ref), StartScan, Look(ref), Register(0, transcript), ScanSaysEmpty]
    ensures IsRun(worlds, steps) && worlds[5].executing == {Job(0, transcript.requestRef)}
  {
    hide Apply, Enabled, InTable;
    var late, jobs := map[transcript.requestRef := transcript], {Job(0, transcript.requestRef)};
    steps := [Upsert(ref), StartScan, Look(ref), Register(0, transcript), ScanSaysEmpty];
    worlds := [World([], [], map[], map[], NoPulse, NoScan, {}),
               OneBroker(ref, map[], NoScan, {}), OneBroker(ref, map[], Scanning({ref}), {}),
               OneBroker(ref, map[], Scanning({}), {}), OneBroker(ref, late, Scanning({}), jobs),
               OneBroker(ref, late, NoScan, jobs)];
    ScanOfOneBroker(ref);
    StartBehindTheScan(ref, transcript);
  }

  lemma NonEmpty(steps: seq<Step>)
    requires RestOfScan(steps)
    ensures steps != []
  {
  }

  lemma FirstStep(w: World, steps: seq<Step>, t: World)
    requires InTable(w) && steps != [] && Enabled(w, steps[0])
    ensures Leads(w, steps, t) <==> Leads(Apply(w, steps[0]), steps[1..], t)
  {
  }

  lemma ScanStarts(w: World)
    requires Invariant(w) && Unlocked(w)
    ensures InTable(w) && Enabled(w, StartScan)
    ensures var v := Apply(w, StartScan);
            v == w.(scan := Scanning(w.registryOf.Keys)) && InTable(v) && (AllClosed(w) ==> Settled(v))
  {
  }
}
