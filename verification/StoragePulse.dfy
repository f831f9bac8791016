// The end of a pulse as the two loops of the machine, with nothing in between:
// where it ends is where the method StateStorage.OnPulse ends.
module StoragePulse {
  import opened References
  import opened Broker
  import opened StorageSystem
  import opened StorageScan

  predicate IsPulseStep(step: Step) {
    step == StartPulse || step.Close? || step == StartRetiring || step.Inspect? || step == Delete || step == EndPulse
  }

  // The rest of a pulse, up to its end.
  predicate RestOfPulse(steps: seq<Step>) {
    && steps != [] && steps[|steps| - 1] == EndPulse
    && forall k :: 0 <= k < |steps| - 1 ==> IsPulseStep(steps[k]) && steps[k] != StartPulse && steps[k] != EndPulse
  }

  predicate Busy(w: World, ref: Reference)
    requires InTable(w)
  {
    ref in w.registryOf && w.cells[w.registryOf[ref]].registry != map[]
  }

  // The broker was stored when the pulse began.
  predicate WasStored(w0: World, b: nat)
    requires b < |w0.brokers|
  {
    var ref := w0.brokers[b].objectRef; ref in w0.brokerOf && w0.brokerOf[ref] == b
  }

  // The brokers stored at the beginning have ended their pulse, except those of
  // the given objects; all others are as they were.
  predicate Closed(w0: World, w: World, except: set<Reference>)
    requires InTable(w0)
  {
    && |w.brokers| == |w0.brokers|
    && forall b :: 0 <= b < |w0.brokers| ==>
         w.brokers[b] ==
         if WasStored(w0, b) && w0.brokers[b].objectRef !in except
         then w0.brokers[b].(q := Broker.OnPulse(w0.brokers[b].q, RegistryOf(w0, b)))
         else w0.brokers[b]
  }

  // The registries stored at the beginning are still stored if they are busy, or
  // among the given ones.
  ghost predicate Kept(w0: World, w: World, left: set<Reference>)
    requires InTable(w0)
  {
    && (forall ref :: ref in w.registryOf <==> ref in w0.registryOf && (ref in left || Busy(w0, ref)))
    && (forall ref :: ref in w.registryOf ==> w.registryOf[ref] == w0.registryOf[ref])
  }

  // A state within the pulse that began at w0.
  ghost predicate Midway(w0: World, w: World)
    requires InTable(w0)
  {
    && w.cells == w0.cells && w.executing == w0.executing && w.scan == NoScan && w.brokerOf == map[]
    && match w.pulse
       case NoPulse => false
       case Closing(unclosed) =>
         && w.registryOf == w0.registryOf && Closed(w0, w, unclosed.Keys)
         && forall ref :: ref in unclosed ==> ref in w0.brokerOf && unclosed[ref] == w0.brokerOf[ref]
       case Retiring(left) => Closed(w0, w, {}) && Kept(w0, w, left) && left <= w0.registryOf.Keys
       case Deleting(left, ref) =>
         && Closed(w0, w, {}) && Kept(w0, w, left + {ref}) && left <= w0.registryOf.Keys
         && ref in w0.registryOf && ref !in left && !Busy(w0, ref)
  }

  // Where the method ends: no brokers, the busy registries, and every broker that
  // was stored closed with its report.
  ghost predicate Ended(w0: World, w: World)
    requires InTable(w0)
  {
    && w.pulse == NoPulse && w.scan == NoScan && w.brokerOf == map[]
    && w.cells == w0.cells && w.executing == w0.executing
    && (forall ref :: ref in w.registryOf <==> Busy(w0, ref))
    && (forall ref :: ref in w.registryOf ==> w.registryOf[ref] == w0.registryOf[ref])
    && Closed(w0, w, {})
  }

  lemma PulseBegins(w0: World)
    requires Invariant(w0) && Unlocked(w0)
    ensures InTable(w0) && Enabled(w0, StartPulse) && Midway(w0, Apply(w0, StartPulse))
  {
    hide RetiredAreEmpty, JobsAreRegistered, RegisteredAreJobs, RegistryOf;
  }

  lemma CloseStep(w0: World, w: World, ref: Reference)
    requires Invariant(w0) && InTable(w) && Midway(w0, w) && Enabled(w, Close(ref))
    ensures Midway(w0, Apply(w, Close(ref)))
  {
    hide RetiredAreEmpty, JobsAreRegistered, RegisteredAreJobs, Listed, Broker.OnPulse, Busy, Kept, OpenAreListed;
    var t := Apply(w, Close(ref));
    var b := w.pulse.unclosed[ref];
    assert w0.brokers[b].objectRef == ref;
    assert RegistryOf(w, b) == RegistryOf(w0, b);
    assert Closed(w0, t, t.pulse.unclosed.Keys);
  }

  lemma RetireStep(w0: World, w: World, step: Step)
    requires Invariant(w0) && InTable(w) && Midway(w0, w) && Enabled(w, step)
    requires step == StartRetiring || step.Inspect? || step == Delete
    ensures Midway(w0, Apply(w, step))
  {
    hide OpenAreListed, StoredAreOpen, RetiredAreEmpty, JobsAreRegistered, RegisteredAreJobs, RegistryOf,
         Broker.OnPulse;
  }

  lemma EndStep(w0: World, w: World)
    requires Invariant(w0) && InTable(w) && Midway(w0, w) && Enabled(w, EndPulse)
    ensures Ended(w0, Apply(w, EndPulse))
  {
    hide OpenAreListed, StoredAreOpen, RetiredAreEmpty, JobsAreRegistered, RegisteredAreJobs, RegistryOf,
         Broker.OnPulse;
  }

  lemma {:induction false} RestEnds(w0: World, w: World, steps: seq<Step>, t: World)
    requires Invariant(w0) && Invariant(w) && Midway(w0, w) && RestOfPulse(steps) && Leads(w, steps, t)
    ensures Ended(w0, t)
    decreases |steps|
  {
    hide Invariant, Midway, Ended, Apply, Enabled;
    var step := steps[0];
    InTableOf(w0);
    InTableOf(w);
    InvariantPreserved(w, step);
    if |steps| == 1 {
      EndStep(w0, w);
    } else {
      if step.Close? { CloseStep(w0, w, step.ref); } else { RetireStep(w0, w, step); }
      RestEnds(w0, Apply(w, step), steps[1..], t);
    }
  }

  lemma InTableOf(w: World)
    requires Invariant(w)
    ensures InTable(w)
  {
  }

  // A pulse with nothing in between ends where the method OnPulse does.
  lemma PulseEnds(w0: World, steps: seq<Step>, t: World)
    requires Invariant(w0) && Unlocked(w0)
    requires steps != [] && steps[0] == StartPulse && RestOfPulse(steps[1..]) && Leads(w0, steps, t)
    ensures InTable(w0) && Ended(w0, t)
  {
    hide Invariant, Midway, Ended, Apply, Enabled;
    PulseBegins(w0);
    InvariantPreserved(w0, StartPulse);
    RestEnds(w0, Apply(w0, StartPulse), steps[1..], t);
  }

  // And there always is such a pulse.
  lemma {:induction false} RestExists(w0: World, w: World) returns (steps: seq<Step>, t: World)
    requires Invariant(w0) && Invariant(w) && Midway(w0, w)
    ensures RestOfPulse(steps) && Leads(w, steps, t)
    decreases Phase(w.pulse), Work(w.pulse)
  {
    hide Invariant, Midway, Apply, Enabled, RestOfPulse, Leads;
    InTableOf(w0);
    InTableOf(w);
    var step := NextPulseStep(w0, w);
    InvariantPreserved(w, step);
    if step == EndPulse {
      t := Apply(w, EndPulse);
      steps := [];
      LastPulseStep(w);
      return [EndPulse], t;
    }
    if step.Close? { CloseStep(w0, w, step.ref); } else { RetireStep(w0, w, step); }
    steps, t := RestExists(w0, Apply(w, step));
    PrependPulse(w, step, steps, t);
    steps := [step] + steps;
  }

  function Phase(pulse: PulsePc): nat {
    if pulse.Closing? then 1 else 0
  }

  function Work(pulse: PulsePc): nat {
    match pulse
    case NoPulse => 0
    case Closing(unclosed) => |unclosed|
    case Retiring(left) => 2 * |left|
    case Deleting(left, _) => 2 * |left| + 1
  }

  lemma NextPulseStep(w0: World, w: World) returns (step: Step)
    requires InTable(w0) && InTable(w) && Midway(w0, w)
    ensures Enabled(w, step) && IsPulseStep(step) && step != StartPulse
    ensures step != EndPulse ==>
              var pulse := Apply(w, step).pulse;
              Phase(pulse) < Phase(w.pulse) || (Phase(pulse) == Phase(w.pulse) && Work(pulse) < Work(w.pulse))
  {
    hide Closed, Kept, Busy, RegistryOf, Broker.OnPulse, ApplyUpsert, MayProcess, InTable;
    LeftAreStored(w0, w);
    match w.pulse
    case Closing(unclosed) =>
      if unclosed == map[] {
        step := StartRetiring;
      } else {
        var ref :| ref in unclosed;
        OneLess(unclosed, ref);
        step := Close(ref);
      }
    case Retiring(left) =>
      if left == {} {
        step := EndPulse;
      } else {
        var ref :| ref in left;
        step := Inspect(ref);
      }
    case Deleting(_, _) => step := Delete;
  }

  lemma OneLess(unclosed: map<Reference, nat>, ref: Reference)
    requires ref in unclosed
    ensures |unclosed - {ref}| == |unclosed| - 1
  {
    assert (unclosed - {ref}).Keys == unclosed.Keys - {ref};
  }

  lemma LeftAreStored(w0: World, w: World)
    requires InTable(w0) && Midway(w0, w)
    ensures w.pulse.Retiring? ==> w.pulse.left <= w.registryOf.Keys
  {
    hide Closed, Busy, RegistryOf, Broker.OnPulse;
  }

  lemma LastPulseStep(w: World)
    requires InTable(w) && Enabled(w, EndPulse)
    ensures RestOfPulse([EndPulse]) && Leads(w, [EndPulse], Apply(w, EndPulse))
  {
    assert [EndPulse][1..] == [];
  }

  lemma PrependPulse(w: World, step: Step, steps: seq<Step>, t: World)
    requires InTable(w) && Enabled(w, step) && IsPulseStep(step) && step != StartPulse && step != EndPulse
    requires RestOfPulse(steps) && Leads(Apply(w, step), steps, t)
    ensures RestOfPulse([step] + steps) && Leads(w, [step] + steps, t)
  {
    hide Apply, Enabled;
    assert ([step] + steps)[1..] == steps;
  }
}
