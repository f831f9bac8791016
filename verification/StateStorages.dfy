// The table of brokers and execution registries of one node
// (logicrunner/statestorage.go), method by method.
module StateStorages {
  import opened Collections
  import opened References
  import opened ExecutionRegistries
  import opened Broker
  import opened ExecutionBrokers

  datatype Payload = Results(results: ExecutorResults) | Executing(executing: StillExecuting)

  function Reports(results: seq<ExecutorResults>): (payloads: seq<Payload>)
    ensures |payloads| == |results| && forall i :: 0 <= i < |results| ==> payloads[i] == Results(results[i])
  {
    if results == [] then [] else Reports(results[..|results| - 1]) + [Results(results[|results| - 1])]
  }

  // What a registry contributes to the messages of a pulse.
  predicate Announcement(ref: Reference, me: Reference, registry: Registry, payloads: seq<Payload>) {
    if registry == map[] then payloads == []
    else |payloads| == 1 && payloads[0].Executing? && payloads[0].executing.objectRef == ref
         && payloads[0].executing.executor == me
         && multiset(payloads[0].executing.requestRefs) == multiset(registry.Keys)
  }

  predicate Extends(ref: Reference, me: Reference, registry: Registry, before: seq<Payload>, after: seq<Payload>) {
    before <= after && Announcement(ref, me, registry, after[|before|..])
  }

  // The registries a pulse keeps.
  function Survivors(registries: map<Reference, ExecutionRegistry>): map<Reference, ExecutionRegistry>
    reads registries.Values
  {
    map ref | ref in registries && registries[ref].registry != map[] :: registries[ref]
  }

  function Messages(m: map<Reference, seq<Payload>>, ref: Reference): seq<Payload> {
    if ref in m then m[ref] else []
  }

  class StateStorage {
    const me: Reference
    var brokers: map<Reference, ExecutionBroker>
    var registries: map<Reference, ExecutionRegistry>

    constructor (self: Reference)
      ensures me == self && Valid() && brokers == map[] && registries == map[]
    {
      me := self;
      brokers, registries := map[], map[];
    }

    // Every broker works on the registry stored for its object, and was not closed.
    predicate Valid()
      reads this, brokers.Values
    {
      && (forall ref :: ref in registries ==> registries[ref].objectRef == ref)
      && (forall ref :: ref in brokers ==>
            brokers[ref].ref == ref && ref in registries && brokers[ref].executionRegistry == registries[ref]
            && brokers[ref].Valid() && !brokers[ref].closed)
    }

    method UpsertExecutionRegistry(ref: Reference) returns (registry: ExecutionRegistry)
      requires Valid()
      modifies this`registries
      ensures Valid() && registries == Upserted(old(registries), ref, registry)
      ensures if ref in old(registries) then registry == old(registries)[ref]
                else fresh(registry) && registry.registry == map[]
    {
      if ref in registries {
        return registries[ref];
      }
      registry := new ExecutionRegistry(ref);
      registries := registries[ref := registry];
    }

    method UpsertExecutionState(ref: Reference) returns (broker: ExecutionBroker)
      requires Valid()
      modifies this
      ensures Valid() && brokers == Upserted(old(brokers), ref, broker)
      ensures ref in registries && registries == Upserted(old(registries), ref, registries[ref])
      ensures ref in old(registries) ==> registries[ref] == old(registries)[ref]
      ensures ref !in old(registries) ==> fresh(registries[ref]) && registries[ref].registry == map[]
      ensures if ref in old(brokers) then broker == old(brokers)[ref] else fresh(broker) && broker.State() == NEW_BROKER
    {
      if ref in brokers {
        return brokers[ref];
      }
      var registry := UpsertExecutionRegistry(ref);
      broker := new ExecutionBroker(ref, registry);
      brokers := brokers[ref := broker];
    }

    method GetExecutionState(ref: Reference) returns (broker: ExecutionBroker?)
      ensures broker == if ref in brokers then brokers[ref] else null
    {
      return if ref in brokers then brokers[ref] else null;
    }

    method GetExecutionRegistry(ref: Reference) returns (registry: ExecutionRegistry?)
      ensures registry == if ref in registries then registries[ref] else null
    {
      return if ref in registries then registries[ref] else null;
    }

    method IsEmpty() returns (empty: bool)
      requires Valid()
      ensures empty <==> forall ref :: ref in registries ==> registries[ref].registry == map[]
    {
      if |brokers| == 0 && |registries| == 0 {
        return true;
      }
      var left := registries.Keys;
      while left != {}
        invariant left <= registries.Keys
        invariant forall ref :: ref in registries && ref !in left ==> registries[ref].registry == map[]
        decreases left
      {
        var ref :| ref in left;
        left := left - {ref};
        var quiet := registries[ref].IsEmpty();
        if !quiet {
          return false;
        }
      }
      return true;
    }

    // Ends the pulse of every broker, then forgets the registries that are empty.
    method OnPulse() returns (messages: map<Reference, seq<Payload>>)
      requires Valid()
      modifies this, brokers.Values
      ensures Valid() && brokers == map[] && registries == Survivors(old(registries))
      ensures forall ref :: ref in registries <==> ref in old(registries) && old(registries)[ref].registry != map[]
      ensures forall ref :: ref in registries ==> registries[ref] == old(registries)[ref]
      ensures registries == map[] <==> forall ref :: ref in old(registries) ==> old(registries)[ref].registry == map[]
      ensures forall ref :: ref in old(brokers) ==> old(brokers)[ref].closed
      ensures forall ref :: ref in old(brokers) ==>
                old(brokers)[ref].State() == Broker.OnPulse(old(brokers[ref].State()), old(registries)[ref].registry)
      ensures forall ref :: ref in messages ==> ref in old(registries)
      ensures forall ref :: ref in old(registries) ==>
                Extends(ref, me, old(registries)[ref].registry,
                        if ref in old(brokers)
                        then Reports(PulseMessages(ref, old(brokers[ref].State()), old(registries)[ref].registry))
                        else [],
                        Messages(messages, ref))
    {
      hide Reports, Announcement, PulseMessages, Broker.OnPulse, Extends, ExecutionBroker.State, Survivors;
      var oldBrokers := brokers;
      brokers := map[];
      var reports := CloseBrokers(oldBrokers);
      messages := RetireRegistries(reports);
      SurvivorsAreBusy(old(registries));
      forall ref | ref in oldBrokers ensures oldBrokers[ref].closed { PulseCloses(oldBrokers[ref]); }
    }

    // A registry is kept exactly if something executes.
    lemma SurvivorsAreBusy(all: map<Reference, ExecutionRegistry>)
      ensures forall ref :: ref in Survivors(all) <==> ref in all && all[ref].registry != map[]
      ensures forall ref :: ref in Survivors(all) ==> Survivors(all)[ref] == all[ref]
      ensures Survivors(all) == map[] <==> forall ref :: ref in all ==> all[ref].registry == map[]
    {
      if Survivors(all) != map[] {
        var ref :| ref in Survivors(all);
        assert all[ref].registry != map[];
      }
      if ref :| ref in all && all[ref].registry != map[] {
        assert ref in Survivors(all);
      }
    }

    twostate lemma PulseCloses(b: ExecutionBroker)
      requires b.State() == Broker.OnPulse(old(b.State()), b.executionRegistry.registry)
      ensures b.closed
    {
    }

    method CloseBrokers(oldBrokers: map<Reference, ExecutionBroker>) returns (messages: map<Reference, seq<Payload>>)
      requires forall ref :: ref in oldBrokers ==>
                 oldBrokers[ref].ref == ref && oldBrokers[ref].Valid() && ref in registries
                 && oldBrokers[ref].executionRegistry == registries[ref]
      modifies oldBrokers.Values
      ensures forall ref :: ref in oldBrokers ==>
                var b := oldBrokers[ref];
                b.State() == Broker.OnPulse(old(b.State()), b.executionRegistry.registry)
                && Messages(messages, ref) == Reports(PulseMessages(ref, old(b.State()), b.executionRegistry.registry))
      ensures forall ref :: ref in messages ==> ref in oldBrokers
    {
      hide Broker.OnPulse, PulseMessages, ExecutionBroker.State;
      messages := map[];
      var left := oldBrokers.Keys;
      while left != {}
        invariant left <= oldBrokers.Keys
        invariant forall ref :: ref in left ==> ref !in messages && unchanged(oldBrokers[ref])
        invariant forall ref :: ref in messages ==> ref in oldBrokers
        invariant forall ref :: ref in oldBrokers && ref !in left ==>
                    var b := oldBrokers[ref];
                    b.State() == Broker.OnPulse(old(b.State()), b.executionRegistry.registry)
                    && Messages(messages, ref)
                       == Reports(PulseMessages(ref, old(b.State()), b.executionRegistry.registry))
        decreases left
      {
        var ref :| ref in left;
        left := left - {ref};
        var results := oldBrokers[ref].OnPulse();
        if |results| > 0 {
          messages := messages[ref := Reports(results)];
        }
      }
    }

    method RetireRegistries(reports: map<Reference, seq<Payload>>) returns (messages: map<Reference, seq<Payload>>)
      requires forall ref :: ref in registries ==> registries[ref].objectRef == ref
      requires forall ref :: ref in reports ==> ref in registries
      modifies this`registries
      ensures registries == Survivors(old(registries))
      ensures forall ref :: ref in registries <==> ref in old(registries) && old(registries)[ref].registry != map[]
      ensures forall ref :: ref in messages ==> ref in old(registries)
      ensures forall ref :: ref in old(registries) ==>
                Extends(ref, me, old(registries)[ref].registry, Messages(reports, ref), Messages(messages, ref))
    {
      hide Extends, Messages;
      messages := reports;
      var all := registries;
      var left := all.Keys;
      while left != {}
        invariant left <= all.Keys
        invariant forall ref :: ref in messages ==> ref in all
        invariant registries == map ref | ref in all && (ref in left || all[ref].registry != map[]) :: all[ref]
        invariant forall ref :: ref in left ==> Messages(messages, ref) == Messages(reports, ref)
        invariant forall ref :: ref in all && ref !in left ==>
                    Extends(ref, me, all[ref].registry, Messages(reports, ref), Messages(messages, ref))
        decreases left
      {
        var ref :| ref in left;
        left := left - {ref};
        messages := Announce(ref, all[ref], messages);
        var empty := all[ref].IsEmpty();
        if empty {
          registries := registries - {ref};
        }
      }
    }

    // Appends the messages of one registry to those of its object.
    method Announce(ref: Reference, registry: ExecutionRegistry, reports: map<Reference, seq<Payload>>)
      returns (messages: map<Reference, seq<Payload>>)
      requires registry.objectRef == ref
      ensures Extends(ref, me, registry.registry, Messages(reports, ref), Messages(messages, ref))
      ensures forall other :: other != ref ==> Messages(messages, other) == Messages(reports, other)
      ensures forall other :: other in messages ==> other == ref || other in reports
    {
      var stillExecuting := registry.OnPulse(me);
      messages := reports;
      if |stillExecuting| > 0 {
        messages := messages[ref := Messages(messages, ref) + [Executing(stillExecuting[0])]];
      }
    }
  }
}
