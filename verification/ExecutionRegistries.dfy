// The transcripts of one object that are executing right now
// (logicrunner/executionregistry/execution_registry.go).
module ExecutionRegistries {
  import opened References

  datatype Transcript = Transcript(requestRef: Reference, immutable: bool)

  datatype StillExecuting = StillExecuting(objectRef: Reference, executor: Reference, requestRefs: seq<Reference>)

  type Registry = map<Reference, Transcript>

  class ExecutionRegistry {
    const objectRef: Reference
    var registry: Registry

    constructor (ref: Reference)
      ensures objectRef == ref && registry == map[]
    {
      objectRef, registry := ref, map[];
    }

    method Length() returns (n: nat)
      ensures n == |registry.Keys|
    {
      n := |registry|;
    }

    method IsEmpty() returns (empty: bool)
      ensures empty <==> registry == map[]
    {
      var n := Length();
      empty := n == 0;
    }

    // ok is false for ErrAlreadyRegistered.
    method Register(transcript: Transcript) returns (ok: bool)
      modifies this
      ensures ok <==> transcript.requestRef !in old(registry)
      ensures registry == if ok then old(registry)[transcript.requestRef := transcript] else old(registry)
    {
      if transcript.requestRef in registry {
        return false;
      }
      registry := registry[transcript.requestRef := transcript];
      return true;
    }

    method Done(transcript: Transcript) returns (done: bool)
      modifies this
      ensures done <==> transcript.requestRef in old(registry)
      ensures registry == old(registry) - {transcript.requestRef}
    {
      if transcript.requestRef !in registry {
        assert registry - {transcript.requestRef} == registry;
        return false;
      }
      registry := registry - {transcript.requestRef};
      return true;
    }

    // At most one StillExecuting message, naming every registered request once.
    method OnPulse(me: Reference) returns (messages: seq<StillExecuting>)
      ensures registry == map[] ==> messages == []
      ensures registry != map[] ==>
                |messages| == 1 && messages[0].objectRef == objectRef && messages[0].executor == me
                && multiset(messages[0].requestRefs) == multiset(registry.Keys)
    {
      messages := [];
      if |registry| != 0 {
        var requestRefs: seq<Reference>, left := [], registry.Keys;
        while left != {}
          invariant left <= registry.Keys
          invariant multiset(requestRefs) + multiset(left) == multiset(registry.Keys)
          decreases left
        {
          var requestRef :| requestRef in left;
          requestRefs, left := requestRefs + [requestRef], left - {requestRef};
        }
        messages := [StillExecuting(objectRef, me, requestRefs)];
      }
    }
  }
}
