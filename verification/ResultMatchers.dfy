// The matcher as the object of logicrunner/result_matcher.go. A ghost record of
// the events ties it to the runs of module Matching.
module ResultMatchers {
  import opened References
  import opened Matching

  function Announcements(requestRefs: seq<Reference>, executor: Reference): (es: seq<Event>)
    ensures |es| == |requestRefs| && forall i :: 0 <= i < |es| ==> es[i] == Announce(requestRefs[i], executor)
  {
    if requestRefs == [] then []
    else
      var last := |requestRefs| - 1;
      Announcements(requestRefs[..last], executor) + [Announce(requestRefs[last], executor)]
  }

  // The announced requests have this executor, all others the one they had.
  ghost predicate NodesAfter(before: map<Reference, Reference>, refs: seq<Reference>, executor: Reference,
      after: map<Reference, Reference>) {
    && (forall ref :: ref in after <==> ref in before || ref in refs)
    && (forall ref :: ref in after ==> after[ref] == if ref in refs then executor else before[ref])
  }

  // The responses that waited for one of them are gone, and sent to it.
  ghost predicate ResponsesAfter(before: map<Reference, Response>, refs: seq<Reference>, executor: Reference,
      after: map<Reference, Response>, sendings: seq<Sending>) {
    && (forall ref :: ref in after <==> ref in before && ref !in refs)
    && (forall ref :: ref in after ==> after[ref] == before[ref])
    && (forall ref :: ref in refs && ref in before ==> Sending(before[ref].(resendCount := 1), executor) in sendings)
  }

  lemma NothingAnnounced(nodes: map<Reference, Reference>, responses: map<Reference, Response>, executor: Reference)
    ensures NodesAfter(nodes, [], executor, nodes) && ResponsesAfter(responses, [], executor, responses, [])
  {
  }

  lemma OneMoreAnnounced(before: map<Reference, Reference>, refs: seq<Reference>, ref: Reference, executor: Reference,
      nodes: map<Reference, Reference>)
    requires NodesAfter(before, refs, executor, nodes)
    ensures NodesAfter(before, refs + [ref], executor, nodes[ref := executor])
  {
  }

  lemma OneMoreResponse(before: map<Reference, Response>, refs: seq<Reference>, ref: Reference, executor: Reference,
      responses: map<Reference, Response>, sendings: seq<Sending>)
    requires ResponsesAfter(before, refs, executor, responses, sendings)
    ensures var here := if ref in responses then [Sending(responses[ref].(resendCount := 1), executor)] else [];
            ResponsesAfter(before, refs + [ref], executor, responses - {ref}, sendings + here)
  {
  }

  class ResultsMatcher {
    var executionNodes: map<Reference, Reference>
    var unwantedResponses: map<Reference, Response>
    ghost var events: seq<Event>
    ghost var sent: seq<Sending>

    constructor ()
      ensures Valid() && events == [] && sent == []
    {
      executionNodes, unwantedResponses := map[], map[];
      events, sent := [], [];
    }

    ghost predicate Valid()
      reads this
    {
      Run(events) == (Matcher(executionNodes, unwantedResponses), sent)
    }

    // sendings are the messages given to send, each in a goroutine of its own.
    method AddStillExecution(requestRefs: seq<Reference>, executor: Reference) returns (sendings: seq<Sending>)
      requires Valid()
      modifies this
      ensures Valid() && events == old(events) + Announcements(requestRefs, executor) && sent == old(sent) + sendings
      ensures NodesAfter(old(executionNodes), requestRefs, executor, executionNodes)
      ensures ResponsesAfter(old(unwantedResponses), requestRefs, executor, unwantedResponses, sendings)
    {
      hide Run, NodesAfter, ResponsesAfter;
      sendings := [];
      ghost var es, done := events, sent;
      NothingAnnounced(executionNodes, unwantedResponses, executor);
      for i := 0 to |requestRefs|
        invariant Valid() && sent == done + sendings
        invariant events == es + Announcements(requestRefs[..i], executor)
        invariant NodesAfter(old(executionNodes), requestRefs[..i], executor, executionNodes)
        invariant ResponsesAfter(old(unwantedResponses), requestRefs[..i], executor, unwantedResponses, sendings)
      {
        ghost var nodes, responses := executionNodes, unwantedResponses;
        var here := AddExecutor(requestRefs[i], executor);
        OneMoreAnnounced(old(executionNodes), requestRefs[..i], requestRefs[i], executor, nodes);
        OneMoreResponse(old(unwantedResponses), requestRefs[..i], requestRefs[i], executor, responses, sendings);
        assert requestRefs[..i + 1] == requestRefs[..i] + [requestRefs[i]];
        assert requestRefs[..i + 1][..i] == requestRefs[..i];
        assert done + (sendings + here) == done + sendings + here;
        sendings := sendings + here;
      }
      assert requestRefs[..|requestRefs|] == requestRefs;
    }

    // The body of that loop.
    method AddExecutor(reqRef: Reference, executor: Reference) returns (sendings: seq<Sending>)
      requires Valid()
      modifies this
      ensures Valid() && events == old(events) + [Announce(reqRef, executor)] && sent == old(sent) + sendings
      ensures executionNodes == old(executionNodes)[reqRef := executor]
      ensures unwantedResponses == old(unwantedResponses) - {reqRef}
      ensures sendings == if reqRef in old(unwantedResponses)
                          then [Sending(old(unwantedResponses)[reqRef].(resendCount := 1), executor)] else []
    {
      hide Run;
      DisjointKeys(events, reqRef);
      RunPush(events, Announce(reqRef, executor));
      sendings := [];
      if reqRef in unwantedResponses {
        sendings := [Sending(Resent(unwantedResponses[reqRef]), executor)];
        unwantedResponses := unwantedResponses - {reqRef};
      } else {
        assert unwantedResponses - {reqRef} == unwantedResponses;
      }
      executionNodes := executionNodes[reqRef := executor];
      events, sent := events + [Announce(reqRef, executor)], sent + sendings;
    }

    method AddUnwantedResponse(msg: Response) returns (sendings: seq<Sending>)
      requires Valid()
      modifies this
      ensures Valid() && events == old(events) + [Unwanted(msg)] && sent == old(sent) + sendings
      ensures executionNodes == old(executionNodes)
      ensures if msg.reason.IsEmpty() || msg.resendCount >= 1 then
                sendings == [] && unwantedResponses == old(unwantedResponses)
              else if msg.reason in executionNodes then
                sendings == [Sending(msg.(resendCount := 1), executionNodes[msg.reason])]
                && unwantedResponses == old(unwantedResponses)
              else sendings == [] && unwantedResponses == old(unwantedResponses)[msg.reason := msg]
    {
      hide Run;
      sendings := [];
      RunPush(events, Unwanted(msg));
      assert sent + [] == sent;
      events := events + [Unwanted(msg)];
      if msg.reason.IsEmpty() {
        return;
      }
      if msg.resendCount >= 1 {
        return;
      }
      if msg.reason in executionNodes {
        sendings := [Sending(Resent(msg), executionNodes[msg.reason])];
        sent := sent + sendings;
        return;
      }
      unwantedResponses := unwantedResponses[msg.reason := msg];
    }

    // Returns how many responses were dropped.
    method Clear() returns (dropped: nat)
      requires Valid()
      modifies this
      ensures Valid() && events == old(events) + [Event.Clear] && sent == old(sent)
      ensures executionNodes == map[] && unwantedResponses == map[] && dropped == |old(unwantedResponses)|
    {
      hide Run;
      assert sent + [] == sent;
      dropped := |unwantedResponses|;
      RunPush(events, Event.Clear);
      events := events + [Event.Clear];
      executionNodes, unwantedResponses := map[], map[];
    }
  }
}
