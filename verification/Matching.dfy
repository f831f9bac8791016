// Pairing late results with the nodes that still execute their parent requests
// (logicrunner/result_matcher.go).
module Matching {
  import opened Collections
  import opened Words
  import opened References

  // reason is the parent request; content stands for the rest of the message.
  datatype Response = Response(reason: Reference, requestRef: Reference, resendCount: uint32, content: seq<byte>)

  // A call of send, made by `go`.
  datatype Sending = Sending(response: Response, receiver: Reference)

  datatype Matcher = Matcher(executionNodes: map<Reference, Reference>, unwantedResponses: map<Reference, Response>)

  // A StillExecuting message is one Announce for each of its requests.
  datatype Event = Announce(requestRef: Reference, executor: Reference) | Unwanted(response: Response) | Clear

  const NEW_MATCHER := Matcher(map[], map[])

  function Resent(r: Response): Response {
    r.(resendCount := (r.resendCount + 1) % TWO_32)
  }

  predicate Acceptable(r: Response) {
    !r.reason.IsEmpty() && r.resendCount < 1
  }

  function Next(m: Matcher, e: Event): Matcher {
    match e
    case Announce(ref, executor) => Matcher(m.executionNodes[ref := executor], m.unwantedResponses - {ref})
    case Unwanted(r) =>
      if !Acceptable(r) || r.reason in m.executionNodes then m
      else m.(unwantedResponses := m.unwantedResponses[r.reason := r])
    case Clear => NEW_MATCHER
  }

  function Sends(m: Matcher, e: Event): seq<Sending> {
    match e
    case Announce(ref, executor) =>
      if ref in m.unwantedResponses then [Sending(Resent(m.unwantedResponses[ref]), executor)] else []
    case Unwanted(r) =>
      if Acceptable(r) && r.reason in m.executionNodes then [Sending(Resent(r), m.executionNodes[r.reason])] else []
    case Clear => []
  }

  // A matcher after a series of events, and everything it sent.
  function Run(es: seq<Event>): (Matcher, seq<Sending>) {
    if es == [] then (NEW_MATCHER, [])
    else
      var (m, sent) := Run(es[..|es| - 1]);
      (Next(m, es[|es| - 1]), sent + Sends(m, es[|es| - 1]))
  }

  lemma RunPush(es: seq<Event>, e: Event)
    ensures Run(es + [e]) == (Next(Run(es).0, e), Run(es).1 + Sends(Run(es).0, e))
  {
    assert (es + [e])[..|es|] == es;
  }

  // ----- Where a response ends up, told from the events alone

  datatype Option<T> = None | Some(value: T)

  // The executor announced last for a request, since the last Clear.
  function Executor(es: seq<Event>, ref: Reference): Option<Reference> {
    if es == [] then None
    else match es[|es| - 1]
      case Announce(r, executor) => if r == ref then Some(executor) else Executor(es[..|es| - 1], ref)
      case Unwanted(_) => Executor(es[..|es| - 1], ref)
      case Clear => None
  }

  datatype Fate = SentTo(node: Reference) | Waiting | Overwritten | Dropped

  predicate AcceptedAt(es: seq<Event>, i: nat) {
    i < |es| && es[i].Unwanted? && Acceptable(es[i].response)
  }

  // Of the accepted response at index i: it is sent at once if its executor is
  // known; else it waits for the first event that concerns it.
  function FateOf(es: seq<Event>, i: nat): Fate
    requires AcceptedAt(es, i)
    decreases |es|
  {
    var reason := es[i].response.reason;
    var last := |es| - 1;
    if i == last then
      match Executor(es[..last], reason) case Some(node) => SentTo(node) case None => Waiting
    else
      var fate := FateOf(es[..last], i);
      if fate != Waiting then fate
      else match es[last]
        case Announce(ref, executor) => if ref == reason then SentTo(executor) else Waiting
        case Unwanted(r) => if Acceptable(r) && r.reason == reason then Overwritten else Waiting
        case Clear => Dropped
  }

  lemma FatePush(es: seq<Event>, e: Event, i: nat)
    requires AcceptedAt(es, i)
    ensures AcceptedAt(es + [e], i)
    ensures FateOf(es + [e], i) ==
            if FateOf(es, i) != Waiting then FateOf(es, i)
            else match e
              case Announce(ref, executor) => if ref == es[i].response.reason then SentTo(executor) else Waiting
              case Unwanted(r) => if Acceptable(r) && r.reason == es[i].response.reason then Overwritten else Waiting
              case Clear => Dropped
  {
    assert (es + [e])[..|es|] == es;
  }

  // The responses that ended up as sending s.
  predicate EndsAs(es: seq<Event>, i: nat, s: Sending) {
    AcceptedAt(es, i) && FateOf(es, i) == SentTo(s.receiver) && Resent(es[i].response) == s.response
  }

  function SentAs(es: seq<Event>, s: Sending): set<nat> {
    set i: nat | i < |es| && EndsAs(es, i, s)
  }

  // The response at index i waits, for an executor of this request.
  predicate WaitsFor(es: seq<Event>, i: nat, reason: Reference) {
    AcceptedAt(es, i) && es[i].response.reason == reason && FateOf(es, i) == Waiting
  }

  lemma ExecutorPush(es: seq<Event>, e: Event, ref: Reference)
    ensures Executor(es + [e], ref) ==
            match e
              case Announce(r, executor) => if r == ref then Some(executor) else Executor(es, ref)
              case Unwanted(_) => Executor(es, ref)
              case Clear => None
  {
    assert (es + [e])[..|es|] == es;
  }

  // The event ends the waiting of a response with this reason.
  predicate Concerns(e: Event, reason: Reference) {
    match e
    case Announce(ref, _) => ref == reason
    case Unwanted(r) => Acceptable(r) && r.reason == reason
    case Clear => true
  }

  // The response an event adds, if it has to wait.
  predicate Stores(es: seq<Event>, e: Event) {
    e.Unwanted? && Acceptable(e.response) && Executor(es, e.response.reason) == None
  }

  lemma WaitsPush(es: seq<Event>, e: Event, i: nat, reason: Reference)
    ensures WaitsFor(es + [e], i, reason) <==>
              if i == |es| then Stores(es, e) && e.response.reason == reason
              else WaitsFor(es, i, reason) && !Concerns(e, reason)
    ensures WaitsFor(es + [e], i, reason) ==> i <= |es| && (es + [e])[i].Unwanted?
    ensures WaitsFor(es, i, reason) ==> i < |es| && (es + [e])[i] == es[i]
  {
    hide Executor, FateOf;
    if AcceptedAt(es, i) {
      FatePush(es, e, i);
    } else if i == |es| && e.Unwanted? && Acceptable(e.response) {
      LastFate(es, e);
    }
  }

  lemma LastFate(es: seq<Event>, e: Event)
    requires e.Unwanted? && Acceptable(e.response)
    ensures AcceptedAt(es + [e], |es|)
    ensures FateOf(es + [e], |es|)
              == match Executor(es, e.response.reason) case Some(node) => SentTo(node) case None => Waiting
  {
    assert (es + [e])[..|es|] == es;
  }

  // ----- The two maps, told from the events

  ghost predicate NodesAgree(es: seq<Event>, m: Matcher) {
    forall ref :: (ref in m.executionNodes <==> Executor(es, ref).Some?)
                  && (ref in m.executionNodes ==> Executor(es, ref) == Some(m.executionNodes[ref]))
  }

  ghost predicate ResponsesAgree(es: seq<Event>, m: Matcher) {
    && (forall ref :: ref in m.unwantedResponses ==> ref !in m.executionNodes && exists i: nat :: WaitsFor(es, i, ref))
    && (forall i: nat, ref :: WaitsFor(es, i, ref) ==>
        ref in m.unwantedResponses && m.unwantedResponses[ref] == es[i].response)
    && (forall i: nat, j: nat, ref :: WaitsFor(es, i, ref) && WaitsFor(es, j, ref) ==> i == j)
  }

  lemma NodesPush(es: seq<Event>, m: Matcher, e: Event)
    requires NodesAgree(es, m)
    ensures NodesAgree(es + [e], Next(m, e))
  {
    hide Executor;
    forall ref ensures (ref in Next(m, e).executionNodes <==> Executor(es + [e], ref).Some?)
                       && (ref in Next(m, e).executionNodes ==>
                           Executor(es + [e], ref) == Some(Next(m, e).executionNodes[ref]))
    {
      ExecutorPush(es, e, ref);
    }
  }

  lemma ResponsesPush(es: seq<Event>, m: Matcher, e: Event)
    requires NodesAgree(es, m) && ResponsesAgree(es, m)
    ensures ResponsesAgree(es + [e], Next(m, e))
  {
    hide Executor, WaitsFor;
    var es' := es + [e];
    forall i: nat, ref ensures
        && (WaitsFor(es', i, ref) <==>
              if i == |es| then Stores(es, e) && e.response.reason == ref
              else WaitsFor(es, i, ref) && !Concerns(e, ref))
        && (WaitsFor(es, i, ref) ==> i < |es| && es'[i] == es[i])
        && (WaitsFor(es', i, ref) ==> i <= |es| && es'[i].Unwanted?)
    {
      WaitsPush(es, e, i, ref);
    }
    forall ref | ref in Next(m, e).unwantedResponses
      ensures ref !in Next(m, e).executionNodes && exists i: nat :: WaitsFor(es', i, ref)
    {
      if Stores(es, e) && e.response.reason == ref {
        assert WaitsFor(es', |es|, ref);
      } else {
        var i: nat :| WaitsFor(es, i, ref);
        assert WaitsFor(es', i, ref);
      }
    }
  }

  // ----- What was sent, told from the events

  // The event makes the matcher send the waiting response at index i.
  predicate Releases(es: seq<Event>, e: Event, i: nat, s: Sending) {
    e.Announce? && WaitsFor(es, i, e.requestRef) && e.executor == s.receiver && Resent(es[i].response) == s.response
  }

  // The event is a response that is sent at once.
  predicate SentAtOnce(es: seq<Event>, e: Event, s: Sending) {
    e.Unwanted? && Acceptable(e.response) && Executor(es, e.response.reason) == Some(s.receiver)
        && Resent(e.response) == s.response
  }

  lemma EndsPush(es: seq<Event>, e: Event, i: nat, s: Sending)
    ensures EndsAs(es + [e], i, s) <==>
              if i == |es| then SentAtOnce(es, e, s) else EndsAs(es, i, s) || Releases(es, e, i, s)
    ensures EndsAs(es, i, s) || Releases(es, e, i, s) ==> i < |es|
    ensures !(EndsAs(es, i, s) && Releases(es, e, i, s))
  {
    hide Executor, FateOf, Resent;
    if AcceptedAt(es, i) {
      FatePush(es, e, i);
    } else if i == |es| && e.Unwanted? && Acceptable(e.response) {
      LastFate(es, e);
    }
  }

  // One event moves one response at most to its fate.
  lemma SentPush(es: seq<Event>, m: Matcher, e: Event, s: Sending)
    requires NodesAgree(es, m) && ResponsesAgree(es, m)
    ensures |SentAs(es + [e], s)| == |SentAs(es, s)| + if Sends(m, e) == [s] then 1 else 0
  {
    hide Executor, EndsAs, Resent, NodesAgree, ResponsesAgree, Releases, SentAtOnce;
    var es' := es + [e];
    forall i: nat ensures
        && (EndsAs(es', i, s) <==> if i == |es| then SentAtOnce(es, e, s)
            else EndsAs(es, i, s) || Releases(es, e, i, s))
        && (EndsAs(es, i, s) || Releases(es, e, i, s) ==> i < |es|)
        && !(EndsAs(es, i, s) && Releases(es, e, i, s))
    {
      EndsPush(es, e, i, s);
    }
    if Sends(m, e) == [s] {
      var k := SentIndex(es, m, e, s);
      assert SentAs(es', s) == SentAs(es, s) + {k};
    } else {
      NothingSent(es, m, e, s);
      assert SentAs(es', s) == SentAs(es, s);
    }
  }

  lemma SentIndex(es: seq<Event>, m: Matcher, e: Event, s: Sending) returns (k: nat)
    requires NodesAgree(es, m) && ResponsesAgree(es, m) && Sends(m, e) == [s]
    ensures if e.Announce? then Releases(es, e, k, s) && forall i: nat :: Releases(es, e, i, s) ==> i == k
            else k == |es| && SentAtOnce(es, e, s)
    ensures e.Announce? || forall i: nat :: !Releases(es, e, i, s)
    ensures e.Announce? ==> !SentAtOnce(es, e, s)
  {
    hide Executor, WaitsFor, Resent;
    k := |es|;
    if e.Announce? {
      k :| WaitsFor(es, k, e.requestRef);
    }
  }

  lemma NothingSent(es: seq<Event>, m: Matcher, e: Event, s: Sending)
    requires NodesAgree(es, m) && ResponsesAgree(es, m) && Sends(m, e) != [s]
    ensures !SentAtOnce(es, e, s) && forall i: nat :: !Releases(es, e, i, s)
  {
    hide Executor, WaitsFor, Resent;
  }

  // The matcher does what the fates say: for every series of events, its maps
  // are the last executors and the waiting responses, and a message has been
  // sent as often as there are responses whose fate it is.
  lemma {:induction false} FatesAreRight(es: seq<Event>)
    ensures NodesAgree(es, Run(es).0) && ResponsesAgree(es, Run(es).0)
    ensures forall s :: Occurrences(Run(es).1, s) == |SentAs(es, s)|
  {
    hide NodesAgree, ResponsesAgree, SentAs, Occurrences;
    if es == [] {
      NothingHappened();
    } else {
      var front, e := es[..|es| - 1], es[|es| - 1];
      assert front + [e] == es;
      FatesAreRight(front);
      var (m, sent) := Run(front);
      NodesPush(front, m, e);
      ResponsesPush(front, m, e);
      forall s ensures Occurrences(Run(es).1, s) == |SentAs(es, s)| {
        SentPush(front, m, e, s);
        CountSends(sent, m, e, s);
      }
    }
  }

  lemma CountSends(sent: seq<Sending>, m: Matcher, e: Event, s: Sending)
    ensures |Sends(m, e)| <= 1
    ensures Occurrences(sent + Sends(m, e), s) == Occurrences(sent, s) + if Sends(m, e) == [s] then 1 else 0
  {
    hide Occurrences;
    if Sends(m, e) == [] {
      assert sent + [] == sent;
    } else {
      OccurrencesPush(sent, Sends(m, e)[0], s);
    }
  }

  lemma NothingHappened()
    ensures NodesAgree([], NEW_MATCHER) && ResponsesAgree([], NEW_MATCHER)
    ensures forall s :: Occurrences([], s) == |SentAs([], s)|
  {
    assert forall s :: SentAs([], s) == {};
  }

  lemma DisjointKeys(es: seq<Event>, ref: Reference)
    ensures var m := Run(es).0; !(ref in m.executionNodes && ref in m.unwantedResponses)
    ensures var m := Run(es).0; ref in m.unwantedResponses ==>
              m.unwantedResponses[ref].reason == ref && Acceptable(m.unwantedResponses[ref])
  {
    hide Run, FateOf;
    FatesAreRight(es);
  }

  // ----- Conservation

  function Accepted(es: seq<Event>): set<nat> {
    set i: nat | i < |es| && AcceptedAt(es, i)
  }

  predicate HasFate(es: seq<Event>, i: nat, fate: Fate) {
    AcceptedAt(es, i) && FateOf(es, i) == fate
  }

  function With(es: seq<Event>, fate: Fate): set<nat> {
    set i: nat | i < |es| && HasFate(es, i, fate)
  }

  predicate IsSent(es: seq<Event>, i: nat) {
    AcceptedAt(es, i) && FateOf(es, i).SentTo?
  }

  function SentResponses(es: seq<Event>): set<nat> {
    set i: nat | i < |es| && IsSent(es, i)
  }

  // The event makes the matcher send the response at index i of the longer series.
  predicate Freed(es: seq<Event>, e: Event, i: nat) {
    if i == |es| then e.Unwanted? && Acceptable(e.response) && Executor(es, e.response.reason).Some?
    else e.Announce? && WaitsFor(es, i, e.requestRef)
  }

  lemma IsSentPush(es: seq<Event>, e: Event, i: nat)
    ensures IsSent(es + [e], i) <==> (i < |es| && IsSent(es, i)) || Freed(es, e, i)
    ensures IsSent(es, i) ==> i < |es| && !Freed(es, e, i)
    ensures Freed(es, e, i) ==> i <= |es|
  {
    hide Executor, FateOf;
    if AcceptedAt(es, i) {
      FatePush(es, e, i);
    } else if i == |es| && e.Unwanted? && Acceptable(e.response) {
      LastFate(es, e);
    }
  }

  lemma FreedIsSent(es: seq<Event>, m: Matcher, e: Event) returns (k: nat)
    requires NodesAgree(es, m) && ResponsesAgree(es, m)
    ensures if Sends(m, e) == [] then forall i: nat :: !Freed(es, e, i)
            else |Sends(m, e)| == 1 && Freed(es, e, k) && forall i: nat :: Freed(es, e, i) ==> i == k
  {
    hide Executor, Resent;
    k := |es|;
    if e.Announce? && e.requestRef in m.unwantedResponses {
      k :| WaitsFor(es, k, e.requestRef);
    }
    if e.Unwanted? { assert forall i: nat :: Freed(es, e, i) ==> i == |es|; }
  }

  lemma SentResponsesPush(es: seq<Event>, m: Matcher, e: Event)
    requires NodesAgree(es, m) && ResponsesAgree(es, m)
    ensures |SentResponses(es + [e])| == |SentResponses(es)| + |Sends(m, e)|
  {
    hide IsSent, Freed, NodesAgree, ResponsesAgree;
    var es' := es + [e];
    forall i: nat
      ensures IsSent(es', i) <==> (i < |es| && IsSent(es, i)) || Freed(es, e, i)
      ensures IsSent(es, i) ==> i < |es| && !Freed(es, e, i)
      ensures Freed(es, e, i) ==> i <= |es|
    {
      IsSentPush(es, e, i);
    }
    var k := FreedIsSent(es, m, e);
    if Sends(m, e) == [] {
      assert SentResponses(es') == SentResponses(es);
    } else {
      assert SentResponses(es') == SentResponses(es) + {k};
    }
  }

  lemma {:induction false} ImageSize(s: set<nat>, f: nat -> Reference)
    requires forall i, j :: i in s && j in s && f(i) == f(j) ==> i == j
    ensures |set i | i in s :: f(i)| == |s|
  {
    if s == {} {
    } else {
      var x :| x in s;
      ImageSize(s - {x}, f);
      assert (set i | i in s :: f(i)) == (set i | i in s - {x} :: f(i)) + {f(x)};
    }
  }

  function ReasonAt(es: seq<Event>, i: nat): Reference {
    if i < |es| && es[i].Unwanted? then es[i].response.reason else Reference(EMPTY_LOCAL, EMPTY_LOCAL)
  }

  lemma WaitingSize(es: seq<Event>, m: Matcher)
    requires ResponsesAgree(es, m)
    ensures |With(es, Waiting)| == |m.unwantedResponses|
  {
    hide FateOf;
    var f := (i: nat) => ReasonAt(es, i);
    forall i: nat | i in With(es, Waiting) ensures WaitsFor(es, i, f(i)) {}
    forall ref | ref in m.unwantedResponses ensures exists i :: i in With(es, Waiting) && f(i) == ref {
      var i: nat :| WaitsFor(es, i, ref);
      assert i in With(es, Waiting) && f(i) == ref;
    }
    ImageSize(With(es, Waiting), f);
    assert (set i | i in With(es, Waiting) :: f(i)) == m.unwantedResponses.Keys;
  }

  lemma {:induction false} SentSize(es: seq<Event>)
    ensures |Run(es).1| == |SentResponses(es)|
  {
    hide SentResponses, NodesAgree, ResponsesAgree;
    if es == [] {
      assert SentResponses(es) == {} by { NoneSent(); }
    } else {
      var front, e := es[..|es| - 1], es[|es| - 1];
      assert front + [e] == es;
      SentSize(front);
      FatesAreRight(front);
      SentResponsesPush(front, Run(front).0, e);
    }
  }

  lemma NoneSent()
    ensures SentResponses([]) == {}
  {
  }

  // Every accepted response was sent, waits, was overwritten by a later one with
  // the same reason, or was dropped by Clear, and only one of these.
  lemma Conservation(es: seq<Event>)
    ensures |Accepted(es)| == |Run(es).1| + |Run(es).0.unwantedResponses| + |With(es, Overwritten)|
              + |With(es, Dropped)|
  {
    hide Run, NodesAgree, ResponsesAgree, Accepted, SentResponses, With;
    SentSize(es);
    FatesAreRight(es);
    WaitingSize(es, Run(es).0);
    FatesPartition(es);
    var sent, waiting, overwritten, dropped :=
        SentResponses(es), With(es, Waiting), With(es, Overwritten), With(es, Dropped);
    UnionSize(sent, waiting);
    UnionSize(sent + waiting, overwritten);
    UnionSize(sent + waiting + overwritten, dropped);
  }

  lemma FatesPartition(es: seq<Event>)
    ensures Accepted(es) == SentResponses(es) + With(es, Waiting) + With(es, Overwritten) + With(es, Dropped)
    ensures SentResponses(es) !! With(es, Waiting) !! With(es, Overwritten) !! With(es, Dropped)
  {
    hide FateOf;
  }

  lemma UnionSize(a: set<nat>, b: set<nat>)
    requires a !! b
    ensures |a + b| == |a| + |b|
  {
  }

  // ----- Order does not matter

  predicate NoClear(es: seq<Event>) {
    forall i :: 0 <= i < |es| ==> es[i] != Clear
  }

  predicate OneExecutor(es: seq<Event>) {
    forall i, j | 0 <= i < |es| && 0 <= j < |es| && es[i].Announce? && es[j].Announce? ::
      es[i].requestRef == es[j].requestRef ==> es[i].executor == es[j].executor
  }

  predicate DistinctReasons(es: seq<Event>) {
    forall i: nat, j: nat | i < |es| && j < |es| && AcceptedAt(es, i) && AcceptedAt(es, j) ::
      es[i].response.reason == es[j].response.reason ==> i == j
  }

  predicate Calm(es: seq<Event>) {
    NoClear(es) && OneExecutor(es) && DistinctReasons(es)
  }

  lemma {:induction false} ExecutorWhenCalm(es: seq<Event>, ref: Reference, node: Reference)
    requires NoClear(es) && OneExecutor(es)
    ensures Executor(es, ref) == Some(node) <==> Announce(ref, node) in es
  {
    if es == [] {
    } else {
      var front := es[..|es| - 1];
      ExecutorWhenCalm(front, ref, node);
      assert es == front + [es[|es| - 1]];
    }
  }

  lemma {:induction false} FateWhenCalm(es: seq<Event>, i: nat, node: Reference)
    requires Calm(es) && AcceptedAt(es, i)
    ensures FateOf(es, i).SentTo? || FateOf(es, i) == Waiting
    ensures FateOf(es, i) == SentTo(node) <==> Announce(es[i].response.reason, node) in es
    decreases |es|
  {
    hide Executor;
    var front, last := es[..|es| - 1], es[|es| - 1];
    assert es == front + [last];
    if i == |es| - 1 {
      ExecutorWhenCalm(front, last.response.reason, node);
    } else {
      assert AcceptedAt(front, i) && Calm(front) by { CalmPrefix(es); }
      FateWhenCalm(front, i, node);
      FatePush(front, last, i);
      if last.Unwanted? && Acceptable(last.response) { assert AcceptedAt(es, |es| - 1); }
      if FateOf(front, i).SentTo? { FateWhenCalm(front, i, FateOf(front, i).node); }
    }
  }

  lemma CalmPrefix(es: seq<Event>)
    requires Calm(es) && es != []
    ensures Calm(es[..|es| - 1])
  {
    var front := es[..|es| - 1];
    assert forall i: nat :: i < |front| && AcceptedAt(front, i) ==> AcceptedAt(es, i);
  }

  // A response and the executor announced for its reason.
  predicate Pair(es: seq<Event>, s: Sending) {
    exists i: nat :: i < |es| && AcceptedAt(es, i) && Resent(es[i].response) == s.response
      && Announce(es[i].response.reason, s.receiver) in es
  }

  // Between two Clears, with one executor per request and one response per
  // reason, exactly the pairs are sent, each once, in whatever order things happen.
  lemma ExactlyThePairs(es: seq<Event>, s: Sending)
    requires Calm(es)
    ensures Occurrences(Run(es).1, s) == if Pair(es, s) then 1 else 0
  {
    hide Run, FateOf, Occurrences, NodesAgree, ResponsesAgree;
    FatesAreRight(es);
    forall i: nat | i < |es| && AcceptedAt(es, i)
      ensures FateOf(es, i) == SentTo(s.receiver) <==> Announce(es[i].response.reason, s.receiver) in es
    {
      FateWhenCalm(es, i, s.receiver);
    }
    if Pair(es, s) {
      var i: nat :| i < |es| && AcceptedAt(es, i) && Resent(es[i].response) == s.response
                    && Announce(es[i].response.reason, s.receiver) in es;
      assert SentAs(es, s) == {i};
    } else {
      assert SentAs(es, s) == {};
    }
  }

  lemma OrderDoesNotMatter(es: seq<Event>, fs: seq<Event>, s: Sending)
    requires Calm(es) && Calm(fs) && forall e :: e in es <==> e in fs
    ensures Occurrences(Run(es).1, s) == Occurrences(Run(fs).1, s)
  {
    ExactlyThePairs(es, s);
    ExactlyThePairs(fs, s);
    if Pair(es, s) { SamePairs(es, fs, s); }
    if Pair(fs, s) { SamePairs(fs, es, s); }
  }

  lemma SamePairs(es: seq<Event>, fs: seq<Event>, s: Sending)
    requires Pair(es, s) && forall e :: e in es ==> e in fs
    ensures Pair(fs, s)
  {
    var i: nat :| i < |es| && AcceptedAt(es, i) && Resent(es[i].response) == s.response
                  && Announce(es[i].response.reason, s.receiver) in es;
    assert es[i] in fs;
    var j: nat :| j < |fs| && fs[j] == es[i];
    assert AcceptedAt(fs, j);
  }

  // ----- No loops

  // A response handed from matcher to matcher: the run of each one contains the
  // response it got and has sent the next.
  predicate Chain(runs: seq<seq<Event>>, rs: seq<Response>, receivers: seq<Reference>) {
    && |rs| == |runs| + 1 && |receivers| == |runs|
    && forall k :: 0 <= k < |runs| ==>
         Unwanted(rs[k]) in runs[k] && rs[k + 1] == Resent(rs[k]) && Sending(rs[k + 1], receivers[k]) in Run(runs[k]).1
  }

  // Everything a matcher sends is an accepted response, counted up once.
  lemma SentOnce(es: seq<Event>, s: Sending)
    requires s in Run(es).1
    ensures s.response.resendCount == 1
    ensures var r := s.response.(resendCount := 0); Unwanted(r) in es && !r.reason.IsEmpty()
  {
    hide Run, FateOf, Occurrences, NodesAgree, ResponsesAgree;
    FatesAreRight(es);
    Occurs(Run(es).1, s);
    assert SentAs(es, s) != {};
    var i :| i in SentAs(es, s);
  }

  // Across any chain of matchers a response is forwarded once at most.
  lemma ForwardedAtMostOnce(runs: seq<seq<Event>>, rs: seq<Response>, receivers: seq<Reference>)
    requires Chain(runs, rs, receivers)
    ensures |runs| <= 1
  {
    hide Run;
    if |runs| > 1 {
      SentOnce(runs[0], Sending(rs[1], receivers[0]));
      SentOnce(runs[1], Sending(rs[2], receivers[1]));
      assert false;
    }
  }
}
