// A fetch round against any world, told from the answers it heard alone: what it
// asks, when it stops, and what it emits and forwards, whether or not the ledger
// is faithful.
module RoundProtocol {
  import opened References
  import opened ExecutionRegistries
  import opened BrokerSystem
  import opened Fetching

  // ----- What one answer leads to

  // nil for "no more pendings", a transcript for a valid incoming request.
  function EmittedBy(h: Heard): seq<Item> {
    match h
    case Told(_, NoPendingRequest) => [NoMore]
    case Looked(ref, Got(Incoming(immutable, true)), false) => [Deliver(Transcript(ref, immutable))]
    case _ => []
  }

  function ForwardedBy(h: Heard): seq<Reference> {
    match h
    case Looked(ref, Got(Outgoing(true)), false) => [ref]
    case _ => []
  }

  // How the round goes on after the answer; it ends with anything but StillFetching.
  function EndBy(h: Heard): End {
    match h
    case Told(_, NoPendingRequest) => ToldEmpty
    case Told(_, PendingsError) => PendingsFailed
    case Told(_, Pendings(_)) => StillFetching
    case Looked(_, RequestError, _) => RequestFailed
    case Looked(_, Got(_), aborted) => if aborted then WasAborted else StillFetching
  }

  // ----- What all of them lead to

  function Emissions(heard: seq<Heard>): seq<Item> {
    if heard == [] then [] else Emissions(heard[..|heard| - 1]) + EmittedBy(heard[|heard| - 1])
  }

  function Forwardings(heard: seq<Heard>): seq<Reference> {
    if heard == [] then [] else Forwardings(heard[..|heard| - 1]) + ForwardedBy(heard[|heard| - 1])
  }

  function Ending(heard: seq<Heard>): End {
    if heard == [] then StillFetching else EndBy(heard[|heard| - 1])
  }

  // The references of a batch that are asked for.
  function Scoped(refs: seq<Reference>): seq<Reference> {
    if refs == [] then []
    else if refs[0].IsRecordScope() then [refs[0]] + Scoped(refs[1..]) else Scoped(refs[1..])
  }

  function Locals(refs: seq<Reference>): seq<Local> {
    if refs == [] then [] else [refs[0].local] + Locals(refs[1..])
  }

  // What of the last batch is still to be asked for.
  function Todo(heard: seq<Heard>): seq<Reference> {
    if heard == [] then []
    else match heard[|heard| - 1]
      case Told(_, answer) => if answer.Pendings? then Scoped(answer.refs) else []
      case Looked(_, _, _) => var todo := Todo(heard[..|heard| - 1]); if todo == [] then [] else todo[1..]
  }

  // The skip list once the last batch is done with.
  function SkipAfter(heard: seq<Heard>, skip: seq<Local>): seq<Local> {
    if heard == [] then skip
    else match heard[|heard| - 1]
      case Told(told, answer) => if answer.Pendings? then told + Locals(answer.refs) else told
      case Looked(_, _, _) => SkipAfter(heard[..|heard| - 1], skip)
  }

  function Tolds(heard: seq<Heard>): (n: nat)
    ensures n <= |heard|
  {
    if heard == [] then 0 else Tolds(heard[..|heard| - 1]) + if heard[|heard| - 1].Told? then 1 else 0
  }

  function Lookeds(heard: seq<Heard>): nat {
    |heard| - Tolds(heard)
  }

  // The order of questions: nothing follows a final answer; the next batch is
  // asked for when the last one is done, with everything in it skipped, unless
  // that is more than 300; and a batch is looked up in order, good references only.
  predicate Lawful(heard: seq<Heard>, skip: seq<Local>) {
    heard == []
    || (var front, h := heard[..|heard| - 1], heard[|heard| - 1];
        && Lawful(front, skip) && Ending(front) == StillFetching
        && match h
           case Told(told, _) =>
             && Todo(front) == []
             && told == if |SkipAfter(front, skip)| > SKIP_SLICE_SIZE_LIMIT then [] else SkipAfter(front, skip)
           case Looked(ref, _, _) => Todo(front) != [] && Todo(front)[0] == ref)
  }

  // The answers are the world's.
  predicate Answers(w: World, heard: seq<Heard>) {
    heard == []
    || (var front, h := heard[..|heard| - 1], heard[|heard| - 1];
        && Answers(w, front)
        && match h
           case Told(skip, answer) => answer == w.getPendings(Tolds(front), skip)
           case Looked(ref, answer, aborted) =>
             answer == w.getRequest(Lookeds(front), ref) && aborted == (answer.Got? && w.isAborted(Lookeds(front))))
  }

  // ----- The round keeps to it

  predicate Follows(w: World, rd: Round, skip: seq<Local>) {
    && Lawful(rd.heard, skip) && Answers(w, rd.heard)
    && rd.emitted == Emissions(rd.heard) && rd.forwarded == Forwardings(rd.heard)
    && rd.calls == Tolds(rd.heard) && rd.lookups == Lookeds(rd.heard)
  }

  lemma HeardPush(w: World, heard: seq<Heard>, h: Heard, skip: seq<Local>)
    ensures Emissions(heard + [h]) == Emissions(heard) + EmittedBy(h)
    ensures Forwardings(heard + [h]) == Forwardings(heard) + ForwardedBy(h)
    ensures Ending(heard + [h]) == EndBy(h)
    ensures Tolds(heard + [h]) == Tolds(heard) + if h.Told? then 1 else 0
    ensures Todo(heard + [h]) == match h
              case Told(_, answer) => if answer.Pendings? then Scoped(answer.refs) else []
              case Looked(_, _, _) => if Todo(heard) == [] then [] else Todo(heard)[1..]
    ensures SkipAfter(heard + [h], skip) == match h
              case Told(told, answer) => if answer.Pendings? then told + Locals(answer.refs) else told
              case Looked(_, _, _) => SkipAfter(heard, skip)
  {
    assert (heard + [h])[..|heard|] == heard;
  }

  lemma LawPush(w: World, heard: seq<Heard>, h: Heard, skip: seq<Local>)
    requires Lawful(heard, skip) && Answers(w, heard) && Ending(heard) == StillFetching
    ensures Lawful(heard + [h], skip) <==>
              match h
              case Told(told, _) =>
                && Todo(heard) == []
                && told == if |SkipAfter(heard, skip)| > SKIP_SLICE_SIZE_LIMIT then [] else SkipAfter(heard, skip)
              case Looked(ref, _, _) => Todo(heard) != [] && Todo(heard)[0] == ref
    ensures Answers(w, heard + [h]) <==>
              match h
              case Told(told, answer) => answer == w.getPendings(Tolds(heard), told)
              case Looked(ref, answer, aborted) =>
                answer == w.getRequest(Lookeds(heard), ref) && aborted == (answer.Got? && w.isAborted(Lookeds(heard)))
  {
    assert (heard + [h])[..|heard|] == heard;
  }

  // One more lookup.
  lemma LookFollows(w: World, rd: Round, ref: Reference, skip: seq<Local>)
    returns (answer: RequestAnswer, aborted: bool)
    requires Follows(w, rd, skip) && Ending(rd.heard) == StillFetching
    requires Todo(rd.heard) != [] && Todo(rd.heard)[0] == ref
    ensures answer == w.getRequest(rd.lookups, ref) && aborted == (answer.Got? && w.isAborted(rd.lookups))
    ensures var looked := Look(rd, ref, answer, aborted);
            && Ending(looked.heard) == EndBy(Looked(ref, answer, aborted)) && Todo(looked.heard) == Todo(rd.heard)[1..]
            && SkipAfter(looked.heard, skip) == SkipAfter(rd.heard, skip) && Tolds(looked.heard) == Tolds(rd.heard)
            && (Ending(looked.heard) != StillFetching ==> Follows(w, looked, skip))
            && (Ending(looked.heard) == StillFetching ==> Follows(w, Handle(looked, ref, answer.request), skip))
  {
    hide Lawful, Answers, Emissions, Forwardings, Todo, SkipAfter, Tolds, Ending;
    answer := w.getRequest(rd.lookups, ref);
    aborted := answer.Got? && w.isAborted(rd.lookups);
    var h := Looked(ref, answer, aborted);
    HeardPush(w, rd.heard, h, skip);
    LawPush(w, rd.heard, h, skip);
    assert rd.emitted + [] == rd.emitted && rd.forwarded + [] == rd.forwarded;
  }

  lemma {:induction false} BatchFollows(w: World, rd: Round, refs: seq<Reference>, skip: seq<Local>)
    requires Follows(w, rd, skip) && Ending(rd.heard) == StillFetching
    requires Todo(rd.heard) == Scoped(refs) && SkipAfter(rd.heard, skip) == rd.skip + Locals(refs)
    ensures var (after, end) := Batch(w, rd, refs);
            && Follows(w, after, skip) && Ending(after.heard) == end && Tolds(after.heard) == Tolds(rd.heard)
            && (end == StillFetching ==> Todo(after.heard) == [] && after.skip == SkipAfter(after.heard, skip))
    decreases |refs|
  {
    hide Follows, Todo, SkipAfter, Tolds, Ending;
    if refs == [] {
      assert rd.skip + [] == rd.skip;
    } else {
      var ref, skipped := refs[0], Skip(rd, refs[0]);
      assert rd.skip + Locals(refs) == skipped.skip + Locals(refs[1..]);
      SameHeard(w, rd, skipped, skip);
      if !ref.IsRecordScope() {
        BatchFollows(w, skipped, refs[1..], skip);
      } else {
        assert Scoped(refs)[1..] == Scoped(refs[1..]);
        var answer, aborted := LookFollows(w, skipped, ref, skip);
        if EndBy(Looked(ref, answer, aborted)) == StillFetching {
          HandleKeeps(Look(skipped, ref, answer, aborted), ref, answer.request);
          BatchFollows(w, Handle(Look(skipped, ref, answer, aborted), ref, answer.request), refs[1..], skip);
        }
      }
    }
  }

  lemma SameHeard(w: World, rd: Round, rd': Round, skip: seq<Local>)
    requires Follows(w, rd, skip) && rd' == rd.(skip := rd'.skip)
    ensures Follows(w, rd', skip)
  {
  }

  lemma HandleKeeps(rd: Round, ref: Reference, request: Request)
    ensures Handle(rd, ref, request).heard == rd.heard && Handle(rd, ref, request).skip == rd.skip
  {
  }

  lemma AskFollows(w: World, rd: Round, skip: seq<Local>)
    requires Follows(w, rd, skip) && Ending(rd.heard) == StillFetching
    requires Todo(rd.heard) == [] && rd.skip == SkipAfter(rd.heard, skip)
    ensures var answer := w.getPendings(rd.calls, Trim(rd).skip);
            var asked := Ask(Trim(rd), answer);
            var told := if answer == NoPendingRequest then asked.(emitted := rd.emitted + [NoMore]) else asked;
            && Follows(w, told, skip) && Ending(asked.heard) == EndBy(Told(Trim(rd).skip, answer))
            && Tolds(asked.heard) == Tolds(rd.heard) + 1
            && (answer.Pendings? ==>
                  Todo(asked.heard) == Scoped(answer.refs)
                  && SkipAfter(asked.heard, skip) == asked.skip + Locals(answer.refs))
  {
    hide Lawful, Answers, Emissions, Forwardings, Todo, SkipAfter, Tolds, Ending;
    var h := Told(Trim(rd).skip, w.getPendings(rd.calls, Trim(rd).skip));
    HeardPush(w, rd.heard, h, skip);
    LawPush(w, rd.heard, h, skip);
    assert rd.emitted + [] == rd.emitted && rd.forwarded + [] == rd.forwarded;
  }

  lemma {:induction false} FetchFollows(w: World, rd: Round, limit: nat, skip: seq<Local>)
    requires Follows(w, rd, skip) && Ending(rd.heard) == StillFetching
    requires Todo(rd.heard) == [] && rd.skip == SkipAfter(rd.heard, skip)
    ensures var (after, end) := Fetch(w, rd, limit);
            && Follows(w, after, skip) && Ending(after.heard) == end
            && (end == StillFetching ==> Todo(after.heard) == [] && Tolds(after.heard) == Tolds(rd.heard) + limit)
    decreases limit
  {
    hide Follows, Todo, SkipAfter, Tolds, Ending, Batch;
    if limit == 0 {
    } else {
      AskFollows(w, rd, skip);
      var answer := w.getPendings(rd.calls, Trim(rd).skip);
      if answer.Pendings? {
        var asked := Ask(Trim(rd), answer);
        BatchFollows(w, asked, answer.refs, skip);
        var (after, end) := Batch(w, asked, answer.refs);
        if end == StillFetching { FetchFollows(w, after, limit - 1, skip); }
      }
    }
  }

  // Every round, against any world and from any skip list, keeps to the order of
  // questions, and emits and forwards what the answers call for: so after an error
  // or an abort there is nothing more, and it ends as the last answer says.
  lemma RoundFollows(w: World, skip: seq<Local>, limit: nat)
    ensures var (after, end) := Fetch(w, NEW_ROUND.(skip := skip), limit);
            && Lawful(after.heard, skip) && Answers(w, after.heard)
            && after.emitted == Emissions(after.heard) && after.forwarded == Forwardings(after.heard)
            && end == Ending(after.heard)
            && (end == StillFetching ==> Todo(after.heard) == [] && Tolds(after.heard) == limit)
  {
    hide Fetch;
    FetchFollows(w, NEW_ROUND.(skip := skip), limit, skip);
  }

  predicate SaysNoMore(h: Heard) {
    h.Told? && h.pendings == NoPendingRequest
  }

  // nil means that the ledger has just said "no more pendings", and is the last
  // thing emitted; nothing else emits it.
  lemma {:induction false} NilMeansNoPendings(heard: seq<Heard>, skip: seq<Local>)
    requires Lawful(heard, skip)
    ensures NoMore in Emissions(heard) <==> heard != [] && SaysNoMore(heard[|heard| - 1])
    ensures heard != [] ==> OnlyDeliveries(Emissions(heard[..|heard| - 1]))
    ensures Ending(heard) != ToldEmpty ==> OnlyDeliveries(Emissions(heard))
  {
    if heard == [] {
    } else {
      NilMeansNoPendings(heard[..|heard| - 1], skip);
    }
  }
}
