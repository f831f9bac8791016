// The fetcher as the object of logicrunner/request_fetcher.go: its loops are
// proved to produce the round of module Fetching.
module RequestFetchers {
  import opened References
  import opened ExecutionRegistries
  import opened BrokerSystem
  import opened Fetching
  import opened RoundProtocol

  class RequestFetcher {
    var skipSlice: seq<Local>

    constructor ()
      ensures skipSlice == []
    {
      skipSlice := [];
    }

    // The loop is cut off after `limit` calls of the ledger. `heard` records what
    // the world answered.
    method Fetch(w: World, limit: nat)
      returns (emitted: seq<Item>, forwarded: seq<Reference>, end: End, ghost heard: seq<Heard>)
      modifies this
      ensures Lawful(heard, old(skipSlice)) && Answers(w, heard)
      ensures emitted == Emissions(heard) && forwarded == Forwardings(heard) && end == Ending(heard)
      ensures NoMore in emitted <==> heard != [] && SaysNoMore(heard[|heard| - 1])
      ensures end == StillFetching ==> Tolds(heard) == limit && Todo(heard) == []
      ensures var (after, how) := Fetching.Fetch(w, NEW_ROUND.(skip := old(skipSlice)), limit);
              skipSlice == after.skip && emitted == after.emitted && forwarded == after.forwarded && end == how
              && heard == after.heard
    {
      hide Fetching.Fetch, Batch, Lawful, Answers, Emissions, Forwardings, Ending, Tolds, Todo, SaysNoMore;
      emitted, forwarded, heard := [], [], [];
      var calls, lookups := 0, 0;
      ghost var start := NEW_ROUND.(skip := skipSlice);
      RoundFollows(w, skipSlice, limit);
      NilMeansNoPendings(Fetching.Fetch(w, start, limit).0.heard, skipSlice);
      while calls < limit
        invariant calls <= limit
        invariant Fetching.Fetch(w, start, limit)
               == Fetching.Fetch(w, Round(skipSlice, calls, lookups, emitted, forwarded, heard), limit - calls)
      {
        FetchStep(w, Round(skipSlice, calls, lookups, emitted, forwarded, heard), limit - calls);
        if |skipSlice| > SKIP_SLICE_SIZE_LIMIT {
          skipSlice := [];
        }
        var answer := w.getPendings(calls, skipSlice);
        calls, heard := calls + 1, heard + [Told(skipSlice, answer)];
        if answer == NoPendingRequest {
          emitted := emitted + [NoMore];
          return emitted, forwarded, ToldEmpty, heard;
        }
        if answer == PendingsError {
          return emitted, forwarded, PendingsFailed, heard;
        }
        lookups, emitted, forwarded, end, heard :=
          FetchBatch(w, answer.refs, calls, lookups, emitted, forwarded, heard);
        if end != StillFetching {
          return;
        }
      }
      FetchStops(w, Round(skipSlice, calls, lookups, emitted, forwarded, heard));
      end := StillFetching;
    }

    // The inner loop.
    method FetchBatch(w: World, refs: seq<Reference>, ghost calls: nat, lookups0: nat, emitted0: seq<Item>,
        forwarded0: seq<Reference>, ghost heard0: seq<Heard>)
      returns (lookups: nat, emitted: seq<Item>, forwarded: seq<Reference>, end: End, ghost heard: seq<Heard>)
      modifies this
      ensures Batch(w, Round(old(skipSlice), calls, lookups0, emitted0, forwarded0, heard0), refs)
           == (Round(skipSlice, calls, lookups, emitted, forwarded, heard), end)
    {
      lookups, emitted, forwarded, heard := lookups0, emitted0, forwarded0, heard0;
      ghost var start := Round(skipSlice, calls, lookups, emitted, forwarded, heard);
      for i := 0 to |refs|
        invariant Batch(w, start, refs)
               == Batch(w, Round(skipSlice, calls, lookups, emitted, forwarded, heard), refs[i..])
      {
        var ref := refs[i];
        assert refs[i..][0] == ref && refs[i..][1..] == refs[i + 1..];
        skipSlice := skipSlice + [ref.local];
        if !ref.IsRecordScope() {
          continue;
        }
        var answer := w.getRequest(lookups, ref);
        lookups := lookups + 1;
        if answer == RequestError {
          heard := heard + [Looked(ref, answer, false)];
          return lookups, emitted, forwarded, RequestFailed, heard;
        }
        if w.isAborted(lookups - 1) {
          heard := heard + [Looked(ref, answer, true)];
          return lookups, emitted, forwarded, WasAborted, heard;
        }
        heard := heard + [Looked(ref, answer, false)];
        match answer.request {
          case Incoming(immutable, valid) =>
            if !valid {
              continue;
            }
            emitted := emitted + [Deliver(Transcript(ref, immutable))];
          case Outgoing(valid) =>
            if !valid {
              continue;
            }
            forwarded := forwarded + [ref];
          case Unknown =>
        }
      }
      end := StillFetching;
    }

    lemma FetchStep(w: World, rd: Round, limit: nat)
      requires limit > 0
      ensures var answer := w.getPendings(rd.calls, Trim(rd).skip);
              var asked := Ask(Trim(rd), answer);
              Fetching.Fetch(w, rd, limit) == match answer
                case NoPendingRequest => (asked.(emitted := rd.emitted + [NoMore]), ToldEmpty)
                case PendingsError => (asked, PendingsFailed)
                case Pendings(refs) =>
                  var (after, end) := Batch(w, asked, refs);
                  if end == StillFetching then Fetching.Fetch(w, after, limit - 1) else (after, end)
    {
      hide Batch;
    }

    lemma FetchStops(w: World, rd: Round)
      ensures Fetching.Fetch(w, rd, 0) == (rd, StillFetching)
    {
    }
  }
}
