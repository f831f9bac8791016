// The table of callers that wait for a result
// (contractrequester/contractrequester.go), method by method.
module ContractRequesters {
  import opened Words
  import opened References

  datatype ReturnResults = ReturnResults(requestRef: Reference, error: string, reply: seq<byte>)

  function KeyOf(msg: ReturnResults): Hash {
    msg.requestRef.local.hash
  }

  // ----- What each section under the mutex does to the table, whatever stands
  // for a channel in it

  function Registered<T>(table: map<Hash, T>, reqHash: Hash, ch: T): map<Hash, T> {
    table[reqHash := ch]
  }

  // The caller takes back its entry, whichever channel is in it.
  function Withdrawn<T>(table: map<Hash, T>, reqHash: Hash): map<Hash, T> {
    table - {reqHash}
  }

  // Somebody waits for the result, and gets it.
  predicate Expected<T>(table: map<Hash, T>, msg: ReturnResults) {
    KeyOf(msg) in table
  }

  function Served<T>(table: map<Hash, T>, msg: ReturnResults): map<Hash, T> {
    if Expected(table, msg) then table - {KeyOf(msg)} else table
  }

  // The reply is about the request that was sent.
  predicate SameRequest(request: Reference, reqHash: Hash) {
    request.local.hash == reqHash
  }

  // A channel of capacity one, made for one request.
  class ResultChannel {
    const key: Hash
    var buffer: seq<ReturnResults>
    var closed: bool

    constructor (hash: Hash)
      ensures key == hash && buffer == [] && !closed
    {
      key, buffer, closed := hash, [], false;
    }
  }

  datatype Outcome =
    | RegisteredOnly                    // asynchronous call: the registration is the answer
    | DifferentHash
    | Replied(reply: seq<byte>)
    | CallFailed(error: string)
    | TimedOut
    | NilResult                         // what a closed channel would yield

  class ContractRequester {
    var resultMap: map<Hash, ResultChannel>

    constructor ()
      ensures Valid() && resultMap == map[]
    {
      resultMap := map[];
    }

    // Every channel in the table is open and empty, and under its own key.
    predicate Valid()
      reads this, resultMap.Values
    {
      forall h :: h in resultMap ==> resultMap[h].key == h && resultMap[h].buffer == [] && !resultMap[h].closed
    }

    // The hash of the request has been calculated.
    method CreateResultWaiter(reqHash: Hash) returns (ch: ResultChannel)
      requires Valid()
      modifies this`resultMap
      ensures Valid() && fresh(ch) && ch.key == reqHash && resultMap == Registered(old(resultMap), reqHash, ch)
      ensures resultMap == old(resultMap)[reqHash := ch]
    {
      ch := new ResultChannel(reqHash);
      resultMap := resultMap[reqHash := ch];
    }

    // The called node answered at once; the waiter is given up.
    method HandleCallMethod(reqHash: Hash, ch: ResultChannel?, async: bool)
      requires Valid()
      requires !async ==> ch != null && ch.key == reqHash && !ch.closed
      modifies this`resultMap, ch
      ensures Valid() && resultMap == if async then old(resultMap) else Withdrawn(old(resultMap), reqHash)
      ensures resultMap == if async then old(resultMap) else old(resultMap) - {reqHash}
      ensures ch != null ==> ch.buffer == old(ch.buffer) && ch.closed == (old(ch.closed) || !async)
    {
      if !async {
        resultMap := resultMap - {reqHash};
        ch.closed := true;
      }
    }

    // timeout says which branch of the select is taken; the other one is open
    // only once the channel has something to say.
    method HandleRegisterResult(request: Reference, reqHash: Hash, ch: ResultChannel?, async: bool, timeout: bool)
      returns (outcome: Outcome)
      requires Valid()
      requires !async ==> ch != null && ch.key == reqHash
      requires !async && SameRequest(request, reqHash) && !timeout ==> ch.buffer != [] || ch.closed
      modifies this`resultMap, ch
      ensures Valid()
      ensures outcome == RegisteredOnly <==> async
      ensures outcome == DifferentHash <==> !async && request.local.hash != reqHash
      ensures outcome == TimedOut <==> !async && request.local.hash == reqHash && timeout
      ensures resultMap == if outcome == TimedOut then old(resultMap) - {reqHash} else old(resultMap)
      ensures resultMap == if outcome == TimedOut then Withdrawn(old(resultMap), reqHash) else old(resultMap)
      ensures if outcome.Replied? || outcome.CallFailed? then
                && ch != null && old(ch.buffer) != [] && [old(ch.buffer)[0]] + ch.buffer == old(ch.buffer)
                && var ret := old(ch.buffer)[0];
                   outcome == if ret.error != "" then CallFailed(ret.error) else Replied(ret.reply)
              else ch != null ==> ch.buffer == old(ch.buffer)
      ensures outcome == NilResult ==> ch != null && ch.closed && ch.buffer == []
      ensures ch != null ==> ch.closed == old(ch.closed)
    {
      if async {
        return RegisteredOnly;
      }
      if request.local.hash != reqHash {
        return DifferentHash;
      }
      if timeout {
        resultMap := resultMap - {reqHash};
        return TimedOut;
      }
      if ch.buffer == [] {
        return NilResult;
      }
      var ret := ch.buffer[0];
      ch.buffer := ch.buffer[1..];
      outcome := if ret.error != "" then CallFailed(ret.error) else Replied(ret.reply);
    }

    // The send neither blocks nor panics: the channel is open and has room.
    // null: nobody waits, and the result takes the unwanted path.
    method Result(msg: ReturnResults) returns (sentTo: ResultChannel?)
      requires Valid()
      modifies this`resultMap, resultMap.Values`buffer
      ensures Valid()
      ensures resultMap == Served(old(resultMap), msg) == old(resultMap) - {msg.requestRef.local.hash}
      ensures if msg.requestRef.local.hash in old(resultMap)
              then sentTo == old(resultMap)[msg.requestRef.local.hash] && sentTo.buffer == [msg]
              else sentTo == null
      ensures forall h :: h in old(resultMap) && old(resultMap)[h] != sentTo ==> old(resultMap)[h].buffer == []
    {
      var reqHash := msg.requestRef.local.hash;
      if reqHash !in resultMap {
        return null;
      }
      sentTo := resultMap[reqHash];
      assert |sentTo.buffer| < 1 && !sentTo.closed;
      sentTo.buffer := sentTo.buffer + [msg];
      resultMap := resultMap - {reqHash};
    }
  }
}
