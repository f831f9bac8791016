// The actor that sends outgoing requests (logicrunner/outgoingsender.go): its
// state and what it does with one message.
module OutgoingSenders {
  import opened Words

  const GOROUTINE_LIMIT := 5000

  datatype Result = LimitExceeded | Outcome(value: seq<byte>, failed: bool)

  // A channel of capacity one that one requester reads.
  class ResultChannel {
    var buffer: seq<Result>

    constructor ()
      ensures buffer == []
    {
      buffer := [];
    }
  }

  datatype Message = SendOutgoing(resultChannel: ResultChannel) | Stop | Other

  datatype Reaction = Rejected | Started | Terminated | Ignored

  // The limit is reached: the next message is rejected.
  predicate Full(counter: int) {
    counter >= GOROUTINE_LIMIT
  }

  class OutgoingSenderActorState {
    var runningGoroutineCounter: int32

    constructor ()
      ensures Valid() && runningGoroutineCounter == 0
    {
      runningGoroutineCounter := 0;
    }

    predicate Valid()
      reads this
    {
      0 <= runningGoroutineCounter <= GOROUTINE_LIMIT
    }

    // Started: a goroutine runs sendOutgoingRequest, then Finish.
    method Receive(message: Message) returns (reaction: Reaction)
      requires Valid()
      requires message.SendOutgoing? ==> message.resultChannel.buffer == []
      modifies this, if message.SendOutgoing? then {message.resultChannel} else {}
      ensures Valid()
      ensures reaction == match message
                          case SendOutgoing(_) => if Full(old(runningGoroutineCounter)) then Rejected else Started
                          case Stop => Terminated
                          case Other => Ignored
      ensures message.SendOutgoing? ==> (reaction == Started <==> old(runningGoroutineCounter) < 5000)
      ensures runningGoroutineCounter == old(runningGoroutineCounter) + if reaction == Started then 1 else 0
      ensures message.SendOutgoing? ==>
                message.resultChannel.buffer == if reaction == Rejected then [LimitExceeded] else []
    {
      match message {
        case SendOutgoing(resultChannel) =>
          if Full(runningGoroutineCounter) {
            resultChannel.buffer := resultChannel.buffer + [LimitExceeded];
            return Rejected;
          }
          runningGoroutineCounter := runningGoroutineCounter + 1;
          return Started;
        case Stop =>
          return Terminated;
        case Other =>
          return Ignored;
      }
    }

    // The end of such a goroutine.
    method Finish(resultChannel: ResultChannel, result: Result)
      requires Valid() && runningGoroutineCounter > 0 && resultChannel.buffer == []
      modifies this, resultChannel
      ensures Valid() && runningGoroutineCounter == old(runningGoroutineCounter) - 1 && resultChannel.buffer == [result]
    {
      resultChannel.buffer := resultChannel.buffer + [result];
      runningGoroutineCounter := runningGoroutineCounter - 1;
    }
  }
}
