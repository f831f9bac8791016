// The waiter table with its callers running at the same time: each step is one
// section under the mutex, one channel operation, or an answer from the network.
module WaiterSystem {
  import opened Collections
  import opened References
  import opened ContractRequesters

  datatype WaiterPc =
    | Calling                           // has its channel, waits for the reply to its message
    | Waiting                           // in the select
    | Expired                           // its time is up, before it takes the mutex
    | GaveUp                            // left by an early error return
    | Returned(result: seq<ReturnResults>)
    | Crashed                           // read nil from a closed channel

  // A caller with the channel it made; both are known by their index.
  datatype Waiter = Waiter(key: Hash, pc: WaiterPc, buffer: seq<ReturnResults>, closed: bool)

  datatype State = State(
    waiters: seq<Waiter>,
    resultMap: map<Hash, nat>,
    unwanted: seq<ReturnResults>)

  datatype Step =
    | Create(key: Hash)                             // createResultWaiter
    | GiveUp(i: nat)                                // an early error return of SendRequest
    | EarlyReply(i: nat)                            // handleCallMethod
    | RegisterReply(i: nat, request: Reference)     // handleRegisterResult, up to the select
    | Receive(i: nat)
    | Expire(i: nat)
    | CleanUp(i: nat)
    | Result(msg: ReturnResults)

  predicate Init(s: State) {
    s == State([], map[], [])
  }

  predicate Enabled(s: State, step: Step) {
    match step
    case Create(_) => true
    case GiveUp(i) => i < |s.waiters| && s.waiters[i].pc == Calling
    case EarlyReply(i) => i < |s.waiters| && s.waiters[i].pc == Calling
    case RegisterReply(i, _) => i < |s.waiters| && s.waiters[i].pc == Calling
    case Receive(i) =>
      i < |s.waiters| && s.waiters[i].pc == Waiting && (s.waiters[i].buffer != [] || s.waiters[i].closed)
    case Expire(i) => i < |s.waiters| && s.waiters[i].pc == Waiting
    case CleanUp(i) => i < |s.waiters| && s.waiters[i].pc == Expired
    case Result(msg) => KeyOf(msg) in s.resultMap ==> s.resultMap[KeyOf(msg)] < |s.waiters|
  }

  function Set(s: State, i: nat, w: Waiter): State
    requires i < |s.waiters|
  {
    s.(waiters := s.waiters[i := w])
  }

  function Apply(s: State, step: Step): State
    requires Enabled(s, step)
  {
    match step
    case Create(key) =>
      s.(waiters := s.waiters + [Waiter(key, Calling, [], false)],
         resultMap := Registered(s.resultMap, key, |s.waiters|))
    case GiveUp(i) => Set(s, i, s.waiters[i].(pc := GaveUp))
    case EarlyReply(i) =>
      Set(s, i, s.waiters[i].(pc := Returned([]), closed := true))
        .(resultMap := Withdrawn(s.resultMap, s.waiters[i].key))
    case RegisterReply(i, request) =>
      Set(s, i, s.waiters[i].(pc := if SameRequest(request, s.waiters[i].key) then Waiting else GaveUp))
    case Receive(i) =>
      var w := s.waiters[i];
      if w.buffer == [] then Set(s, i, w.(pc := Crashed))
      else Set(s, i, w.(pc := Returned([w.buffer[0]]), buffer := w.buffer[1..]))
    case Expire(i) => Set(s, i, s.waiters[i].(pc := Expired))
    case CleanUp(i) =>
      Set(s, i, s.waiters[i].(pc := Returned([])))
        .(resultMap := Withdrawn(s.resultMap, s.waiters[i].key))
    case Result(msg) =>
      if !Expected(s.resultMap, msg) then s.(unwanted := s.unwanted + [msg])
      else
        var i := s.resultMap[KeyOf(msg)];
        Set(s, i, s.waiters[i].(buffer := s.waiters[i].buffer + [msg])).(resultMap := Served(s.resultMap, msg))
  }

  // ----- What every step keeps

  // Nothing of a caller is in the table but its own channel, and that one is
  // open, empty and unread.
  predicate TableIsSafe(s: State) {
    forall h :: h in s.resultMap ==> s.resultMap[h] < |s.waiters| && Fresh(s.waiters[s.resultMap[h]], h)
  }

  predicate Fresh(w: Waiter, h: Hash) {
    w.key == h && w.buffer == [] && !w.closed && !w.pc.Returned?
  }

  // The result a caller has received.
  function Taken(w: Waiter): seq<ReturnResults> {
    if w.pc.Returned? then w.pc.result else []
  }

  // Received or still in its channel: one result at most, and one for its own
  // request. A channel is closed only by a caller that has returned.
  predicate WaiterIsSafe(w: Waiter) {
    && |Taken(w) + w.buffer| <= 1
    && (forall k :: 0 <= k < |Taken(w) + w.buffer| ==> KeyOf((Taken(w) + w.buffer)[k]) == w.key)
    && (w.closed ==> w.pc.Returned?)
    && w.pc != Crashed
  }

  predicate Safe(s: State) {
    TableIsSafe(s) && forall i :: 0 <= i < |s.waiters| ==> WaiterIsSafe(s.waiters[i])
  }

  lemma TablePreserved(s: State, step: Step)
    requires TableIsSafe(s) && Enabled(s, step)
    ensures TableIsSafe(Apply(s, step))
  {
    hide Fresh;
    var t := Apply(s, step);
    forall h | h in t.resultMap ensures t.resultMap[h] < |t.waiters| && Fresh(t.waiters[t.resultMap[h]], h) {
      var j := t.resultMap[h];
      if j < |s.waiters| && t.waiters[j] != s.waiters[j] {
        FreshKey(s.waiters[j], h);
        FreshKept(s.waiters[j], h);
        if step.Result? { FreshKey(s.waiters[s.resultMap[KeyOf(step.msg)]], KeyOf(step.msg)); }
      } else if step.Create? && step.key == h {
        NewIsFresh(h);
      }
    }
  }

  lemma FreshKey(w: Waiter, h: Hash)
    requires Fresh(w, h)
    ensures w.key == h && w.buffer == [] && !w.closed && !w.pc.Returned?
  {
  }

  lemma FreshKept(w: Waiter, h: Hash)
    requires Fresh(w, h)
    ensures forall pc: WaiterPc :: !pc.Returned? ==> Fresh(w.(pc := pc), h)
  {
  }

  lemma NewIsFresh(h: Hash)
    ensures Fresh(Waiter(h, Calling, [], false), h)
  {
  }

  lemma WaitersPreserved(s: State, step: Step, k: nat)
    requires Safe(s) && Enabled(s, step) && k < |Apply(s, step).waiters|
    ensures WaiterIsSafe(Apply(s, step).waiters[k])
  {
    hide WaiterIsSafe;
    var t := Apply(s, step);
    if k < |s.waiters| && t.waiters[k] == s.waiters[k] {
      assert WaiterIsSafe(s.waiters[k]);
    } else if step.Create? {
      NewIsSafe(step.key);
    } else {
      assert WaiterIsSafe(s.waiters[k]);
      if step.Result? {
        SendIsSafe(s.waiters[k], step.msg);
      } else if step.Receive? {
        ReceiveIsSafe(s.waiters[k]);
      } else {
        OthersAreSafe(s.waiters[k], t.waiters[k]);
      }
    }
  }

  lemma NewIsSafe(key: Hash)
    ensures WaiterIsSafe(Waiter(key, Calling, [], false))
  {
  }

  lemma SendIsSafe(w: Waiter, msg: ReturnResults)
    requires WaiterIsSafe(w) && Taken(w) == [] && w.buffer == [] && w.key == KeyOf(msg)
    ensures WaiterIsSafe(w.(buffer := w.buffer + [msg]))
  {
  }

  lemma ReceiveIsSafe(w: Waiter)
    requires WaiterIsSafe(w) && w.pc == Waiting && (w.buffer != [] || w.closed)
    ensures w.buffer != [] && !w.closed && WaiterIsSafe(w.(pc := Returned([w.buffer[0]]), buffer := w.buffer[1..]))
  {
    assert Taken(w) + w.buffer == w.buffer;
    assert [w.buffer[0]] + w.buffer[1..] == w.buffer;
  }

  lemma OthersAreSafe(w: Waiter, w': Waiter)
    requires WaiterIsSafe(w) && Taken(w') == Taken(w) && w' == w.(pc := w'.pc, closed := w'.closed)
    requires !w.pc.Returned? && (w'.closed ==> w.closed || w'.pc.Returned?) && w'.pc != Crashed
    ensures WaiterIsSafe(w')
  {
  }

  lemma SafePreserved(s: State, step: Step)
    requires Safe(s) && Enabled(s, step)
    ensures Safe(Apply(s, step))
  {
    hide Apply, WaiterIsSafe, TableIsSafe, Enabled;
    TablePreserved(s, step);
    forall k | 0 <= k < |Apply(s, step).waiters| ensures WaiterIsSafe(Apply(s, step).waiters[k]) {
      WaitersPreserved(s, step, k);
    }
  }

  // ----- Runs

  predicate IsRun(states: seq<State>, steps: seq<Step>) {
    && |states| == |steps| + 1
    && Init(states[0])
    && forall n :: 0 <= n < |steps| ==> Enabled(states[n], steps[n]) && states[n + 1] == Apply(states[n], steps[n])
  }

  lemma {:induction false} Reachable(states: seq<State>, steps: seq<Step>, n: nat)
    requires IsRun(states, steps) && n < |states|
    ensures Safe(states[n])
  {
    hide Apply, Enabled, TableIsSafe, WaiterIsSafe;
    if n == 0 {
      StartIsSafe();
    } else {
      Reachable(states, steps, n - 1);
      assert Enabled(states[n - 1], steps[n - 1]);
      SafePreserved(states[n - 1], steps[n - 1]);
    }
  }

  lemma StartIsSafe()
    ensures Safe(State([], map[], []))
  {
  }

  // `result` never blocks under the mutex and never sends on a closed channel;
  // and no channel is in the table under two keys.
  lemma ResultNeverBlocks(states: seq<State>, steps: seq<Step>, n: nat, h: Hash)
    requires IsRun(states, steps) && n < |states| && h in states[n].resultMap
    ensures var i := states[n].resultMap[h];
            i < |states[n].waiters| && !states[n].waiters[i].closed && states[n].waiters[i].buffer == []
            && forall g :: g in states[n].resultMap && states[n].resultMap[g] == i ==> g == h
  {
    hide Apply, Enabled;
    Reachable(states, steps, n);
  }

  // An entry belongs to a caller that still waits, or that gave up early; whoever
  // returned otherwise, with a result or by timeout, has left none behind.
  lemma EntriesOfWaiters(states: seq<State>, steps: seq<Step>, n: nat, h: Hash)
    requires IsRun(states, steps) && n < |states| && h in states[n].resultMap
    ensures var i := states[n].resultMap[h];
            i < |states[n].waiters| && states[n].waiters[i].pc in {Calling, Waiting, Expired, GaveUp}
  {
    hide Apply, Enabled;
    Reachable(states, steps, n);
    FreshKey(states[n].waiters[states[n].resultMap[h]], h);
    assert WaiterIsSafe(states[n].waiters[states[n].resultMap[h]]);
  }

  // What a caller receives is a result, not nil, and one for its own request.
  lemma ReceivesItsOwn(states: seq<State>, steps: seq<Step>, n: nat, i: nat)
    requires IsRun(states, steps) && n < |steps| && steps[n] == Receive(i)
    ensures i < |states[n + 1].waiters| && states[n + 1].waiters[i].pc.Returned?
    ensures var w := states[n + 1].waiters[i]; |w.pc.result| == 1 && KeyOf(w.pc.result[0]) == w.key
  {
    hide TableIsSafe;
    Reachable(states, steps, n);
    assert Enabled(states[n], steps[n]);
    var w := states[n].waiters[i];
    assert WaiterIsSafe(w);
    ReceiveIsSafe(w);
    assert (Taken(w) + w.buffer)[0] == w.buffer[0];
  }

  lemma ReturnedStays(s: State, step: Step, i: nat)
    requires Enabled(s, step) && i < |s.waiters| && s.waiters[i].pc.Returned?
    ensures i < |Apply(s, step).waiters| && Apply(s, step).waiters[i].pc == s.waiters[i].pc
  {
  }

  // And it receives at most one.
  lemma {:induction false} ReceivesOnce(states: seq<State>, steps: seq<Step>, n: nat, m: nat, i: nat)
    requires IsRun(states, steps) && n < m < |states| && n < |steps| && steps[n] == Receive(i)
    ensures i < |states[m].waiters| && states[m].waiters[i].pc.Returned?
    ensures m < |steps| ==> steps[m] != Receive(i)
    decreases m
  {
    hide Apply, Safe;
    if m == n + 1 {
      ReceivesItsOwn(states, steps, n, i);
    } else {
      ReceivesOnce(states, steps, n, m - 1, i);
      assert Enabled(states[m - 1], steps[m - 1]);
      ReturnedStays(states[m - 1], steps[m - 1], i);
    }
  }

  // ----- Conservation

  function Held(ws: seq<Waiter>, r: ReturnResults): nat {
    if ws == [] then 0 else Held(ws[..|ws| - 1], r) + Occurrences(Taken(ws[|ws| - 1]) + ws[|ws| - 1].buffer, r)
  }

  lemma {:induction false} HeldUpdate(ws: seq<Waiter>, i: nat, w: Waiter, r: ReturnResults)
    requires i < |ws|
    ensures Held(ws[i := w], r) + Occurrences(Taken(ws[i]) + ws[i].buffer, r) ==
              Held(ws, r) + Occurrences(Taken(w) + w.buffer, r)
  {
    hide Occurrences, Taken;
    var last := |ws| - 1;
    if i == last {
      assert ws[i := w][..last] == ws[..last];
    } else {
      assert ws[i := w][..last] == ws[..last][i := w];
      HeldUpdate(ws[..last], i, w, r);
    }
  }

  lemma HeldPush(ws: seq<Waiter>, w: Waiter, r: ReturnResults)
    ensures Held(ws + [w], r) == Held(ws, r) + Occurrences(Taken(w) + w.buffer, r)
  {
    assert (ws + [w])[..|ws|] == ws;
  }

  function Everywhere(s: State, r: ReturnResults): nat {
    Held(s.waiters, r) + Occurrences(s.unwanted, r)
  }

  // The waiter a step works on.
  function Subject(s: State, step: Step): nat {
    match step
    case Create(_) => |s.waiters|
    case Result(msg) => if KeyOf(msg) in s.resultMap then s.resultMap[KeyOf(msg)] else |s.waiters|
    case _ => step.i
  }

  lemma StepConserves(s: State, step: Step, r: ReturnResults)
    requires Safe(s) && Enabled(s, step)
    ensures Everywhere(Apply(s, step), r) == Everywhere(s, r) + One(step == Result(r))
  {
    hide Held, Occurrences, TableIsSafe;
    var t, i := Apply(s, step), Subject(s, step);
    if step.Create? {
      HeldPush(s.waiters, Waiter(step.key, Calling, [], false), r);
      var w := Waiter(step.key, Calling, [], false);
      assert Taken(w) + w.buffer == [];
      CountNone(r);
    } else if i < |s.waiters| {
      HeldUpdate(s.waiters, i, t.waiters[i], r);
      SubjectConserves(s, step, i, r);
    } else {
      OccurrencesPush(s.unwanted, step.msg, r);
    }
  }

  lemma CountNone(r: ReturnResults)
    ensures Occurrences([], r) == 0
  {
  }

  lemma SubjectConserves(s: State, step: Step, i: nat, r: ReturnResults)
    requires Safe(s) && Enabled(s, step) && !step.Create? && i == Subject(s, step) && i < |s.waiters|
    ensures var w, w' := s.waiters[i], Apply(s, step).waiters[i];
            Occurrences(Taken(w') + w'.buffer, r) == Occurrences(Taken(w) + w.buffer, r) + One(step == Result(r))
  {
    hide Occurrences, TableIsSafe;
    var w, w' := s.waiters[i], Apply(s, step).waiters[i];
    assert WaiterIsSafe(w);
    if step.Result? {
      OccurrencesPush(Taken(w) + w.buffer, step.msg, r);
      assert Taken(w') + w'.buffer == Taken(w) + w.buffer + [step.msg];
    } else if step.Receive? {
      ReceiveIsSafe(w);
      assert Taken(w') + w'.buffer == w.buffer == Taken(w) + w.buffer;
    } else {
      assert Taken(w') + w'.buffer == Taken(w) + w.buffer;
    }
  }

  function Results(steps: seq<Step>, r: ReturnResults): nat {
    if steps == [] then 0 else Results(steps[..|steps| - 1], r) + if steps[|steps| - 1] == Result(r) then 1 else 0
  }

  // Every result that came in is in the channel of one caller, or was received
  // by one, or took the unwanted path: as often as it came, and never twice.
  lemma {:induction false} ResultsAreConserved(states: seq<State>, steps: seq<Step>, n: nat, r: ReturnResults)
    requires IsRun(states, steps) && n < |states|
    ensures Everywhere(states[n], r) == Results(steps[..n], r)
  {
    hide Apply, Enabled, Safe, Everywhere;
    if n == 0 {
      assert Everywhere(State([], map[], []), r) == 0 by { NothingYet(r); }
    } else {
      var m := n - 1;
      ResultsAreConserved(states, steps, m, r);
      Reachable(states, steps, m);
      assert Enabled(states[m], steps[m]);
      StepConserves(states[m], steps[m], r);
      assert steps[..n][..m] == steps[..m];
    }
  }

  lemma NothingYet(r: ReturnResults)
    ensures Everywhere(State([], map[], []), r) == 0
  {
  }

  // ----- A caller that still waits is found

  predicate Alone(s: State, i: nat) {
    forall j :: 0 <= j < |s.waiters| && i < |s.waiters| && s.waiters[j].key == s.waiters[i].key ==> j == i
  }

  // Until it returns, a caller whose request hash nobody else uses is in the
  // table, or its result is in its channel.
  predicate IsFound(s: State, i: nat) {
    i < |s.waiters| && Alone(s, i) && !s.waiters[i].pc.Returned? ==>
      (s.waiters[i].key in s.resultMap && s.resultMap[s.waiters[i].key] == i) || s.waiters[i].buffer != []
  }

  lemma FoundPreserved(s: State, step: Step, i: nat)
    requires Safe(s) && Enabled(s, step) && IsFound(s, i)
    ensures IsFound(Apply(s, step), i)
  {
    hide WaiterIsSafe;
    var t := Apply(s, step);
    if i < |s.waiters| && Alone(t, i) {
      forall j | 0 <= j < |s.waiters| && s.waiters[j].key == s.waiters[i].key ensures j == i {
        assert t.waiters[j].key == t.waiters[i].key;
      }
      assert Alone(s, i);
      if step.Create? { assert t.waiters[|s.waiters|].key == step.key; }
    }
  }

  lemma {:induction false} WaitersAreFound(states: seq<State>, steps: seq<Step>, n: nat, i: nat)
    requires IsRun(states, steps) && n < |states|
    ensures IsFound(states[n], i)
  {
    hide Apply, Enabled, Safe, Alone;
    if n == 0 {
    } else {
      WaitersAreFound(states, steps, n - 1, i);
      Reachable(states, steps, n - 1);
      assert Enabled(states[n - 1], steps[n - 1]);
      FoundPreserved(states[n - 1], steps[n - 1], i);
    }
  }

  // So the first result for its request goes to it.
  lemma ResultFindsItsWaiter(states: seq<State>, steps: seq<Step>, n: nat, i: nat, msg: ReturnResults)
    requires IsRun(states, steps) && n < |steps| && steps[n] == Result(msg)
    requires i < |states[n].waiters| && Alone(states[n], i) && states[n].waiters[i].key == KeyOf(msg)
    requires !states[n].waiters[i].pc.Returned? && states[n].waiters[i].buffer == []
    ensures states[n + 1].waiters[i].buffer == [msg] && states[n + 1].unwanted == states[n].unwanted
  {
    WaitersAreFound(states, steps, n, i);
  }

  // ----- The registered request and its result

  lemma KeyKept(s: State, step: Step, i: nat)
    requires Enabled(s, step) && i < |s.waiters|
    ensures i < |Apply(s, step).waiters| && Apply(s, step).waiters[i].key == s.waiters[i].key
  {
  }

  lemma {:induction false} KeysStay(states: seq<State>, steps: seq<Step>, m: nat, n: nat, i: nat)
    requires IsRun(states, steps) && m <= n < |states| && i < |states[m].waiters|
    ensures i < |states[n].waiters| && states[n].waiters[i].key == states[m].waiters[i].key
    decreases n
  {
    hide Apply, Enabled, Init;
    if m == n {
    } else {
      KeysStay(states, steps, m, n - 1, i);
      assert Enabled(states[n - 1], steps[n - 1]);
      KeyKept(states[n - 1], steps[n - 1], i);
    }
  }

  // A caller that went on to wait after its request was registered gets the first
  // result for the registered request, if nobody else made the same request.
  lemma RegisteredResultArrives(states: seq<State>, steps: seq<Step>, m: nat, n: nat, i: nat, request: Reference,
      msg: ReturnResults)
    requires IsRun(states, steps) && m < n < |steps|
    requires steps[m] == RegisterReply(i, request)
    requires i < |states[m + 1].waiters| && states[m + 1].waiters[i].pc == Waiting
    requires steps[n] == Result(msg) && msg.requestRef == request
    requires i < |states[n].waiters| && Alone(states[n], i)
    requires !states[n].waiters[i].pc.Returned? && states[n].waiters[i].buffer == []
    ensures states[n + 1].waiters[i].buffer == [msg] && states[n + 1].unwanted == states[n].unwanted
  {
    hide Init, Alone;
    assert Enabled(states[m], steps[m]);
    KeysStay(states, steps, m + 1, n, i);
    ResultFindsItsWaiter(states, steps, n, i, msg);
  }
}
