// Calls of startProcessor: who makes them, that the ledger is asked by one of
// them at a time and its answer used, and that in NotPending a call which has
// returned leaves a processor.
module StartCalls {
  import opened Collections
  import opened Broker
  import opened BrokerSystem
  import opened BrokerLifecycle
  import opened AtMostOnce
  import opened PendingFinished
  import opened NothingDropped
  import opened Notifications
  import opened Ordering
  import opened BrokerRuns

  // The handlers that end in `go q.startProcessor(ctx)`.
  predicate Calls(s: Sys, step: Step) {
    step == HasMoreRequests || step == AbandonedRequests || (step == PendingFinishedMessage && s.registry == map[])
  }

  lemma CallsAreMade(s: Sys, step: Step)
    requires Enabled(s, step)
    ensures |Apply(s, step).starters| == |s.starters| + One(Calls(s, step))
    ensures Calls(s, step) ==> Apply(s, step).starters == s.starters + [Begin]
    ensures !Calls(s, step) && !step.StarterStep? ==> Apply(s, step).starters == s.starters
  {
    hide FeederP, FeederQ, FeederH, ReaderP, ReaderQ, ReaderH, ReaderRegistry, StarterNext, StarterQ, Owned,
         FeederEnabled, ReaderEnabled, NewProcessor, MayStart;
  }

  lemma {:induction false} CallsStay(states: seq<Sys>, steps: seq<Step>, i: nat, k: nat)
    requires IsRun(states, steps) && i <= k < |states|
    ensures |states[i].starters| <= |states[k].starters|
    decreases k
  {
    hide Apply, Enabled, Init, Calls;
    if i == k {
    } else {
      CallsStay(states, steps, i, k - 1);
      assert Enabled(states[k - 1], steps[k - 1]);
      CallsAreMade(states[k - 1], steps[k - 1]);
    }
  }

  // ----- A call made in NotPending

  predicate OnItsWay(s: Sys, x: nat) {
    && x < |s.starters|
    && match s.starters[x]
       case Begin => true
       case Ready => true
       case Returned => s.processors != []
       case _ => false
  }

  lemma StaysOnItsWay(s: Sys, step: Step, x: nat)
    requires Lifecycle(s) && Enabled(s, step) && OnItsWay(s, x) && s.q.pending == NotPending && !s.q.closed
    ensures OnItsWay(Apply(s, step), x)
  {
    hide FeederP, FeederQ, FeederH, ReaderP, ReaderQ, ReaderH, ReaderRegistry, Owned, FeederEnabled, ReaderEnabled,
         NewProcessor, StandardReaders;
  }

  lemma {:induction false} CallGetsThrough(states: seq<Sys>, steps: seq<Step>, h: nat, k: nat)
    requires IsRun(states, steps) && h < k < |states| && h < |steps| && !states[k].q.closed
    requires Calls(states[h], steps[h]) && states[h + 1].q.pending == NotPending
    ensures OnItsWay(states[k], |states[h].starters|) && states[k].q.pending == NotPending
    decreases k
  {
    hide Apply, Enabled, Init, OnItsWay, Calls, Lifecycle;
    var i := k - 1;
    assert Enabled(states[i], steps[i]);
    BrokerRuns.Reachable(states, steps, i);
    PendingNeverFalls(states, steps, i, k);
    PendingNeverFalls(states, steps, h + 1, k);
    if i == h {
      CallsAreMade(states[h], steps[h]);
      NewCallIsOnItsWay(states[h], states[k]);
    } else {
      CallGetsThrough(states, steps, h, i);
      StaysOnItsWay(states[i], steps[i], |states[h].starters|);
    }
  }

  lemma NewCallIsOnItsWay(s: Sys, t: Sys)
    requires t.starters == s.starters + [Begin]
    ensures OnItsWay(t, |s.starters|)
  {
  }

  // Whoever calls startProcessor in a broker that is then NotPending gets a
  // running processor: once the call has returned there is one, until the pulse.
  lemma ReturnedCallLeavesProcessor(states: seq<Sys>, steps: seq<Step>, h: nat, k: nat)
    requires IsRun(states, steps) && h < k < |states| && h < |steps| && !states[k].q.closed
    requires Calls(states[h], steps[h]) && states[h + 1].q.pending == NotPending
    ensures var x := |states[h].starters|;
            x < |states[k].starters| && (states[k].starters[x] == Returned ==> |states[k].processors| == 1)
  {
    hide Apply, Enabled, Init, Calls;
    CallGetsThrough(states, steps, h, k);
    BrokerRuns.Reachable(states, steps, k);
  }

  // So it is when the previous executor reports that it has finished.
  lemma FinishedPendingStarts(states: seq<Sys>, steps: seq<Step>, h: nat, k: nat)
    requires IsRun(states, steps) && h < k < |states| && h < |steps| && !states[k].q.closed
    requires steps[h] == PendingFinishedMessage && states[h].registry == map[]
    ensures states[k].q.pending == NotPending
    ensures var x := |states[h].starters|;
            x < |states[k].starters| && (states[k].starters[x] == Returned ==> |states[k].processors| == 1)
  {
    hide Init, StarterEnabled, Owned, FeederEnabled, ReaderEnabled;
    assert Enabled(states[h], steps[h]);
    FinishedReleases(states[h]);
    ReturnedCallLeavesProcessor(states, steps, h, k);
    CallGetsThrough(states, steps, h, k);
  }

  lemma FinishedReleases(s: Sys)
    requires Enabled(s, PendingFinishedMessage) && s.registry == map[]
    ensures Apply(s, PendingFinishedMessage).q.pending == NotPending
  {
  }

  // ----- The question to the ledger

  // The call has got past clarifyPendingStateFromLedger.
  predicate IsPastQuestion(s: Sys, x: nat) {
    x < |s.starters| && (s.starters[x] == Ready || s.starters[x] == Returned)
  }

  // The ledger failed to answer this call.
  predicate Fails(s: Sys, step: Step, x: nat) {
    step.StarterStep? && step.i == x && x < |s.starters| && s.starters[x] == Asking && step.answer.LedgerError?
  }

  lemma PastQuestionStep(s: Sys, step: Step, x: nat)
    requires Lifecycle(s) && Enabled(s, step) && !Fails(s, step, x)
    requires IsPastQuestion(s, x) ==> s.q.pending != PendingUnknown
    ensures IsPastQuestion(Apply(s, step), x) ==> Apply(s, step).q.pending != PendingUnknown
  {
    hide FeederP, FeederQ, FeederH, ReaderP, ReaderQ, ReaderH, ReaderRegistry, Owned, FeederEnabled, ReaderEnabled,
         NewProcessor, StandardReaders;
    match step
    case FeederStep(i, takesClosed) => FeederFrame(s.q, s.processors[i], takesClosed);
    case ReaderStep(i, r, built) => ReaderFrame(s.q, s.registry, s.processors[i], r, s.h, built);
    case _ =>
  }

  // Unless the ledger failed, a call that has got past its question leaves no
  // broker that does not know whether the object is pending.
  lemma {:induction false} QuestionIsAnswered(states: seq<Sys>, steps: seq<Step>, k: nat, x: nat)
    requires IsRun(states, steps) && k < |states|
    requires forall a :: 0 <= a < k ==> !Fails(states[a], steps[a], x)
    ensures IsPastQuestion(states[k], x) ==> states[k].q.pending != PendingUnknown
  {
    hide Apply, Enabled, Fails, Lifecycle, Once, Owns, Accounted, Announced, Notices, Disciplined, Complete;
    if k == 0 {
    } else {
      QuestionIsAnswered(states, steps, k - 1, x);
      BrokerRuns.Reachable(states, steps, k - 1);
      assert Enabled(states[k - 1], steps[k - 1]);
      PastQuestionStep(states[k - 1], steps[k - 1], x);
    }
  }

  lemma AnswerKept(s: Sys, step: Step, x: nat)
    requires Enabled(s, step) && x < |s.starters| && !(step.StarterStep? && step.i == x)
    ensures x < |Apply(s, step).starters| && Apply(s, step).starters[x] == s.starters[x]
  {
    hide FeederP, FeederQ, FeederH, ReaderP, ReaderQ, ReaderH, ReaderRegistry, StarterNext, StarterQ, Owned,
         FeederEnabled, ReaderEnabled, NewProcessor, MayStart;
  }

  lemma {:induction false} AnswerIsHeld(states: seq<Sys>, steps: seq<Step>, i: nat, j: nat, x: nat, has: bool)
    requires IsRun(states, steps) && i < j < |states| && x < |states[i].starters|
    requires steps[i] == StarterStep(x, Has(has)) && states[i].starters[x] == Asking
    requires forall a :: i < a < j ==> !(steps[a].StarterStep? && steps[a].i == x)
    ensures x < |states[j].starters| && states[j].starters[x] == StarterPc.Answered(has)
    decreases j
  {
    hide Apply, Init;
    assert Enabled(states[j - 1], steps[j - 1]);
    if j == i + 1 {
      AnswerComes(states[i], x, has);
    } else {
      AnswerIsHeld(states, steps, i, j - 1, x, has);
      AnswerKept(states[j - 1], steps[j - 1], x);
    }
  }

  lemma AnswerComes(s: Sys, x: nat, has: bool)
    requires Enabled(s, StarterStep(x, Has(has))) && s.starters[x] == Asking
    ensures x < |Apply(s, StarterStep(x, Has(has))).starters|
    ensures Apply(s, StarterStep(x, Has(has))).starters[x] == StarterPc.Answered(has)
    ensures Apply(s, StarterStep(x, Has(has))).q == s.q
  {
  }

  // The ledger's answer is used: when the call that got it takes the lock, a
  // broker that still knows nothing is InPending or NotPending as the ledger
  // said, and any other keeps what it knows.
  lemma LedgerAnswerCounts(states: seq<Sys>, steps: seq<Step>, i: nat, j: nat, x: nat, has: bool)
    requires IsRun(states, steps) && i < j < |steps| && x < |states[i].starters|
    requires steps[i] == StarterStep(x, Has(has)) && states[i].starters[x] == Asking
    requires forall a :: i < a < j ==> !(steps[a].StarterStep? && steps[a].i == x)
    requires steps[j].StarterStep? && steps[j].i == x
    ensures states[j + 1].q.pending ==
            if states[j].q.pending != PendingUnknown then states[j].q.pending
            else if has then InPending else NotPending
    ensures states[j + 1].q.ledgerHasMoreRequests ==
            if states[j].q.pending == PendingUnknown && has then LedgerHasMoreUnknown
            else states[j].q.ledgerHasMoreRequests
  {
    hide Init, StarterEnabled;
    AnswerIsHeld(states, steps, i, j, x, has);
    assert Enabled(states[j], steps[j]);
  }

  // ----- One question at a time

  predicate HoldsMutex(pc: StarterPc) {
    pc == Asking || pc.Answered?
  }

  function Holders(starters: seq<StarterPc>): nat {
    if starters == [] then 0 else Holders(starters[..|starters| - 1]) + One(HoldsMutex(starters[|starters| - 1]))
  }

  lemma HoldersPush(starters: seq<StarterPc>, pc: StarterPc)
    ensures Holders(starters + [pc]) == Holders(starters) + One(HoldsMutex(pc))
  {
    assert (starters + [pc])[..|starters|] == starters;
  }

  lemma {:induction false} HoldersUpdate(starters: seq<StarterPc>, i: nat, pc: StarterPc)
    requires i < |starters|
    ensures Holders(starters[i := pc]) + One(HoldsMutex(starters[i])) == Holders(starters) + One(HoldsMutex(pc))
  {
    var last := |starters| - 1;
    if i == last {
      assert starters[i := pc][..last] == starters[..last];
    } else {
      assert starters[i := pc][..last] == starters[..last][i := pc];
      HoldersUpdate(starters[..last], i, pc);
    }
  }

  lemma MutexStep(s: Sys, step: Step)
    requires Enabled(s, step) && Holders(s.starters) == One(s.mutexHeld)
    ensures Holders(Apply(s, step).starters) == One(Apply(s, step).mutexHeld)
  {
    hide FeederP, FeederQ, FeederH, ReaderP, ReaderQ, ReaderH, ReaderRegistry, StarterQ, Owned, FeederEnabled,
         ReaderEnabled, NewProcessor, MayStart, Holders;
    HoldersPush(s.starters, Begin);
    if step.StarterStep? {
      HoldersUpdate(s.starters, step.i, StarterNext(s.q, s.starters[step.i], step.answer));
      HoldersUpdate(s.starters, step.i, Begin);
    }
  }

  // The mutex is held exactly while one call asks the ledger or has its answer in
  // hand, and never by two.
  lemma {:induction false} OneQuestionAtATime(states: seq<Sys>, steps: seq<Step>, n: nat)
    requires IsRun(states, steps) && n < |states|
    ensures Holders(states[n].starters) == One(states[n].mutexHeld)
  {
    hide Apply, Enabled, Holders;
    if n == 0 {
      assert Holders(states[0].starters) == 0 by { NoHolders(); }
    } else {
      OneQuestionAtATime(states, steps, n - 1);
      assert Enabled(states[n - 1], steps[n - 1]);
      MutexStep(states[n - 1], steps[n - 1]);
    }
  }

  lemma NoHolders()
    ensures Holders([]) == 0
  {
  }
}
