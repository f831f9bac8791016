// The actor handles one message at a time; its atomic operations interleave with
// those of the goroutines it has started.
module OutgoingSystem {
  import opened Collections
  import opened OutgoingSenders

  datatype Hand =
    | Free
    | Checked(mail: nat)                // found the counter below the limit
    | Added(mail: nat)                  // before the `go`

  datatype Goroutine =
    | Working(mail: nat)                // before it sends its result
    | Leaving(mail: nat)                // before it decrements the counter
    | Gone(mail: nat)

  // What became of a send message.
  datatype Fate = Refused | InHand | Given(goroutine: nat)

  // A send message: how many results its channel got, and how many were taken.
  datatype Mail = Mail(fate: Fate, sent: nat, taken: nat)

  datatype State = State(counter: int, hand: Hand, mails: seq<Mail>, goroutines: seq<Goroutine>, terminated: bool)

  datatype Step =
    | ReceiveSend
    | ReceiveStop
    | ReceiveOther
    | Add
    | Spawn
    | SendResult(g: nat)
    | Decrement(g: nat)
    | Take(m: nat)                      // the requester reads its channel

  predicate Init(s: State) {
    s == State(0, Free, [], [], false)
  }

  predicate Enabled(s: State, step: Step) {
    match step
    case ReceiveSend => s.hand == Free && !s.terminated
    case ReceiveStop => s.hand == Free && !s.terminated
    case ReceiveOther => s.hand == Free && !s.terminated
    case Add => s.hand.Checked?
    case Spawn => s.hand.Added? && s.hand.mail < |s.mails|
    case SendResult(g) => g < |s.goroutines| && s.goroutines[g].Working? && s.goroutines[g].mail < |s.mails|
    case Decrement(g) => g < |s.goroutines| && s.goroutines[g].Leaving?
    case Take(m) => m < |s.mails| && s.mails[m].taken < s.mails[m].sent
  }

  function Apply(s: State, step: Step): State
    requires Enabled(s, step)
  {
    match step
    case ReceiveSend =>
      if Full(s.counter) then s.(mails := s.mails + [Mail(Refused, 1, 0)])
      else s.(mails := s.mails + [Mail(InHand, 0, 0)], hand := Checked(|s.mails|))
    case ReceiveStop => s.(terminated := true)
    case ReceiveOther => s
    case Add => s.(counter := s.counter + 1, hand := Added(s.hand.mail))
    case Spawn =>
      var m := s.hand.mail;
      s.(hand := Free, goroutines := s.goroutines + [Working(m)],
         mails := s.mails[m := s.mails[m].(fate := Given(|s.goroutines|))])
    case SendResult(g) =>
      var m := s.goroutines[g].mail;
      s.(goroutines := s.goroutines[g := Leaving(m)], mails := s.mails[m := s.mails[m].(sent := s.mails[m].sent + 1)])
    case Decrement(g) => s.(counter := s.counter - 1, goroutines := s.goroutines[g := Gone(s.goroutines[g].mail)])
    case Take(m) => s.(mails := s.mails[m := s.mails[m].(taken := s.mails[m].taken + 1)])
  }

  // ----- What every step keeps

  function Live(gs: seq<Goroutine>): nat {
    if gs == [] then 0 else Live(gs[..|gs| - 1]) + One(!gs[|gs| - 1].Gone?)
  }

  function RefusedIn(ms: seq<Mail>): nat {
    if ms == [] then 0 else RefusedIn(ms[..|ms| - 1]) + One(ms[|ms| - 1].fate == Refused)
  }

  lemma {:induction false} LiveUpdate(gs: seq<Goroutine>, i: nat, g: Goroutine)
    requires i < |gs|
    ensures Live(gs[i := g]) + One(!gs[i].Gone?) == Live(gs) + One(!g.Gone?)
  {
    var last := |gs| - 1;
    if i == last {
      assert gs[i := g][..last] == gs[..last];
    } else {
      assert gs[i := g][..last] == gs[..last][i := g];
      LiveUpdate(gs[..last], i, g);
    }
  }

  lemma LivePush(gs: seq<Goroutine>, g: Goroutine)
    ensures Live(gs + [g]) == Live(gs) + One(!g.Gone?)
  {
    assert (gs + [g])[..|gs|] == gs;
  }

  lemma {:induction false} RefusedUpdate(ms: seq<Mail>, i: nat, m: Mail)
    requires i < |ms|
    ensures RefusedIn(ms[i := m]) + One(ms[i].fate == Refused) == RefusedIn(ms) + One(m.fate == Refused)
  {
    var last := |ms| - 1;
    if i == last {
      assert ms[i := m][..last] == ms[..last];
    } else {
      assert ms[i := m][..last] == ms[..last][i := m];
      RefusedUpdate(ms[..last], i, m);
    }
  }

  lemma RefusedPush(ms: seq<Mail>, m: Mail)
    ensures RefusedIn(ms + [m]) == RefusedIn(ms) + One(m.fate == Refused)
  {
    assert (ms + [m])[..|ms|] == ms;
  }

  // The counter counts the goroutines, and the actor cannot pass the limit.
  predicate Counted(s: State) {
    && s.counter == Live(s.goroutines) + One(s.hand.Added?)
    && s.counter <= GOROUTINE_LIMIT
    && (s.hand.Checked? ==> s.counter < GOROUTINE_LIMIT)
  }

  // A message was refused and told so, or is in hand, or is with one goroutine,
  // which is not gone before it has sent its one result.
  predicate MailIsSound(s: State, m: nat)
    requires m < |s.mails|
  {
    && s.mails[m].taken <= s.mails[m].sent
    && match s.mails[m].fate
       case Refused => s.mails[m].sent == 1
       case InHand => s.hand != Free && s.hand.mail == m && s.mails[m].sent == 0
       case Given(g) =>
         g < |s.goroutines| && s.goroutines[g].mail == m && s.mails[m].sent == One(!s.goroutines[g].Working?)
  }

  predicate MailsAreSound(s: State) {
    && (forall m :: 0 <= m < |s.mails| ==> MailIsSound(s, m))
    && (s.hand != Free ==> s.hand.mail < |s.mails| && s.mails[s.hand.mail].fate == InHand)
    && (forall g :: 0 <= g < |s.goroutines| ==> HasMail(s, g))
  }

  predicate HasMail(s: State, g: nat)
    requires g < |s.goroutines|
  {
    s.goroutines[g].mail < |s.mails| && s.mails[s.goroutines[g].mail].fate == Given(g)
  }

  predicate Conserved(s: State) {
    |s.mails| == RefusedIn(s.mails) + One(s.hand != Free) + |s.goroutines|
  }

  predicate Sound(s: State) {
    Counted(s) && MailsAreSound(s) && Conserved(s)
  }

  lemma CountedPreserved(s: State, step: Step)
    requires Counted(s) && Enabled(s, step)
    ensures Counted(Apply(s, step))
  {
    hide Live;
    match step
    case Spawn => LivePush(s.goroutines, Working(s.hand.mail));
    case SendResult(g) => LiveUpdate(s.goroutines, g, Leaving(s.goroutines[g].mail));
    case Decrement(g) => LiveUpdate(s.goroutines, g, Gone(s.goroutines[g].mail));
    case _ =>
  }

  lemma MailsPreserved(s: State, step: Step)
    requires MailsAreSound(s) && Enabled(s, step)
    ensures MailsAreSound(Apply(s, step))
  {
    var t := Apply(s, step);
    if step.SendResult? { assert HasMail(s, step.g); }
    forall m | 0 <= m < |t.mails| ensures MailIsSound(t, m) {
      if m < |s.mails| { assert MailIsSound(s, m); }
    }
    forall g | 0 <= g < |t.goroutines| ensures HasMail(t, g) {
      if g < |s.goroutines| { assert HasMail(s, g); }
    }
  }

  lemma ConservedPreserved(s: State, step: Step)
    requires MailsAreSound(s) && Conserved(s) && Enabled(s, step)
    ensures Conserved(Apply(s, step))
  {
    hide RefusedIn, MailIsSound, HasMail;
    match step
    case ReceiveSend =>
      RefusedPush(s.mails, Mail(Refused, 1, 0));
      RefusedPush(s.mails, Mail(InHand, 0, 0));
    case Spawn => RefusedUpdate(s.mails, s.hand.mail, s.mails[s.hand.mail].(fate := Given(|s.goroutines|)));
    case SendResult(g) =>
      var m := s.goroutines[g].mail;
      RefusedUpdate(s.mails, m, s.mails[m].(sent := s.mails[m].sent + 1));
    case Take(m) => RefusedUpdate(s.mails, m, s.mails[m].(taken := s.mails[m].taken + 1));
    case _ =>
  }

  predicate IsRun(states: seq<State>, steps: seq<Step>) {
    && |states| == |steps| + 1
    && Init(states[0])
    && forall n :: 0 <= n < |steps| ==> Enabled(states[n], steps[n]) && states[n + 1] == Apply(states[n], steps[n])
  }

  lemma {:induction false} Reachable(states: seq<State>, steps: seq<Step>, n: nat)
    requires IsRun(states, steps) && n < |states|
    ensures Sound(states[n])
  {
    hide Apply, Enabled, MailsAreSound, Counted, Conserved;
    if n == 0 {
      StartIsSound();
    } else {
      Reachable(states, steps, n - 1);
      assert Enabled(states[n - 1], steps[n - 1]);
      CountedPreserved(states[n - 1], steps[n - 1]);
      MailsPreserved(states[n - 1], steps[n - 1]);
      ConservedPreserved(states[n - 1], steps[n - 1]);
    }
  }

  lemma StartIsSound()
    ensures Sound(State(0, Free, [], [], false))
  {
  }

  // ----- The machine and the methods

  // With nothing in between, the three steps are the method Receive: a message is
  // rejected and told so, or the counter and the goroutines are one more.
  lemma StepsAreReceive(s: State)
    requires Enabled(s, ReceiveSend)
    ensures var received := Apply(s, ReceiveSend);
            if Full(s.counter) then received == s.(mails := s.mails + [Mail(Refused, 1, 0)])
            else
              Enabled(received, Add) && Enabled(Apply(received, Add), Spawn)
              && Apply(Apply(received, Add), Spawn)
                 == s.(counter := s.counter + 1, mails := s.mails + [Mail(Given(|s.goroutines|), 0, 0)],
                       goroutines := s.goroutines + [Working(|s.mails|)])
  {
    if !Full(s.counter) {
      var mails := s.mails + [Mail(InHand, 0, 0)];
      assert mails[|s.mails| := Mail(Given(|s.goroutines|), 0, 0)] == s.mails + [Mail(Given(|s.goroutines|), 0, 0)];
    }
  }

  // And the two steps of a goroutine are the method Finish.
  lemma StepsAreFinish(s: State, g: nat)
    requires Enabled(s, SendResult(g))
    ensures var m := s.goroutines[g].mail;
            Enabled(Apply(s, SendResult(g)), Decrement(g))
            && Apply(Apply(s, SendResult(g)), Decrement(g))
               == s.(counter := s.counter - 1, goroutines := s.goroutines[g := Gone(m)],
                     mails := s.mails[m := s.mails[m].(sent := s.mails[m].sent + 1)])
  {
    var m := s.goroutines[g].mail;
    assert s.goroutines[g := Leaving(m)][g := Gone(m)] == s.goroutines[g := Gone(m)];
  }

  // ----- Theorems

  // Whenever the actor is between messages the counter is the number of live
  // goroutines, and at every moment it stays within the limit.
  lemma GoroutineBound(states: seq<State>, steps: seq<Step>, n: nat)
    requires IsRun(states, steps) && n < |states|
    ensures 0 <= states[n].counter <= 5000 && Live(states[n].goroutines) <= 5000
    ensures states[n].hand == Free ==> states[n].counter == Live(states[n].goroutines)
  {
    hide Apply, Enabled, Live;
    Reachable(states, steps, n);
  }

  // The goroutines that have decremented the counter.
  function Finished(gs: seq<Goroutine>): nat {
    if gs == [] then 0 else Finished(gs[..|gs| - 1]) + One(gs[|gs| - 1].Gone?)
  }

  lemma {:induction false} LiveOrFinished(gs: seq<Goroutine>)
    ensures Live(gs) + Finished(gs) == |gs|
  {
    if gs == [] {
    } else {
      LiveOrFinished(gs[..|gs| - 1]);
    }
  }

  // At every moment: received = rejected + in hand + running + finished; and
  // between messages nothing is in hand.
  lemma EveryMessageIsHandled(states: seq<State>, steps: seq<Step>, n: nat)
    requires IsRun(states, steps) && n < |states|
    ensures var s := states[n];
            |s.mails| == RefusedIn(s.mails) + One(s.hand != Free) + Live(s.goroutines) + Finished(s.goroutines)
  {
    hide Apply, Enabled, RefusedIn, Live, Finished;
    Reachable(states, steps, n);
    LiveOrFinished(states[n].goroutines);
  }

  // A channel gets one result at most, so no send on it ever blocks.
  lemma OneResultEach(states: seq<State>, steps: seq<Step>, n: nat, m: nat)
    requires IsRun(states, steps) && n < |states| && m < |states[n].mails|
    ensures states[n].mails[m].taken <= states[n].mails[m].sent <= 1
    ensures n < |steps| && steps[n].SendResult? && states[n].goroutines[steps[n].g].mail == m ==>
              states[n].mails[m].sent == 0
    ensures states[n].mails[m].sent == 1 <==>
              states[n].mails[m].fate == Refused
              || (states[n].mails[m].fate.Given? && states[n].mails[m].fate.goroutine < |states[n].goroutines|
                  && !states[n].goroutines[states[n].mails[m].fate.goroutine].Working?)
  {
    hide Apply, Counted, Conserved;
    Reachable(states, steps, n);
    assert MailIsSound(states[n], m);
    if n < |steps| {
      assert Enabled(states[n], steps[n]);
      if steps[n].SendResult? { assert HasMail(states[n], steps[n].g); }
    }
  }

  // After the stop message no further message is received.
  lemma {:induction false} StopIsFinal(states: seq<State>, steps: seq<Step>, n: nat, m: nat)
    requires IsRun(states, steps) && n < m < |states| && n < |steps| && steps[n] == ReceiveStop
    ensures states[m].terminated && |states[m].mails| == |states[n].mails|
    ensures m < |steps| ==> !(steps[m].ReceiveSend? || steps[m].ReceiveStop? || steps[m].ReceiveOther?)
    decreases m
  {
    if m > n + 1 {
      StopIsFinal(states, steps, n, m - 1);
    }
    assert Enabled(states[m - 1], steps[m - 1]);
    if m < |steps| { assert Enabled(states[m], steps[m]); }
  }
}
