/** The event sink (internal/transport/sink.go) as a transition system: any
    number of senders and closers and one receiver, interleaved step by step.
    Channels, select, sync.Once and RWMutex behave as the Go Language
    Specification and the sync package say: a send on a closed channel and a
    second close panic, a pending writer keeps new readers out. */
module EventSink {
  import opened Basics
  import opened Transport

  /** Where one goroutine stands in send. */
  datatype SenderPc =
    | Idle
    | WantLock(ev: Event)            // before RLock
    | Checking(ev: Event)            // holds the lock; first select
    | Selecting(ev: Event)           // holds the lock; second select
    | Leaving(ev: Event, ok: bool)   // holds the lock; about to RUnlock and return ok

  /** Where one goroutine stands in close. */
  datatype CloserPc =
    | Outside
    | WaitingOnce   // another caller is inside once.Do
    | Stopping      // before close(s.stopped)
    | Announcing    // before mu.Lock
    | Draining      // Lock pending: waiting for readers to leave
    | Closing       // holds the lock; before close(s.ch)
    | Unlocking     // before Unlock and the end of once.Do

  datatype Once = Fresh | Running(c: nat) | Finished

  datatype Writer = Free | Pending | Holding

  datatype State = State(
    cap: nat, ch: seq<Event>, chClosed: bool, stopped: bool,
    readers: nat, writer: Writer, once: Once,
    senders: seq<SenderPc>, closers: seq<CloserPc>,
    panicked: bool,
    accepted: seq<Event>,       // history: events put into the channel
    received: seq<Event>,       // history: events the receiver took
    offered: multiset<Event>,   // history: events send was called with
    reported: multiset<Event>,  // history: events whose send returned true
    refused: multiset<Event>)   // history: events whose send returned false

  datatype Step =
    | CallSend(i: nat, ev: Event)
    | RLock(i: nat)
    | CheckStopped(i: nat)
    | SendCase(i: nat)      // case s.ch <- ev, into the buffer
    | HandoffCase(i: nat)   // case s.ch <- ev, straight to a waiting receiver
    | StoppedCase(i: nat)   // case <-s.stopped
    | CtxCase(i: nat)       // case <-ctx.Done(), which may become ready at any time
    | ReturnSend(i: nat)
    | Receive
    | CallClose(c: nat)
    | CloseStopped(c: nat)
    | AnnounceLock(c: nat)
    | TakeLock(c: nat)
    | CloseChannel(c: nat)
    | FinishOnce(c: nat)
    | ReturnClose(c: nat)

  function Init(cap: nat, senders: nat, closers: nat): State {
    State(cap, [], false, false, 0, Free, Fresh,
          seq(senders, _ => Idle), seq(closers, _ => Outside), false, [], [], multiset{}, multiset{}, multiset{})
  }

  predicate Sender(s: State, i: nat) {
    i < |s.senders|
  }

  predicate At(s: State, c: nat, pc: CloserPc) {
    c < |s.closers| && s.closers[c] == pc
  }

  predicate Enabled(s: State, step: Step) {
    !s.panicked &&
    match step
    case CallSend(i, _) => Sender(s, i) && s.senders[i].Idle?
    case RLock(i) => Sender(s, i) && s.senders[i].WantLock? && s.writer == Free
    case CheckStopped(i) => Sender(s, i) && s.senders[i].Checking?
    case SendCase(i) => Sender(s, i) && s.senders[i].Selecting? && (s.chClosed || |s.ch| < s.cap)
    case HandoffCase(i) => Sender(s, i) && s.senders[i].Selecting? && (s.chClosed || s.ch == [])
    case StoppedCase(i) => Sender(s, i) && s.senders[i].Selecting? && s.stopped
    case CtxCase(i) => Sender(s, i) && s.senders[i].Selecting?
    case ReturnSend(i) => Sender(s, i) && s.senders[i].Leaving?
    case Receive => s.ch != []
    case CallClose(c) => At(s, c, Outside)
    case CloseStopped(c) => At(s, c, Stopping)
    case AnnounceLock(c) => At(s, c, Announcing) && s.writer == Free
    case TakeLock(c) => At(s, c, Draining) && s.readers == 0
    case CloseChannel(c) => At(s, c, Closing)
    case FinishOnce(c) => At(s, c, Unlocking)
    case ReturnClose(c) => At(s, c, WaitingOnce) && s.once.Finished?
  }

  function Move(s: State, i: nat, pc: SenderPc): State
    requires Sender(s, i)
  {
    s.(senders := s.senders[i := pc])
  }

  function MoveCloser(s: State, c: nat, pc: CloserPc): State
    requires c < |s.closers|
  {
    s.(closers := s.closers[c := pc])
  }

  function Apply(s: State, step: Step): State
    requires Enabled(s, step)
  {
    match step
    case CallSend(i, ev) => Move(s, i, WantLock(ev)).(offered := s.offered + multiset{ev})
    case RLock(i) => Move(s, i, Checking(s.senders[i].ev)).(readers := s.readers + 1)
    case CheckStopped(i) =>
      var ev := s.senders[i].ev;
      Move(s, i, if s.stopped then Leaving(ev, false) else Selecting(ev))
    case SendCase(i) =>
      var ev := s.senders[i].ev;
      if s.chClosed then s.(panicked := true)
      else Move(s, i, Leaving(ev, true)).(ch := s.ch + [ev], accepted := s.accepted + [ev])
    case HandoffCase(i) =>
      var ev := s.senders[i].ev;
      if s.chClosed then s.(panicked := true)
      else Move(s, i, Leaving(ev, true)).(accepted := s.accepted + [ev], received := s.received + [ev])
    case StoppedCase(i) => Move(s, i, Leaving(s.senders[i].ev, false))
    case CtxCase(i) => Move(s, i, Leaving(s.senders[i].ev, false))
    case ReturnSend(i) =>
      var Leaving(ev, ok) := s.senders[i];
      var released := Move(s, i, Idle).(readers := if s.readers > 0 then s.readers - 1 else 0);
      if ok then released.(reported := s.reported + multiset{ev})
      else released.(refused := s.refused + multiset{ev})
    case Receive => s.(ch := s.ch[1..], received := s.received + [s.ch[0]])
    case CallClose(c) =>
      (match s.once
       case Fresh => MoveCloser(s, c, Stopping).(once := Running(c))
       case Running(_) => MoveCloser(s, c, WaitingOnce)
       case Finished => s)
    case CloseStopped(c) =>
      if s.stopped then s.(panicked := true) else MoveCloser(s, c, Announcing).(stopped := true)
    case AnnounceLock(c) => MoveCloser(s, c, Draining).(writer := Pending)
    case TakeLock(c) => MoveCloser(s, c, Closing).(writer := Holding)
    case CloseChannel(c) =>
      if s.chClosed then s.(panicked := true) else MoveCloser(s, c, Unlocking).(chClosed := true)
    case FinishOnce(c) => MoveCloser(s, c, Outside).(writer := Free, once := Finished)
    case ReturnClose(c) => MoveCloser(s, c, Outside)
  }

  /** Runs: sequences of steps, each enabled where it is taken. */
  ghost predicate Run(s: State, steps: seq<Step>)
    decreases |steps|, 0
  {
    steps == [] ||
    (Run(s, steps[..|steps| - 1]) && Enabled(After(s, steps[..|steps| - 1]), steps[|steps| - 1]))
  }

  ghost function After(s: State, steps: seq<Step>): State
    requires Run(s, steps)
    decreases |steps|, 1
  {
    if steps == [] then s else Apply(After(s, steps[..|steps| - 1]), steps[|steps| - 1])
  }

  // ---------- counting senders ----------

  predicate Inside(pc: SenderPc) {
    pc.Checking? || pc.Selecting? || pc.Leaving?
  }

  /** How many senders hold the read lock. */
  function CountInside(ss: seq<SenderPc>): nat {
    if ss == [] then 0 else CountInside(ss[1..]) + if Inside(ss[0]) then 1 else 0
  }

  function WorkOf(pc: SenderPc): nat {
    match pc
    case Checking(_) => 2
    case Selecting(_) => 2
    case Leaving(_, _) => 1
    case _ => 0
  }

  /** Steps the senders inside still need to leave once stopped is closed. */
  function Work(ss: seq<SenderPc>): nat {
    if ss == [] then 0 else Work(ss[1..]) + WorkOf(ss[0])
  }

  function InFlightOf(pc: SenderPc): multiset<Event> {
    if pc.Leaving? && pc.ok then multiset{pc.ev} else multiset{}
  }

  /** Events accepted whose send has not returned yet. */
  function InFlight(ss: seq<SenderPc>): multiset<Event> {
    if ss == [] then multiset{} else InFlight(ss[1..]) + InFlightOf(ss[0])
  }

  lemma {:induction false} CountsUpdate(ss: seq<SenderPc>, i: nat, pc: SenderPc)
    requires i < |ss|
    ensures CountInside(ss[i := pc]) + (if Inside(ss[i]) then 1 else 0) == CountInside(ss) + (if Inside(pc) then 1 else 0)
    ensures Work(ss[i := pc]) + WorkOf(ss[i]) == Work(ss) + WorkOf(pc)
  {
    if i == 0 {
      assert ss[i := pc][1..] == ss[1..];
    } else {
      assert ss[i := pc][1..] == ss[1..][i - 1 := pc];
      CountsUpdate(ss[1..], i - 1, pc);
    }
  }

  lemma {:induction false} InFlightUpdate(ss: seq<SenderPc>, i: nat, pc: SenderPc)
    requires i < |ss|
    ensures InFlight(ss[i := pc]) + InFlightOf(ss[i]) == InFlight(ss) + InFlightOf(pc)
  {
    if i == 0 {
      assert ss[i := pc][1..] == ss[1..];
    } else {
      assert ss[i := pc][1..] == ss[1..][i - 1 := pc];
      InFlightUpdate(ss[1..], i - 1, pc);
      AddBoth(InFlight(ss[1..][i - 1 := pc]), InFlightOf(ss[i]), InFlight(ss[1..]), InFlightOf(pc), InFlightOf(ss[0]));
    }
  }

  lemma {:induction false} InsideIsCounted(ss: seq<SenderPc>, i: nat)
    requires i < |ss| && Inside(ss[i])
    ensures CountInside(ss) > 0
  {
    if i > 0 {
      InsideIsCounted(ss[1..], i - 1);
    }
  }

  lemma {:induction false} SomeoneInside(ss: seq<SenderPc>) returns (i: nat)
    requires CountInside(ss) > 0
    ensures i < |ss| && Inside(ss[i])
  {
    if Inside(ss[0]) {
      i := 0;
    } else {
      var j := SomeoneInside(ss[1..]);
      i := j + 1;
    }
  }

  // ---------- the invariant ----------

  /** What stage of close means for the shared state. */
  ghost predicate Stage(s: State, pc: CloserPc) {
    match pc
    case Stopping => !s.stopped && !s.chClosed && s.writer == Free
    case Announcing => s.stopped && !s.chClosed && s.writer == Free
    case Draining => s.stopped && !s.chClosed && s.writer == Pending
    case Closing => s.stopped && !s.chClosed && s.writer == Holding
    case Unlocking => s.stopped && s.chClosed && s.writer == Holding
    case _ => false
  }

  predicate Bystander(pc: CloserPc) {
    pc == Outside || pc == WaitingOnce
  }

  ghost predicate OnceInv(s: State) {
    match s.once
    case Fresh =>
      !s.stopped && !s.chClosed && s.writer == Free
      && forall c :: 0 <= c < |s.closers| ==> s.closers[c] == Outside
    case Running(r) =>
      r < |s.closers| && Stage(s, s.closers[r])
      && forall c :: 0 <= c < |s.closers| && c != r ==> Bystander(s.closers[c])
    case Finished =>
      s.stopped && s.chClosed && s.writer == Free
      && forall c :: 0 <= c < |s.closers| ==> Bystander(s.closers[c])
  }

  ghost predicate LockInv(s: State) {
    && s.readers == CountInside(s.senders)
    && (s.writer == Holding ==> s.readers == 0)
    && (s.chClosed ==> forall i :: 0 <= i < |s.senders| ==> !s.senders[i].Selecting?)
  }

  ghost predicate ChannelInv(s: State) {
    && |s.ch| <= s.cap
    && s.accepted == s.received + s.ch
    && multiset(s.accepted) == s.reported + InFlight(s.senders)
  }

  ghost predicate Inv(s: State) {
    !s.panicked && OnceInv(s) && LockInv(s) && ChannelInv(s)
  }

  lemma {:induction false} NobodyInside(n: nat)
    ensures CountInside(seq(n, _ => Idle)) == 0
    ensures InFlight(seq(n, _ => Idle)) == multiset{}
  {
    if n > 0 {
      assert seq(n, _ => Idle)[1..] == seq(n - 1, _ => Idle);
      NobodyInside(n - 1);
    }
  }

  lemma InitInv(cap: nat, senders: nat, closers: nat)
    ensures Inv(Init(cap, senders, closers))
  {
    NobodyInside(senders);
  }

  predicate ByCloser(step: Step) {
    step.CallClose? || step.CloseStopped? || step.AnnounceLock? || step.TakeLock?
    || step.CloseChannel? || step.FinishOnce? || step.ReturnClose?
  }

  lemma CloserStepInv(s: State, step: Step)
    requires Inv(s) && Enabled(s, step) && ByCloser(step)
    ensures Inv(Apply(s, step))
  {
    var s' := Apply(s, step);
    CloserStepOnce(s, step);
    if step.CloseChannel? {
      forall i | 0 <= i < |s.senders| ensures !s.senders[i].Selecting? {
        if s.senders[i].Selecting? {
          InsideIsCounted(s.senders, i);
          assert false;
        }
      }
    }
    assert s'.senders == s.senders && s'.accepted == s.accepted && s'.reported == s.reported;
  }

  lemma CloserStepOnce(s: State, step: Step)
    requires Inv(s) && Enabled(s, step) && ByCloser(step)
    ensures !Apply(s, step).panicked && OnceInv(Apply(s, step))
    ensures Apply(s, step).writer == Holding ==> s.readers == 0
  {
    hide ChannelInv, CountInside, InFlight, Work;
    if step.CallClose? {
      CallCloseOnce(s, step.c);
    } else if !step.ReturnClose? {
      RunningStepOnce(s, step);
    }
  }

  lemma CallCloseOnce(s: State, c: nat)
    requires OnceInv(s) && Enabled(s, CallClose(c))
    ensures OnceInv(Apply(s, CallClose(c)))
  {
  }

  lemma RunningStepOnce(s: State, step: Step)
    requires !s.panicked && OnceInv(s) && (s.writer == Holding ==> s.readers == 0)
    requires Enabled(s, step) && ByCloser(step) && !step.CallClose? && !step.ReturnClose?
    ensures !Apply(s, step).panicked && OnceInv(Apply(s, step))
    ensures Apply(s, step).writer == Holding ==> s.readers == 0
  {
  }

  lemma SenderStepMoves(s: State, step: Step)
    requires Inv(s) && Enabled(s, step) && !ByCloser(step) && step != Receive
    ensures
      var s' := Apply(s, step);
      && !s'.panicked && s'.senders == s.senders[step.i := s'.senders[step.i]]
      && s'.once == s.once && s'.closers == s.closers && s'.stopped == s.stopped
      && s'.chClosed == s.chClosed && s'.writer == s.writer
  {
    hide OnceInv, ChannelInv, CountInside, InFlight, Work;
  }

  lemma SenderStepLock(s: State, step: Step)
    requires Inv(s) && Enabled(s, step) && !ByCloser(step) && step != Receive
    ensures LockInv(Apply(s, step))
  {
    var s' := Apply(s, step);
    SenderStepMoves(s, step);
    SenderCounted(s, step);
    if s.chClosed {
      assert s.stopped;
      hide OnceInv, ChannelInv, InFlight, Work, CountInside;
      assert !s'.senders[step.i].Selecting?;
    }
  }

  lemma SenderCounted(s: State, step: Step)
    requires LockInv(s) && Enabled(s, step) && !ByCloser(step) && step != Receive
    requires Apply(s, step).senders == s.senders[step.i := Apply(s, step).senders[step.i]]
    requires Apply(s, step).writer == s.writer
    ensures Apply(s, step).readers == CountInside(Apply(s, step).senders)
    ensures s.writer == Holding ==> Apply(s, step).readers == 0
  {
    hide CountInside, Work;
    var s' := Apply(s, step);
    CountsUpdate(s.senders, step.i, s'.senders[step.i]);
    if Inside(s.senders[step.i]) {
      InsideIsCounted(s.senders, step.i);
    }
    if step.ReturnSend? || step.RLock? {
      ReadersCount(s, step);
      hide Apply;
    } else {
      assert s'.readers == s.readers && Inside(s'.senders[step.i]) == Inside(s.senders[step.i]);
    }
  }

  lemma ReadersCount(s: State, step: Step)
    requires Enabled(s, step) && (step.ReturnSend? || step.RLock?)
    ensures step.RLock? ==>
              && Apply(s, step).readers == s.readers + 1
              && !Inside(s.senders[step.i]) && Inside(Apply(s, step).senders[step.i])
    ensures step.ReturnSend? && s.readers > 0 ==>
              && Apply(s, step).readers == s.readers - 1
              && Inside(s.senders[step.i]) && !Inside(Apply(s, step).senders[step.i])
  {
  }

  lemma PutKeepsChannel(s: State, i: nat, s': State)
    requires ChannelInv(s) && Sender(s, i) && s.senders[i].Selecting?
    requires s'.senders == s.senders[i := Leaving(s.senders[i].ev, true)]
    requires s'.accepted == s.accepted + [s.senders[i].ev] && s'.accepted == s'.received + s'.ch
    requires |s'.ch| <= s'.cap && s'.reported == s.reported
    ensures ChannelInv(s')
  {
    var ev := s.senders[i].ev;
    InFlightUpdate(s.senders, i, Leaving(ev, true));
    InFlightAfter(InFlight(s'.senders), InFlight(s.senders), multiset{}, multiset{ev});
    assert multiset(s.accepted + [ev]) == multiset(s.accepted) + multiset{ev};
  }

  lemma SendKeepsChannel(s: State, i: nat)
    requires ChannelInv(s) && Enabled(s, SendCase(i)) && !s.chClosed
    ensures ChannelInv(Apply(s, SendCase(i)))
  {
    PutKeepsChannel(s, i, Apply(s, SendCase(i)));
  }

  lemma HandoffKeepsChannel(s: State, i: nat)
    requires ChannelInv(s) && Enabled(s, HandoffCase(i)) && !s.chClosed
    ensures ChannelInv(Apply(s, HandoffCase(i)))
  {
    assert s.ch == [] && s.accepted == s.received;
    PutKeepsChannel(s, i, Apply(s, HandoffCase(i)));
  }

  lemma ReturnKeepsChannel(s: State, i: nat)
    requires ChannelInv(s) && Enabled(s, ReturnSend(i))
    ensures ChannelInv(Apply(s, ReturnSend(i)))
  {
    var s', pc := Apply(s, ReturnSend(i)), s.senders[i];
    assert s'.senders == s.senders[i := Idle] && s'.reported == s.reported + InFlightOf(pc);
    assert s'.cap == s.cap && s'.ch == s.ch && s'.accepted == s.accepted && s'.received == s.received;
    hide Apply, Enabled, InFlight;
    InFlightUpdate(s.senders, i, Idle);
    MoveOver(s.reported, InFlight(s.senders), InFlight(s'.senders), InFlightOf(pc));
  }

  lemma MoveOver(reported: multiset<Event>, before: multiset<Event>, after: multiset<Event>, x: multiset<Event>)
    requires after + x == before + multiset{}
    ensures reported + before == (reported + x) + after
  {
    assert before + multiset{} == before;
    assert (reported + x) + after == reported + (after + x);
  }

  lemma OtherKeepsChannel(s: State, step: Step)
    requires Inv(s) && Enabled(s, step) && !ByCloser(step) && step != Receive
    requires !step.SendCase? && !step.HandoffCase? && !step.ReturnSend?
    ensures ChannelInv(Apply(s, step))
  {
    var s' := Apply(s, step);
    SenderStepMoves(s, step);
    OtherLeavesChannel(s, step);
    hide Apply, Enabled, OnceInv, LockInv, InFlight;
    InFlightUpdate(s.senders, step.i, s'.senders[step.i]);
    InFlightAfter(InFlight(s'.senders), InFlight(s.senders), multiset{}, multiset{});
  }

  lemma OtherLeavesChannel(s: State, step: Step)
    requires Enabled(s, step) && !ByCloser(step) && step != Receive
    requires !step.SendCase? && !step.HandoffCase? && !step.ReturnSend?
    ensures var s' := Apply(s, step);
      && Sender(s, step.i) && |s'.senders| == |s.senders|
      && s'.cap == s.cap && s'.ch == s.ch && s'.accepted == s.accepted && s'.received == s.received
      && s'.reported == s.reported
      && InFlightOf(s.senders[step.i]) == multiset{} && InFlightOf(s'.senders[step.i]) == multiset{}
  {
  }

  lemma InFlightAfter(after: multiset<Event>, before: multiset<Event>, x: multiset<Event>, y: multiset<Event>)
    requires after + x == before + y && x == multiset{}
    ensures after == before + y
  {
    assert after + x == after;
  }

  lemma SenderStepInv(s: State, step: Step)
    requires Inv(s) && Enabled(s, step) && !ByCloser(step) && step != Receive
    ensures Inv(Apply(s, step))
  {
    SenderStepMoves(s, step);
    SenderStepLock(s, step);
    if step.SendCase? {
      SendKeepsChannel(s, step.i);
    } else if step.HandoffCase? {
      HandoffKeepsChannel(s, step.i);
    } else if step.ReturnSend? {
      ReturnKeepsChannel(s, step.i);
    } else {
      OtherKeepsChannel(s, step);
    }
  }

  lemma ReceiveInv(s: State)
    requires Inv(s) && Enabled(s, Receive)
    ensures Inv(Apply(s, Receive))
  {
    assert s.ch == [s.ch[0]] + s.ch[1..];
  }

  /** No step of anyone breaks the invariant. */
  lemma StepInv(s: State, step: Step)
    requires Inv(s) && Enabled(s, step)
    ensures Inv(Apply(s, step))
  {
    if ByCloser(step) {
      CloserStepInv(s, step);
    } else if step != Receive {
      SenderStepInv(s, step);
    } else {
      ReceiveInv(s);
    }
  }

  lemma {:induction false} RunInv(s: State, steps: seq<Step>)
    requires Inv(s) && Run(s, steps)
    ensures Inv(After(s, steps))
  {
    if steps != [] {
      RunInv(s, steps[..|steps| - 1]);
      StepInv(After(s, steps[..|steps| - 1]), steps[|steps| - 1]);
    }
  }

  // ---------- main results ----------

  /** In every interleaving of any number of senders and closers: nothing ever
      sends on or closes a closed channel; what was accepted is, in order, what
      was received followed by what is buffered; and what sends reported
      delivered, plus the sends about to report it, is exactly what was accepted. */
  lemma SinkIsSafe(cap: nat, senders: nat, closers: nat, steps: seq<Step>)
    requires Run(Init(cap, senders, closers), steps)
    ensures
      var s := After(Init(cap, senders, closers), steps);
      && !s.panicked
      && s.accepted == s.received + s.ch && |s.ch| <= s.cap
      && multiset(s.accepted) == s.reported + InFlight(s.senders)
  {
    InitInv(cap, senders, closers);
    RunInv(Init(cap, senders, closers), steps);
  }

  // ---------- what a send returns ----------

  function CarriedOf(pc: SenderPc): multiset<Event> {
    if pc.Idle? then multiset{} else multiset{pc.ev}
  }

  /** The events of the sends under way. */
  function Carried(ss: seq<SenderPc>): multiset<Event> {
    if ss == [] then multiset{} else Carried(ss[1..]) + CarriedOf(ss[0])
  }

  lemma {:induction false} CarriedUpdate(ss: seq<SenderPc>, i: nat, pc: SenderPc)
    requires i < |ss|
    ensures Carried(ss[i := pc]) + CarriedOf(ss[i]) == Carried(ss) + CarriedOf(pc)
  {
    if i == 0 {
      assert ss[i := pc][1..] == ss[1..];
    } else {
      assert ss[i := pc][1..] == ss[1..][i - 1 := pc];
      CarriedUpdate(ss[1..], i - 1, pc);
      AddBoth(Carried(ss[1..][i - 1 := pc]), CarriedOf(ss[i]), Carried(ss[1..]), CarriedOf(pc), CarriedOf(ss[0]));
    }
  }

  ghost predicate CallsInv(s: State) {
    s.offered == (s.reported + s.refused) + Carried(s.senders)
  }

  /** What a step starts. */
  function Started(step: Step): multiset<Event> {
    if step.CallSend? then multiset{step.ev} else multiset{}
  }

  /** A sender's event moves from one place to the next. */
  ghost predicate HandsOn(s: State, i: nat, s': State, started: multiset<Event>)
    requires Sender(s, i)
  {
    && |s'.senders| == |s.senders| && s'.senders == s.senders[i := s'.senders[i]]
    && (s'.reported + s'.refused) + CarriedOf(s'.senders[i])
       == ((s.reported + s.refused) + CarriedOf(s.senders[i])) + started
    && s'.offered == s.offered + started
  }

  lemma ReturnHandsOn(s: State, i: nat)
    requires Enabled(s, ReturnSend(i))
    ensures Sender(s, i) && HandsOn(s, i, Apply(s, ReturnSend(i)), Started(ReturnSend(i))) && !Apply(s, ReturnSend(i)).panicked
  {
    var s', ev, ok := Apply(s, ReturnSend(i)), s.senders[i].ev, s.senders[i].ok;
    assert s'.senders == s.senders[i := Idle] && s'.offered == s.offered && !s'.panicked;
    assert ok ==> s'.reported == s.reported + multiset{ev} && s'.refused == s.refused;
    assert !ok ==> s'.refused == s.refused + multiset{ev} && s'.reported == s.reported;
    assert CarriedOf(s.senders[i]) == multiset{ev};
    hide Apply, Enabled;
    PutDown(s.reported, s.refused, multiset{ev});
  }

  lemma PutDown(a: multiset<Event>, b: multiset<Event>, x: multiset<Event>)
    ensures ((a + x) + b) + multiset{} == ((a + b) + x) + multiset{}
    ensures (a + (b + x)) + multiset{} == ((a + b) + x) + multiset{}
  {
  }

  /** The other steps of a sender keep its event in hand. */
  lemma OthersHandOn(s: State, step: Step)
    requires Enabled(s, step) && !ByCloser(step) && step != Receive && !step.ReturnSend?
    ensures var s' := Apply(s, step);
      && Sender(s, step.i) && |s'.senders| == |s.senders|
      && s'.reported == s.reported && s'.refused == s.refused && s'.offered == s.offered + Started(step)
      && (s'.panicked || CarriedOf(s'.senders[step.i]) == CarriedOf(s.senders[step.i]) + Started(step))
      && s'.senders == (if s'.panicked then s.senders else s.senders[step.i := s'.senders[step.i]])
      && (s'.panicked ==> s'.offered == s.offered)
  {
  }

  lemma SenderHandsOn(s: State, step: Step)
    requires Enabled(s, step) && !ByCloser(step) && step != Receive
    ensures var s' := Apply(s, step);
      && Sender(s, step.i)
      && (!s'.panicked ==> HandsOn(s, step.i, s', Started(step)))
      && (s'.panicked ==> s'.senders == s.senders && s'.offered == s.offered && s'.reported == s.reported && s'.refused == s.refused)
  {
    hide Apply, Enabled, CarriedOf, Started, HandsOn;
    if step.ReturnSend? {
      ReturnHandsOn(s, step.i);
    } else {
      OthersHandOn(s, step);
      if !Apply(s, step).panicked {
        InHandStill(s, step.i, Apply(s, step), Started(step));
      }
    }
  }

  lemma InHandStill(s: State, i: nat, s': State, started: multiset<Event>)
    requires Sender(s, i) && |s'.senders| == |s.senders| && s'.senders == s.senders[i := s'.senders[i]]
    requires s'.reported == s.reported && s'.refused == s.refused && s'.offered == s.offered + started
    requires CarriedOf(s'.senders[i]) == CarriedOf(s.senders[i]) + started
    ensures HandsOn(s, i, s', started)
  {
    hide CarriedOf;
  }

  lemma OthersLeaveCalls(s: State, step: Step)
    requires Enabled(s, step) && (ByCloser(step) || step == Receive)
    ensures var s' := Apply(s, step);
      s'.senders == s.senders && s'.offered == s.offered && s'.reported == s.reported && s'.refused == s.refused
  {
    match step
    case CallClose(c) => CallLeavesCalls(s, c);
    case CloseStopped(c) =>
    case AnnounceLock(c) =>
    case TakeLock(c) =>
    case CloseChannel(c) =>
    case FinishOnce(c) =>
    case ReturnClose(c) =>
    case Receive =>
  }

  lemma CallLeavesCalls(s: State, c: nat)
    requires Enabled(s, CallClose(c))
    ensures var s' := Apply(s, CallClose(c));
      s'.senders == s.senders && s'.offered == s.offered && s'.reported == s.reported && s'.refused == s.refused
  {
  }

  lemma StepCalls(s: State, step: Step)
    requires CallsInv(s) && Enabled(s, step)
    ensures CallsInv(Apply(s, step))
  {
    hide Apply, Enabled, Carried, CarriedOf, Started;
    if ByCloser(step) || step == Receive {
      OthersLeaveCalls(s, step);
    } else {
      SenderHandsOn(s, step);
      var s' := Apply(s, step);
      if !s'.panicked {
        CarriedUpdate(s.senders, step.i, s'.senders[step.i]);
        Balance(s.reported + s.refused, s'.reported + s'.refused, CarriedOf(s.senders[step.i]),
                CarriedOf(s'.senders[step.i]), Carried(s.senders), Carried(s'.senders), Started(step));
      }
    }
  }

  lemma Balance(done: multiset<Event>, done': multiset<Event>, x: multiset<Event>, y: multiset<Event>,
                others: multiset<Event>, others': multiset<Event>, new': multiset<Event>)
    requires done' + y == (done + x) + new' && others' + x == others + y
    ensures done' + others' == (done + others) + new'
  {
    forall e
      ensures (done' + others')[e] == ((done + others) + new')[e]
    {
      assert (done' + y)[e] == ((done + x) + new')[e] && (others' + x)[e] == (others + y)[e];
    }
  }

  /** In every interleaving each send that was called is answered once, with true
      or false, for the event it was called with, or is still under way. */
  lemma {:induction false} EverySendIsAnswered(cap: nat, senders: nat, closers: nat, steps: seq<Step>)
    requires Run(Init(cap, senders, closers), steps)
    ensures var s := After(Init(cap, senders, closers), steps);
      s.offered == (s.reported + s.refused) + Carried(s.senders)
  {
    hide Apply, Enabled;
    if steps == [] {
      NobodySending(senders);
    } else {
      EverySendIsAnswered(cap, senders, closers, steps[..|steps| - 1]);
      StepCalls(After(Init(cap, senders, closers), steps[..|steps| - 1]), steps[|steps| - 1]);
    }
  }

  lemma {:induction false} NobodySending(n: nat)
    ensures Carried(seq(n, _ => Idle)) == multiset{}
  {
    if n > 0 {
      assert seq(n, _ => Idle)[1..] == seq(n - 1, _ => Idle);
      NobodySending(n - 1);
    }
  }

  /** Nobody was refused and nobody is about to be. */
  ghost predicate Welcoming(s: State) {
    !s.stopped && s.refused == multiset{} && forall i :: 0 <= i < |s.senders| && s.senders[i].Leaving? ==> s.senders[i].ok
  }

  lemma StepWelcomes(s: State, step: Step)
    requires Welcoming(s) && Enabled(s, step) && !step.CtxCase? && !step.CloseStopped?
    ensures Welcoming(Apply(s, step))
  {
    if ByCloser(step) || step == Receive {
      OthersLeaveCalls(s, step);
      assert Apply(s, step).stopped == s.stopped;
      hide Apply, Enabled;
    } else {
      assert Sender(s, step.i);
      assert forall k :: 0 <= k < |s.senders| && k != step.i && k < |Apply(s, step).senders| ==>
        Apply(s, step).senders[k] == s.senders[k];
    }
  }

  /** A send is refused for no other reason than that its context ended or that
      somebody is closing: without either, every event that was offered is
      reported as delivered or still on its way. */
  lemma {:induction false} RefusalsHaveCause(cap: nat, senders: nat, closers: nat, steps: seq<Step>)
    requires Run(Init(cap, senders, closers), steps)
    requires forall k :: 0 <= k < |steps| ==> !steps[k].CtxCase? && !steps[k].CloseStopped?
    ensures var s := After(Init(cap, senders, closers), steps);
      && s.offered == s.reported + Carried(s.senders)
      && (forall i :: 0 <= i < |s.senders| && s.senders[i].Leaving? ==> s.senders[i].ok)
  {
    hide Apply, Enabled;
    EverySendIsAnswered(cap, senders, closers, steps);
    AlwaysWelcoming(cap, senders, closers, steps);
    var s := After(Init(cap, senders, closers), steps);
    assert s.reported + multiset{} == s.reported;
  }

  lemma {:induction false} AlwaysWelcoming(cap: nat, senders: nat, closers: nat, steps: seq<Step>)
    requires Run(Init(cap, senders, closers), steps)
    requires forall k :: 0 <= k < |steps| ==> !steps[k].CtxCase? && !steps[k].CloseStopped?
    ensures Welcoming(After(Init(cap, senders, closers), steps))
  {
    hide Apply, Enabled;
    if steps != [] {
      AlwaysWelcoming(cap, senders, closers, steps[..|steps| - 1]);
      StepWelcomes(After(Init(cap, senders, closers), steps[..|steps| - 1]), steps[|steps| - 1]);
    }
  }

  lemma Extend(s: State, steps: seq<Step>, step: Step) returns (s': State)
    requires Run(s, steps) && Enabled(After(s, steps), step)
    ensures Run(s, steps + [step]) && s' == After(s, steps + [step]) && s' == Apply(After(s, steps), step)
  {
    assert (steps + [step])[..|steps|] == steps;
    s' := After(s, steps + [step]);
  }

  lemma RunNothing(s: State)
    ensures Run(s, []) && After(s, []) == s
  {
  }

  /** The steps of one send that finds room in the channel. */
  function SendSteps(i: nat, ev: Event): seq<Step> {
    [CallSend(i, ev), RLock(i), CheckStopped(i), SendCase(i), ReturnSend(i)]
  }

  /** Left alone, a send into an open sink with room delivers and says so. */
  lemma SoloSend(s: State, i: nat, ev: Event)
    requires !s.panicked && Sender(s, i) && s.senders[i].Idle?
    requires s.writer == Free && !s.stopped && !s.chClosed && |s.ch| < s.cap
    ensures Run(s, SendSteps(i, ev))
    ensures var s' := After(s, SendSteps(i, ev));
      && s'.ch == s.ch + [ev] && s'.accepted == s.accepted + [ev]
      && s'.reported == s.reported + multiset{ev} && s'.refused == s.refused && s'.senders[i].Idle?
  {
    RunNothing(s);
    hide Run, After;
    var all := SendSteps(i, ev);
    var s1 := Extend(s, [], all[0]);
    assert [] + [all[0]] == all[..1] && all[..1] + [all[1]] == all[..2] && all[..2] + [all[2]] == all[..3];
    assert all[..3] + [all[3]] == all[..4] && all[..4] + [all[4]] == all;
    var s2 := Extend(s, all[..1], all[1]);
    var s3 := Extend(s, all[..2], all[2]);
    var s4 := Extend(s, all[..3], all[3]);
    var s5 := Extend(s, all[..4], all[4]);
  }

  /** Without room in the channel a waiting receiver takes the event directly. */
  lemma SoloHandoff(s: State, i: nat)
    requires !s.panicked && Sender(s, i) && s.senders[i].Selecting? && !s.chClosed && s.ch == []
    ensures Enabled(s, HandoffCase(i))
    ensures var s', ev := Apply(s, HandoffCase(i)), s.senders[i].ev;
      && s'.accepted == s.accepted + [ev] && s'.received == s.received + [ev] && s'.ch == []
      && s'.senders[i] == Leaving(ev, true)
  {
  }

  /** What is buffered can be received, oldest first. */
  lemma BufferedIsReceived(s: State)
    requires !s.panicked && s.ch != []
    ensures Enabled(s, Receive)
    ensures var s' := Apply(s, Receive);
      s'.received == s.received + [s.ch[0]] && s'.ch == s.ch[1..] && s'.accepted == s.accepted
  {
  }

  /** A send that waits can always give up when its context ends, and is refused. */
  lemma ContextEndsSend(s: State, i: nat)
    requires !s.panicked && Sender(s, i) && s.senders[i].Selecting?
    ensures var all := [CtxCase(i), ReturnSend(i)];
      && Run(s, all)
      && var s' := After(s, all);
      s'.senders[i].Idle? && s'.refused == s.refused + multiset{s.senders[i].ev} && s'.accepted == s.accepted
  {
    RunNothing(s);
    hide Run, After;
    var all := [CtxCase(i), ReturnSend(i)];
    assert [] + [all[0]] == all[..1] && all[..1] + [all[1]] == all;
    var s1 := Extend(s, [], all[0]);
    var s2 := Extend(s, all[..1], all[1]);
  }

  /** Left alone, a send to a sink that is being closed is refused. */
  lemma SoloRefused(s: State, i: nat, ev: Event)
    requires !s.panicked && Sender(s, i) && s.senders[i].Idle? && s.writer == Free && s.stopped
    ensures var all := [CallSend(i, ev), RLock(i), CheckStopped(i), ReturnSend(i)];
      && Run(s, all)
      && var s' := After(s, all);
      && s'.ch == s.ch && s'.accepted == s.accepted && s'.reported == s.reported
      && s'.refused == s.refused + multiset{ev} && s'.senders[i].Idle?
  {
    RunNothing(s);
    hide Run, After;
    var all := [CallSend(i, ev), RLock(i), CheckStopped(i), ReturnSend(i)];
    assert [] + [all[0]] == all[..1] && all[..1] + [all[1]] == all[..2] && all[..2] + [all[2]] == all[..3];
    assert all[..3] + [all[3]] == all;
    var s1 := Extend(s, [], all[0]);
    var s2 := Extend(s, all[..1], all[1]);
    var s3 := Extend(s, all[..2], all[2]);
    var s4 := Extend(s, all[..3], all[3]);
  }

  /** The first close, left alone, gets to where it only waits for the senders
      inside: the sink is stopped and nobody new gets in. */
  lemma SoloClose(s: State, c: nat)
    requires Inv(s) && s.once.Fresh? && c < |s.closers|
    ensures var all := [CallClose(c), CloseStopped(c), AnnounceLock(c)];
      Run(s, all) && Late(After(s, all)) && After(s, all).stopped && After(s, all).once == Running(c)
  {
    RunNothing(s);
    hide Run, After, LockInv, ChannelInv;
    var all := [CallClose(c), CloseStopped(c), AnnounceLock(c)];
    assert [] + [all[0]] == all[..1] && all[..1] + [all[1]] == all[..2] && all[..2] + [all[2]] == all;
    var s1 := Extend(s, [], all[0]);
    var s2 := Extend(s, all[..1], all[1]);
    var s3 := Extend(s, all[..2], all[2]);
  }

  /** Any other close waits for the first one, and returns only when the channel
      is closed. */
  lemma OtherCloseWaits(s: State, c: nat)
    requires Inv(s) && !s.once.Fresh? && At(s, c, Outside)
    ensures var s' := Apply(s, CallClose(c));
      && (s.once.Running? ==> At(s', c, WaitingOnce))
      && (s.once.Finished? ==> s' == s && s.chClosed)
    ensures forall d :: 0 <= d < |s.closers| && s.closers[d] == WaitingOnce ==>
      (Enabled(s, ReturnClose(d)) <==> s.once.Finished?)
  {
    hide LockInv, ChannelInv;
  }

  /** Every step at which a close returns leaves the channel closed. */
  lemma ReturnedMeansClosed(s: State, step: Step)
    requires Inv(s) && Enabled(s, step) && (step.FinishOnce? || step.ReturnClose?)
    ensures Apply(s, step).chClosed && Apply(s, step).once.Finished?
  {
    hide LockInv, ChannelInv;
  }

  // ---------- how close ends ----------

  /** A step taken by a sender that holds the read lock. */
  predicate HolderStep(s: State, step: Step) {
    (step.CheckStopped? || step.SendCase? || step.HandoffCase? || step.StoppedCase? || step.CtxCase? || step.ReturnSend?)
    && Sender(s, step.i) && Inside(s.senders[step.i])
  }

  /** While close waits for the lock nobody new gets in, every step of a sender
      inside brings it closer to leaving, and no other step sets it back. */
  lemma DrainingProgress(s: State, step: Step)
    requires Inv(s) && s.writer == Pending && Enabled(s, step)
    ensures Work(Apply(s, step).senders) <= Work(s.senders) - if HolderStep(s, step) then 1 else 0
  {
    assert s.stopped && !s.chClosed;
    hide OnceInv, LockInv, ChannelInv, InFlight, CountInside, Work;
    if !ByCloser(step) && step != Receive {
      HolderGetsOn(s, step);
      hide Apply, Enabled, HolderStep, WorkOf;
      CountsUpdate(s.senders, step.i, Apply(s, step).senders[step.i]);
    } else {
      assert Apply(s, step).senders == s.senders;
    }
  }

  lemma HolderGetsOn(s: State, step: Step)
    requires s.writer == Pending && s.stopped && !s.chClosed
    requires Enabled(s, step) && !ByCloser(step) && step != Receive
    ensures var s' := Apply(s, step);
      && Sender(s, step.i) && |s'.senders| == |s.senders| && s'.senders == s.senders[step.i := s'.senders[step.i]]
      && WorkOf(s'.senders[step.i]) <= WorkOf(s.senders[step.i]) - if HolderStep(s, step) then 1 else 0
  {
  }

  ghost function CountHolderSteps(s: State, steps: seq<Step>): nat
    requires Run(s, steps)
  {
    if steps == [] then 0
    else
      var front := steps[..|steps| - 1];
      CountHolderSteps(s, front) + if HolderStep(After(s, front), steps[|steps| - 1]) then 1 else 0
  }

  ghost predicate DrainingThroughout(s: State, steps: seq<Step>)
    requires Run(s, steps)
  {
    && s.writer == Pending
    && (steps != [] ==> After(s, steps[..|steps| - 1]).writer == Pending
                        && DrainingThroughout(s, steps[..|steps| - 1]))
  }

  /** So in any run that stays in that stage, the senders inside take at most
      Work(start) steps altogether. */
  lemma {:induction false} DrainingIsBounded(s: State, steps: seq<Step>)
    requires Inv(s) && Run(s, steps) && DrainingThroughout(s, steps)
    ensures CountHolderSteps(s, steps) + Work(After(s, steps).senders) <= Work(s.senders)
  {
    if steps != [] {
      var front := steps[..|steps| - 1];
      DrainingIsBounded(s, front);
      RunInv(s, front);
      DrainingProgress(After(s, front), steps[|steps| - 1]);
    }
  }

  /** And close is never stuck: at every stage its next step is enabled, unless
      it waits for readers, and then every sender inside has a step of its own
      that needs nobody else. */
  lemma CloseNeverStuck(s: State)
    requires Inv(s) && s.once.Running?
    ensures
      var c := s.once.c;
      match s.closers[c]
      case Stopping => Enabled(s, CloseStopped(c))
      case Announcing => Enabled(s, AnnounceLock(c))
      case Draining =>
        && (Enabled(s, TakeLock(c)) <==> forall i :: 0 <= i < |s.senders| ==> !Inside(s.senders[i]))
        && (forall i :: 0 <= i < |s.senders| && Inside(s.senders[i]) ==>
              Enabled(s, CheckStopped(i)) || Enabled(s, StoppedCase(i)) || Enabled(s, ReturnSend(i)))
      case Closing => Enabled(s, CloseChannel(c))
      case Unlocking => Enabled(s, FinishOnce(c))
      case _ => false
  {
    if s.readers > 0 {
      var i := SomeoneInside(s.senders);
      assert Inside(s.senders[i]);
    } else {
      forall i | 0 <= i < |s.senders| ensures !Inside(s.senders[i]) {
        if Inside(s.senders[i]) {
          InsideIsCounted(s.senders, i);
          assert false;
        }
      }
    }
  }

  /** Close has announced itself to the lock and is not done yet. */
  predicate Late(s: State) {
    s.once.Running? && s.writer != Free
  }

  /** A step of close itself, or of a sender it may be waiting for. */
  predicate ClosingStep(s: State, step: Step) {
    HolderStep(s, step) || step.TakeLock? || step.CloseChannel? || step.FinishOnce?
  }

  /** What is left to do: the stages of close and the work of the senders inside. */
  function CloseWork(s: State): nat {
    Work(s.senders) + if s.writer == Pending then 3 else if s.chClosed then 1 else 2
  }

  lemma {:induction false} NobodyInsideNoWork(ss: seq<SenderPc>)
    requires CountInside(ss) == 0
    ensures Work(ss) == 0
  {
    if ss != [] {
      NobodyInsideNoWork(ss[1..]);
    }
  }

  /** With the lock held nobody is inside and nobody gets in. */
  lemma HeldKeepsOut(s: State, step: Step)
    requires Inv(s) && s.writer == Holding && Enabled(s, step) && !ByCloser(step)
    ensures !HolderStep(s, step) && Work(Apply(s, step).senders) == Work(s.senders)
    ensures var s' := Apply(s, step); s'.once == s.once && s'.writer == s.writer && s'.chClosed == s.chClosed
  {
    hide OnceInv, ChannelInv, CountInside, InFlight, Work;
    if step != Receive {
      if Inside(s.senders[step.i]) {
        InsideIsCounted(s.senders, step.i);
        assert false;
      }
      assert step.CallSend?;
      CountsUpdate(s.senders, step.i, Apply(s, step).senders[step.i]);
    }
  }

  lemma CloserGetsOn(s: State, step: Step)
    requires Inv(s) && Late(s) && Enabled(s, step) && ByCloser(step)
    ensures var s' := Apply(s, step);
      && s'.senders == s.senders && !HolderStep(s, step)
      && (s'.once.Finished? ||
            (Late(s') && CloseWork(s') <= CloseWork(s) - if ClosingStep(s, step) then 1 else 0))
  {
    hide LockInv, ChannelInv, CountInside, InFlight, Work;
  }

  /** Once close has announced itself, every step of it or of a sender inside
      brings it nearer its end, and no step of anyone sets it back. */
  lemma ClosingProgress(s: State, step: Step)
    requires Inv(s) && Late(s) && Enabled(s, step)
    ensures var s' := Apply(s, step);
      s'.once.Finished? || (Late(s') && CloseWork(s') <= CloseWork(s) - if ClosingStep(s, step) then 1 else 0)
  {
    hide OnceInv, LockInv, ChannelInv, CountInside, InFlight, Work;
    if ByCloser(step) {
      CloserGetsOn(s, step);
    } else if s.writer == Holding {
      HeldKeepsOut(s, step);
    } else {
      DrainingProgress(s, step);
      OthersLeaveLock(s, step);
    }
  }

  lemma OthersLeaveLock(s: State, step: Step)
    requires Inv(s) && Enabled(s, step) && !ByCloser(step)
    ensures var s' := Apply(s, step); s'.once == s.once && s'.writer == s.writer && s'.chClosed == s.chClosed
  {
    hide OnceInv, ChannelInv, CountInside, InFlight, Work;
    if step != Receive {
      SenderStepMoves(s, step);
    }
  }

  ghost function CountClosingSteps(s: State, steps: seq<Step>): nat
    requires Run(s, steps)
  {
    if steps == [] then 0
    else
      var front := steps[..|steps| - 1];
      CountClosingSteps(s, front) + if ClosingStep(After(s, front), steps[|steps| - 1]) then 1 else 0
  }

  lemma ClosingEnabled(s: State) returns (step: Step)
    requires Inv(s) && Late(s)
    ensures Enabled(s, step) && ClosingStep(s, step)
  {
    var c := s.once.c;
    CloseNeverStuck(s);
    match s.closers[c]
    case Draining =>
      if s.readers == 0 {
        step := TakeLock(c);
      } else {
        var i := SomeoneInside(s.senders);
        step := if Enabled(s, CheckStopped(i)) then CheckStopped(i)
                else if Enabled(s, StoppedCase(i)) then StoppedCase(i) else ReturnSend(i);
      }
    case Closing => step := CloseChannel(c);
    case Unlocking => step := FinishOnce(c);
  }

  /** So close ends: as long as it has not, it or a sender inside can take a step,
      and after CloseWork(s) such steps, whatever else happens in between, it has. */
  lemma {:induction false} CloseFinishes(s: State, steps: seq<Step>)
    requires Inv(s) && Late(s) && Run(s, steps)
    ensures var s' := After(s, steps);
      && (s'.once.Finished? || (Late(s') && exists step :: Enabled(s', step) && ClosingStep(s', step)))
      && (!s'.once.Finished? ==> CountClosingSteps(s, steps) + CloseWork(s') <= CloseWork(s))
      && (CountClosingSteps(s, steps) >= CloseWork(s) ==> s'.once.Finished?)
  {
    hide Inv, Late, ClosingStep, Enabled, Apply;
    var s' := After(s, steps);
    RunInv(s, steps);
    if steps != [] {
      var front, last := steps[..|steps| - 1], steps[|steps| - 1];
      var before := After(s, front);
      CloseFinishes(s, front);
      RunInv(s, front);
      if before.once.Finished? {
        ClosedStaysClosed(before, last);
      } else {
        ClosingProgress(before, last);
      }
    }
    if !s'.once.Finished? {
      var next := ClosingEnabled(s');
      assert Enabled(s', next) && ClosingStep(s', next);
    }
  }

  lemma ClosedStaysClosed(s: State, step: Step)
    requires Inv(s) && s.once.Finished? && Enabled(s, step)
    ensures Apply(s, step).once.Finished? && Apply(s, step).accepted == s.accepted
  {
  }

  /** Once close has finished nothing more is accepted, whatever still runs: the
      receiver can only drain what is buffered. */
  lemma {:induction false} NothingAfterClose(s: State, steps: seq<Step>)
    requires Inv(s) && s.once.Finished? && Run(s, steps)
    ensures After(s, steps).once.Finished? && After(s, steps).accepted == s.accepted
  {
    if steps != [] {
      var before := After(s, steps[..|steps| - 1]);
      NothingAfterClose(s, steps[..|steps| - 1]);
      RunInv(s, steps[..|steps| - 1]);
      ClosedStaysClosed(before, steps[|steps| - 1]);
    }
  }
}
