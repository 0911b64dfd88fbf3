/** One connected frontend inside the daemon (internal/ipc/server.go): a bounded
    queue with many producers, drop-oldest, a writer goroutine, and a flush on
    shutdown. */
module ClientQueue {
  import opened Basics

  const CLIENT_QUEUE := 64

  /** An encoded event. Only error events matter as a kind of their own. */
  datatype Line = Line(isError: bool, text: seq<byte>)

  // ---------- one enqueue by itself ----------

  class Client {
    var out: seq<Line>
    var closed: bool
    var dropped: nat

    constructor ()
      ensures out == [] && !closed && dropped == 0
    {
      out, closed, dropped := [], false, 0;
    }

    /** Queue a line, dropping the oldest while the queue is full. */
    method Enqueue(line: Line)
      requires |out| <= CLIENT_QUEUE
      modifies this`out, this`dropped
      ensures |out| <= CLIENT_QUEUE
      ensures out == if closed then old(out) else LastN(old(out) + [line], CLIENT_QUEUE)
      ensures dropped == old(dropped) + if !closed && |old(out)| == CLIENT_QUEUE then 1 else 0
    {
      if closed {
        return;
      }
      while true
        invariant |out| <= CLIENT_QUEUE
        invariant dropped == old(dropped) || dropped == old(dropped) + 1
        invariant dropped == old(dropped) ==> out == old(out)
        invariant dropped != old(dropped) ==> |old(out)| == CLIENT_QUEUE && out == old(out)[1..]
        decreases |out|
      {
        if |out| < CLIENT_QUEUE {
          out := out + [line];
          return;
        }
        if |out| > 0 {
          out := out[1..];
          dropped := dropped + 1;
        }
      }
    }
  }

  // ---------- everything at once ----------

  /** Where one producer stands: a broadcast, or the client's own reader (which
      is producer 0). */
  datatype ProducerPc =
    | Resting
    | Greeting(line: Line)   // broadcast, before c.greeted()
    | Entering(line: Line)   // enqueue, before reading c.closed
    | Trying(line: Line)     // before case c.out <- line
    | Dropping(line: Line)   // before case <-c.out
    | Counting(line: Line)   // took the oldest, before c.dropped++

  datatype WriterPc =
    | Selecting
    | Writing(line: Line)
    | Draining
    | DrainWriting(line: Line)
    | Flushed
    | Failed(line: Line)     // a write error; this line did not get through
    | Cancelled              // ctx.Done

  datatype Fate = Dropped | Taken

  /** History. accepted: lines put into the queue; removed: lines taken out of it,
      and by whom; delivered: lines written to the socket; shutMark: how many were
      accepted when shutdown was signalled; offered: lines broadcast, and replies
      to the client; skipped: broadcasts that found it not greeted; turned: lines
      that found it closed. */
  datatype Past = Past(
    accepted: seq<Line>, removed: seq<(Line, Fate)>, delivered: seq<Line>, shutMark: Option<nat>,
    offered: multiset<Line>, skipped: multiset<Line>, turned: multiset<Line>)

  datatype State = State(
    queue: seq<Line>, hello: bool, closed: bool, closing: bool, shutdown: bool, dropped: nat,
    producers: seq<ProducerPc>, lastReply: bool, readerDone: bool, writer: WriterPc, past: Past)

  /** dispatch and handleHello, and the end of the read loop. */
  datatype ReaderStep =
    | Rejected(line: Line)   // answered with an error that ends the connection
    | Hello(ready: Line)     // sets the flag, then sends ready
    | HelloUnanswered        // ... which is too long to encode
    | Command(line: Line)    // any other command of a greeted client, answered
    | Unanswered             // ... whose reply is too long to encode
    | Ends                   // end of input or a read error

  /** broadcast and enqueue. */
  datatype ProducerStep =
    | StartBroadcast(line: Line)
    | CheckGreeted
    | CheckClosed
    | TrySend
    | DropOldest
    | CountDrop

  datatype ShutterStep =
    | ServeStops   // serve: stopWriting after the read loop
    | CloseFlag    // close: sets closed
    | CloseStops   // close: stopWriting

  datatype WriterStep =
    | Take
    | SeesShutdown
    | Cancels
    | WriteOk
    | WriteFails
    | DrainTake
    | DrainDone

  datatype Step =
    | ByReader(r: ReaderStep)
    | ByProducer(i: nat, p: ProducerStep)
    | ByShutter(c: ShutterStep)
    | ByWriter(w: WriterStep)

  function Init(broadcasters: nat): State {
    State([], false, false, false, false, 0, seq(broadcasters + 1, _ => Resting), false, false, Selecting,
          Past([], [], [], None, multiset{}, multiset{}, multiset{}))
  }

  predicate Reader(s: State) {
    |s.producers| > 0 && s.producers[0].Resting? && !s.readerDone
  }

  predicate Producer(s: State, i: nat) {
    i < |s.producers|
  }

  predicate ReaderEnabled(s: State, r: ReaderStep) {
    Reader(s) &&
    match r
    case Rejected(line) => line.isError
    case Command(_) => s.hello
    case Unanswered => s.hello
    case _ => true
  }

  predicate ProducerEnabled(s: State, i: nat, p: ProducerStep) {
    Producer(s, i) &&
    match p
    case StartBroadcast(_) => 0 < i && s.producers[i].Resting?
    case CheckGreeted => s.producers[i].Greeting?
    case CheckClosed => s.producers[i].Entering?
    case TrySend => s.producers[i].Trying?
    case DropOldest => s.producers[i].Dropping?
    case CountDrop => s.producers[i].Counting?
  }

  predicate ShutterEnabled(s: State, c: ShutterStep) {
    match c
    case ServeStops => s.readerDone
    case CloseFlag => !s.closed
    case CloseStops => s.closing
  }

  predicate WriterEnabled(s: State, w: WriterStep) {
    match w
    case Take => s.writer.Selecting? && s.queue != []
    case SeesShutdown => s.writer.Selecting? && s.shutdown
    case Cancels => s.writer.Selecting?
    case WriteOk => s.writer.Writing? || s.writer.DrainWriting?
    case WriteFails => s.writer.Writing? || s.writer.DrainWriting?
    case DrainTake => s.writer.Draining? && s.queue != []
    case DrainDone => s.writer.Draining? && s.queue == []
  }

  predicate Enabled(s: State, step: Step) {
    match step
    case ByReader(r) => ReaderEnabled(s, r)
    case ByProducer(i, p) => ProducerEnabled(s, i, p)
    case ByShutter(c) => ShutterEnabled(s, c)
    case ByWriter(w) => WriterEnabled(s, w)
  }

  function Move(s: State, i: nat, pc: ProducerPc): State
    requires Producer(s, i)
  {
    s.(producers := s.producers[i := pc])
  }

  /** The end of an enqueue: the reader ends its loop after a last reply. */
  predicate EndsReader(s: State, i: nat) {
    s.readerDone || (i == 0 && s.lastReply)
  }

  /** The writer receives the oldest line. */
  function TakeOldest(s: State, writer: WriterPc): State
    requires s.queue != []
  {
    s.(queue := s.queue[1..], past := s.past.(removed := s.past.removed + [(s.queue[0], Taken)]), writer := writer)
  }

  function SignalShutdown(s: State): State {
    if s.shutdown then s else s.(shutdown := true, past := s.past.(shutMark := Some(|s.past.accepted|)))
  }

  /** The reader enters enqueue. */
  function Replying(s: State, line: Line): State
    requires Producer(s, 0)
  {
    Move(s, 0, Entering(line)).(past := s.past.(offered := s.past.offered + multiset{line}))
  }

  function ApplyReader(s: State, r: ReaderStep): State
    requires ReaderEnabled(s, r)
  {
    match r
    case Rejected(line) => Replying(s, line).(lastReply := true)
    case Hello(ready) => Replying(s, ready).(hello := true)
    case HelloUnanswered => s.(hello := true)
    case Command(line) => Replying(s, line)
    case Unanswered => s
    case Ends => s.(readerDone := true)
  }

  function Begun(s: State, i: nat, line: Line): State
    requires Producer(s, i)
  {
    Move(s, i, Greeting(line)).(past := s.past.(offered := s.past.offered + multiset{line}))
  }

  function Greeted(s: State, i: nat): State
    requires Producer(s, i) && s.producers[i].Greeting?
  {
    var line := s.producers[i].line;
    if s.hello then Move(s, i, Entering(line))
    else Move(s, i, Resting).(past := s.past.(skipped := s.past.skipped + multiset{line}))
  }

  function Checked(s: State, i: nat): State
    requires Producer(s, i) && s.producers[i].Entering?
  {
    var line := s.producers[i].line;
    if s.closed then
      Move(s, i, Resting).(readerDone := EndsReader(s, i), past := s.past.(turned := s.past.turned + multiset{line}))
    else Move(s, i, Trying(line))
  }

  function Tried(s: State, i: nat): State
    requires Producer(s, i) && s.producers[i].Trying?
  {
    var line := s.producers[i].line;
    if |s.queue| < CLIENT_QUEUE then
      Move(s, i, Resting).(
        readerDone := EndsReader(s, i), queue := s.queue + [line], past := s.past.(accepted := s.past.accepted + [line]))
    else Move(s, i, Dropping(line))
  }

  function OldestDropped(s: State, i: nat): State
    requires Producer(s, i) && s.producers[i].Dropping?
  {
    var line := s.producers[i].line;
    if s.queue != [] then
      Move(s, i, Counting(line)).(
        queue := s.queue[1..], past := s.past.(removed := s.past.removed + [(s.queue[0], Dropped)]))
    else Move(s, i, Trying(line))
  }

  function Counted(s: State, i: nat): State
    requires Producer(s, i) && s.producers[i].Counting?
  {
    Move(s, i, Trying(s.producers[i].line)).(dropped := s.dropped + 1)
  }

  function ApplyProducer(s: State, i: nat, p: ProducerStep): State
    requires ProducerEnabled(s, i, p)
  {
    match p
    case StartBroadcast(line) => Begun(s, i, line)
    case CheckGreeted => Greeted(s, i)
    case CheckClosed => Checked(s, i)
    case TrySend => Tried(s, i)
    case DropOldest => OldestDropped(s, i)
    case CountDrop => Counted(s, i)
  }

  function ApplyShutter(s: State, c: ShutterStep): State
    requires ShutterEnabled(s, c)
  {
    match c
    case ServeStops => SignalShutdown(s)
    case CloseFlag => s.(closed := true, closing := true)
    case CloseStops => SignalShutdown(s).(closing := false)
  }

  function ApplyWriter(s: State, w: WriterStep): State
    requires WriterEnabled(s, w)
  {
    match w
    case Take => TakeOldest(s, Writing(s.queue[0]))
    case SeesShutdown => s.(writer := Draining)
    case Cancels => s.(writer := Cancelled)
    case WriteOk =>
      s.(writer := if s.writer.Writing? then Selecting else Draining,
           past := s.past.(delivered := s.past.delivered + [s.writer.line]))
    case WriteFails => s.(writer := Failed(s.writer.line))
    case DrainTake => TakeOldest(s, DrainWriting(s.queue[0]))
    case DrainDone => s.(writer := Flushed)
  }

  function Apply(s: State, step: Step): State
    requires Enabled(s, step)
  {
    match step
    case ByReader(r) => ApplyReader(s, r)
    case ByProducer(i, p) => ApplyProducer(s, i, p)
    case ByShutter(c) => ApplyShutter(s, c)
    case ByWriter(w) => ApplyWriter(s, w)
  }

  ghost predicate Run(s: State, steps: seq<Step>)
    decreases |steps|, 0
  {
    steps == [] ||
    (Run(s, steps[..|steps| - 1]) && Enabled(After(s, steps[..|steps| - 1]), steps[|steps| - 1]))
  }

  ghost function After(s: State, steps: seq<Step>): State
    requires Run(s, steps)
    decreases |steps|, 1
  {
    if steps == [] then s else Apply(After(s, steps[..|steps| - 1]), steps[|steps| - 1])
  }

  // ---------- reading the histories ----------

  function Lines(removed: seq<(Line, Fate)>): (ls: seq<Line>)
    ensures |ls| == |removed|
    ensures forall k :: 0 <= k < |removed| ==> ls[k] == removed[k].0
  {
    seq(|removed|, k requires 0 <= k < |removed| => removed[k].0)
  }

  function TakenLines(removed: seq<(Line, Fate)>): seq<Line> {
    if removed == [] then []
    else
      var (line, fate) := removed[|removed| - 1];
      TakenLines(removed[..|removed| - 1]) + if fate == Taken then [line] else []
  }

  function CountDropped(removed: seq<(Line, Fate)>): nat {
    if removed == [] then 0
    else CountDropped(removed[..|removed| - 1]) + if removed[|removed| - 1].1 == Dropped then 1 else 0
  }

  function CountCounting(ps: seq<ProducerPc>): nat {
    if ps == [] then 0 else CountCounting(ps[1..]) + if ps[0].Counting? then 1 else 0
  }

  lemma RemovedGrows(removed: seq<(Line, Fate)>, line: Line, fate: Fate)
    ensures Lines(removed + [(line, fate)]) == Lines(removed) + [line]
    ensures TakenLines(removed + [(line, fate)]) == TakenLines(removed) + if fate == Taken then [line] else []
    ensures CountDropped(removed + [(line, fate)]) == CountDropped(removed) + if fate == Dropped then 1 else 0
  {
    assert (removed + [(line, fate)])[..|removed|] == removed;
  }

  lemma {:induction false} CountingUpdate(ps: seq<ProducerPc>, i: nat, pc: ProducerPc)
    requires i < |ps|
    ensures CountCounting(ps[i := pc]) + (if ps[i].Counting? then 1 else 0)
         == CountCounting(ps) + (if pc.Counting? then 1 else 0)
  {
    if i == 0 {
      assert ps[i := pc][1..] == ps[1..];
    } else {
      assert ps[i := pc][1..] == ps[1..][i - 1 := pc];
      CountingUpdate(ps[1..], i - 1, pc);
    }
  }

  /** In-order subsequence. */
  ghost predicate Subsequence(a: seq<Line>, b: seq<Line>) {
    a == [] ||
    (b != [] &&
     ((a[|a| - 1] == b[|b| - 1] && Subsequence(a[..|a| - 1], b[..|b| - 1])) || Subsequence(a, b[..|b| - 1])))
  }

  lemma {:induction false} SubsequenceExtends(a: seq<Line>, b: seq<Line>, c: seq<Line>)
    requires Subsequence(a, b)
    ensures Subsequence(a, b + c)
  {
    if c == [] {
      assert b + c == b;
    } else {
      SubsequenceExtends(a, b, c[..|c| - 1]);
      assert (b + c)[..|b + c| - 1] == b + c[..|c| - 1];
    }
  }

  lemma {:induction false} SubsequenceOfPrefix(a: seq<Line>, x: seq<Line>, b: seq<Line>)
    requires Subsequence(a + x, b)
    ensures Subsequence(a, b)
    decreases |x| + |b|
  {
    if x == [] {
      assert a + x == a;
    } else if a != [] {
      var front := b[..|b| - 1];
      if (a + x)[|a + x| - 1] == b[|b| - 1] && Subsequence((a + x)[..|a + x| - 1], front) {
        assert (a + x)[..|a + x| - 1] == a + x[..|x| - 1];
        SubsequenceOfPrefix(a, x[..|x| - 1], front);
      } else {
        SubsequenceOfPrefix(a, x, front);
      }
      SubsequenceExtends(a, front, [b[|b| - 1]]);
      assert front + [b[|b| - 1]] == b;
    }
  }

  lemma {:induction false} TakenIsSubsequence(removed: seq<(Line, Fate)>)
    ensures Subsequence(TakenLines(removed), Lines(removed))
  {
    if removed != [] {
      var front := removed[..|removed| - 1];
      var (line, fate) := removed[|removed| - 1];
      TakenIsSubsequence(front);
      RemovedGrows(front, line, fate);
      assert removed == front + [(line, fate)];
      var taken, all := TakenLines(removed), Lines(removed);
      assert all[..|all| - 1] == Lines(front);
      if fate == Taken {
        assert taken[..|taken| - 1] == TakenLines(front);
      } else {
        assert taken == TakenLines(front);
      }
    }
  }

  // ---------- the invariant ----------

  /** What the writer has taken but not delivered. */
  function InHand(w: WriterPc): seq<Line> {
    match w
    case Writing(line) => [line]
    case DrainWriting(line) => [line]
    case Failed(line) => [line]
    case _ => []
  }

  ghost predicate QueueInv(s: State) {
    && |s.queue| <= CLIENT_QUEUE
    && s.past.accepted == Lines(s.past.removed) + s.queue
    && TakenLines(s.past.removed) == s.past.delivered + InHand(s.writer)
    && CountDropped(s.past.removed) == s.dropped + CountCounting(s.producers)
  }

  ghost predicate ShutdownInv(s: State) {
    && (s.shutdown <==> s.past.shutMark.Some?)
    && (s.writer.Draining? || s.writer.DrainWriting? || s.writer.Flushed? ==> s.shutdown)
    && (s.past.shutMark.Some? ==> s.past.shutMark.value <= |s.past.accepted|)
    && (s.writer.Flushed? ==> s.past.shutMark.value <= |s.past.removed|)
  }

  predicate MayEnqueue(s: State, line: Line) {
    s.hello || line.isError
  }

  ghost predicate HelloInv(s: State) {
    && (forall k :: 0 <= k < |s.past.accepted| ==> MayEnqueue(s, s.past.accepted[k]))
    && (forall i :: 0 <= i < |s.producers| && !s.producers[i].Resting? && !s.producers[i].Greeting? ==>
          MayEnqueue(s, s.producers[i].line))
  }

  ghost predicate Inv(s: State) {
    QueueInv(s) && ShutdownInv(s) && HelloInv(s)
  }

  lemma {:induction false} NobodyCounting(n: nat)
    ensures CountCounting(seq(n, _ => Resting)) == 0
  {
    if n > 0 {
      assert seq(n, _ => Resting)[1..] == seq(n - 1, _ => Resting);
      NobodyCounting(n - 1);
    }
  }

  lemma InitInv(broadcasters: nat)
    ensures Inv(Init(broadcasters))
  {
    NobodyCounting(broadcasters + 1);
  }

  lemma ReaderStepInv(s: State, r: ReaderStep)
    requires Inv(s) && ReaderEnabled(s, r)
    ensures Inv(ApplyReader(s, r))
  {
    ReaderKeepsHello(s, r);
    hide HelloInv, CountCounting, CountDropped, TakenLines, Lines;
    CountingUpdate(s.producers, 0, ApplyReader(s, r).producers[0]);
    assert s.producers[0 := s.producers[0]] == s.producers;
  }

  lemma ReaderKeepsHello(s: State, r: ReaderStep)
    requires HelloInv(s) && ReaderEnabled(s, r)
    ensures HelloInv(ApplyReader(s, r))
  {
  }

  /** A producer moved and took, put or counted nothing else than stated. */
  lemma MoveKeepsQueue(s: State, i: nat, s': State)
    requires QueueInv(s) && Producer(s, i) && |s'.producers| == |s.producers|
    requires s'.producers == s.producers[i := s'.producers[i]]
    requires s'.past.accepted == Lines(s'.past.removed) + s'.queue && |s'.queue| <= CLIENT_QUEUE
    requires TakenLines(s'.past.removed) == TakenLines(s.past.removed) && s'.past.delivered == s.past.delivered && s'.writer == s.writer
    requires CountDropped(s'.past.removed) - s'.dropped + (if s.producers[i].Counting? then 1 else 0)
          == CountDropped(s.past.removed) - s.dropped + (if s'.producers[i].Counting? then 1 else 0)
    ensures QueueInv(s')
  {
    CountingUpdate(s.producers, i, s'.producers[i]);
  }

  lemma TrySendKeepsQueue(s: State, i: nat)
    requires QueueInv(s) && ProducerEnabled(s, i, TrySend)
    ensures QueueInv(ApplyProducer(s, i, TrySend))
  {
    var s', line := ApplyProducer(s, i, TrySend), s.producers[i].line;
    if |s.queue| < CLIENT_QUEUE {
      assert (Lines(s.past.removed) + s.queue) + [line] == Lines(s.past.removed) + (s.queue + [line]);
    }
    MoveKeepsQueue(s, i, s');
  }

  lemma DropOldestKeepsQueue(s: State, i: nat)
    requires QueueInv(s) && ProducerEnabled(s, i, DropOldest)
    ensures QueueInv(ApplyProducer(s, i, DropOldest))
  {
    if s.queue != [] {
      RemovedGrows(s.past.removed, s.queue[0], Dropped);
      assert s.queue == [s.queue[0]] + s.queue[1..];
    }
    MoveKeepsQueue(s, i, ApplyProducer(s, i, DropOldest));
  }

  lemma ProducerKeepsQueue(s: State, i: nat, p: ProducerStep)
    requires QueueInv(s) && ProducerEnabled(s, i, p)
    ensures QueueInv(ApplyProducer(s, i, p))
  {
    match p
    case TrySend => TrySendKeepsQueue(s, i);
    case DropOldest => DropOldestKeepsQueue(s, i);
    case _ => MoveKeepsQueue(s, i, ApplyProducer(s, i, p));
  }

  lemma MoveKeepsHello(s: State, i: nat, s': State)
    requires HelloInv(s) && Producer(s, i) && |s'.producers| == |s.producers| && s'.hello == s.hello
    requires s'.producers == s.producers[i := s'.producers[i]]
    requires !s'.producers[i].Resting? && !s'.producers[i].Greeting? ==> MayEnqueue(s, s'.producers[i].line)
    requires s'.past.accepted == s.past.accepted
          || exists line :: MayEnqueue(s, line) && s'.past.accepted == s.past.accepted + [line]
    ensures HelloInv(s')
  {
  }

  /** What every step of a producer leaves alone, and what becomes of its line. */
  ghost predicate Moved(s: State, i: nat, s': State)
    requires Producer(s, i)
  {
    && |s'.producers| == |s.producers| && s'.producers == s.producers[i := s'.producers[i]]
    && s'.hello == s.hello && s'.closed == s.closed && s'.shutdown == s.shutdown && s'.past.shutMark == s.past.shutMark
    && s'.writer == s.writer && |s'.past.removed| >= |s.past.removed|
    && (s'.past.accepted == s.past.accepted || (s.producers[i].Trying? && s'.past.accepted == s.past.accepted + [s.producers[i].line]))
    && (s.hello ==> s'.past.skipped == s.past.skipped) && (!s.closed ==> s'.past.turned == s.past.turned)
    && var pc := s'.producers[i];
       !pc.Resting? && !pc.Greeting? ==>
         !s.producers[i].Resting? && pc.line == s.producers[i].line && (s.producers[i].Greeting? ==> s.hello)
  }

  lemma BegunMoves(s: State, i: nat, line: Line)
    requires Producer(s, i)
    ensures Moved(s, i, Begun(s, i, line))
  {
  }

  lemma GreetedMoves(s: State, i: nat)
    requires Producer(s, i) && s.producers[i].Greeting?
    ensures Moved(s, i, Greeted(s, i))
  {
  }

  lemma CheckedMoves(s: State, i: nat)
    requires Producer(s, i) && s.producers[i].Entering?
    ensures Moved(s, i, Checked(s, i))
  {
  }

  lemma TriedMoves(s: State, i: nat)
    requires Producer(s, i) && s.producers[i].Trying?
    ensures Moved(s, i, Tried(s, i))
  {
    var line, s' := s.producers[i].line, Tried(s, i);
    if |s.queue| < CLIENT_QUEUE {
      assert s'.producers == s.producers[i := Resting] && s'.past == s.past.(accepted := s.past.accepted + [line]);
    } else {
      assert s'.producers == s.producers[i := Dropping(line)] && s'.past == s.past;
    }
  }

  lemma DroppedMoves(s: State, i: nat)
    requires Producer(s, i) && s.producers[i].Dropping?
    ensures Moved(s, i, OldestDropped(s, i))
  {
    var line, s' := s.producers[i].line, OldestDropped(s, i);
    if s.queue != [] {
      assert s'.producers == s.producers[i := Counting(line)];
      assert s'.past == s.past.(removed := s.past.removed + [(s.queue[0], Dropped)]);
    } else {
      assert s'.producers == s.producers[i := Trying(line)] && s'.past == s.past;
    }
  }

  lemma CountedMoves(s: State, i: nat)
    requires Producer(s, i) && s.producers[i].Counting?
    ensures Moved(s, i, Counted(s, i))
  {
  }

  lemma ProducerMoves(s: State, i: nat, p: ProducerStep)
    requires ProducerEnabled(s, i, p)
    ensures Moved(s, i, ApplyProducer(s, i, p))
  {
    hide Moved, Begun, Greeted, Checked, Tried, OldestDropped, Counted;
    match p
    case StartBroadcast(line) => BegunMoves(s, i, line);
    case CheckGreeted => GreetedMoves(s, i);
    case CheckClosed => CheckedMoves(s, i);
    case TrySend => TriedMoves(s, i);
    case DropOldest => DroppedMoves(s, i);
    case CountDrop => CountedMoves(s, i);
  }

  lemma ProducerKeepsHello(s: State, i: nat, p: ProducerStep)
    requires HelloInv(s) && ProducerEnabled(s, i, p)
    ensures HelloInv(ApplyProducer(s, i, p))
  {
    ProducerMoves(s, i, p);
    assert !s.producers[i].Resting? && !s.producers[i].Greeting? ==> MayEnqueue(s, s.producers[i].line);
    hide ApplyProducer, ProducerEnabled;
    MoveKeepsHello(s, i, ApplyProducer(s, i, p));
  }

  lemma ProducerKeepsShutdown(s: State, i: nat, p: ProducerStep)
    requires ShutdownInv(s) && ProducerEnabled(s, i, p)
    ensures ShutdownInv(ApplyProducer(s, i, p))
  {
    ProducerMoves(s, i, p);
    hide ApplyProducer, ProducerEnabled;
  }

  lemma ProducerStepInv(s: State, i: nat, p: ProducerStep)
    requires Inv(s) && ProducerEnabled(s, i, p)
    ensures Inv(ApplyProducer(s, i, p))
  {
    ProducerKeepsQueue(s, i, p);
    ProducerKeepsHello(s, i, p);
    ProducerKeepsShutdown(s, i, p);
  }

  lemma TakeKeepsQueue(s: State, writer: WriterPc)
    requires QueueInv(s) && s.queue != [] && InHand(s.writer) == [] && InHand(writer) == [s.queue[0]]
    ensures QueueInv(TakeOldest(s, writer))
  {
    RemovedGrows(s.past.removed, s.queue[0], Taken);
  }

  lemma WriterKeepsQueue(s: State, w: WriterStep)
    requires QueueInv(s) && WriterEnabled(s, w)
    ensures QueueInv(ApplyWriter(s, w))
  {
    if w == Take {
      TakeKeepsQueue(s, Writing(s.queue[0]));
    } else if w == DrainTake {
      TakeKeepsQueue(s, DrainWriting(s.queue[0]));
    } else {
      assert s.past.delivered + InHand(s.writer) == ApplyWriter(s, w).past.delivered + InHand(ApplyWriter(s, w).writer);
    }
  }

  lemma WriterStepInv(s: State, w: WriterStep)
    requires Inv(s) && WriterEnabled(s, w)
    ensures Inv(ApplyWriter(s, w))
  {
    WriterKeepsQueue(s, w);
  }

  lemma ShutterStepInv(s: State, c: ShutterStep)
    requires Inv(s) && ShutterEnabled(s, c)
    ensures Inv(ApplyShutter(s, c))
  {
  }

  /** No step of anyone breaks the invariant. */
  lemma StepInv(s: State, step: Step)
    requires Inv(s) && Enabled(s, step)
    ensures Inv(Apply(s, step))
  {
    match step
    case ByReader(r) => ReaderStepInv(s, r);
    case ByProducer(i, p) => ProducerStepInv(s, i, p);
    case ByShutter(c) => ShutterStepInv(s, c);
    case ByWriter(w) => WriterStepInv(s, w);
  }

  lemma {:induction false} RunInv(s: State, steps: seq<Step>)
    requires Inv(s) && Run(s, steps)
    ensures Inv(After(s, steps))
  {
    if steps != [] {
      RunInv(s, steps[..|steps| - 1]);
      StepInv(After(s, steps[..|steps| - 1]), steps[|steps| - 1]);
    }
  }

  // ---------- main results ----------

  /** In every interleaving: what was accepted is, in order, what was removed
      followed by the queue; the queue is bounded; what was delivered is, in
      order, part of what was accepted; and every drop is counted once. */
  lemma QueueConserves(broadcasters: nat, steps: seq<Step>)
    requires Run(Init(broadcasters), steps)
    ensures
      var s := After(Init(broadcasters), steps);
      && s.past.accepted == Lines(s.past.removed) + s.queue && |s.queue| <= CLIENT_QUEUE
      && TakenLines(s.past.removed) == s.past.delivered + InHand(s.writer)
      && Subsequence(s.past.delivered, s.past.accepted)
      && CountDropped(s.past.removed) == s.dropped + CountCounting(s.producers)
  {
    InitInv(broadcasters);
    RunInv(Init(broadcasters), steps);
    var s := After(Init(broadcasters), steps);
    TakenIsSubsequence(s.past.removed);
    SubsequenceOfPrefix(s.past.delivered, InHand(s.writer), Lines(s.past.removed));
    SubsequenceExtends(s.past.delivered, Lines(s.past.removed), s.queue);
  }

  /** If the writer left through the shutdown branch without a write error,
      every line accepted before shutdown was signalled was delivered or dropped. */
  lemma ShutdownFlushes(broadcasters: nat, steps: seq<Step>)
    requires Run(Init(broadcasters), steps)
    requires After(Init(broadcasters), steps).writer.Flushed?
    ensures
      var s := After(Init(broadcasters), steps);
      && s.past.shutMark.Some? && s.past.shutMark.value <= |s.past.removed| && s.past.shutMark.value <= |s.past.accepted|
      && (forall k :: 0 <= k < s.past.shutMark.value ==> s.past.removed[k].0 == s.past.accepted[k])
      && s.past.delivered == TakenLines(s.past.removed)
  {
    InitInv(broadcasters);
    RunInv(Init(broadcasters), steps);
  }

  /** A client that has not completed hello is only ever queued error events. */
  lemma OnlyErrorsBeforeHello(broadcasters: nat, steps: seq<Step>)
    requires Run(Init(broadcasters), steps) && !After(Init(broadcasters), steps).hello
    ensures
      var s := After(Init(broadcasters), steps);
      && (forall k :: 0 <= k < |s.past.accepted| ==> s.past.accepted[k].isError)
      && (forall k :: 0 <= k < |s.past.delivered| ==> s.past.delivered[k].isError)
  {
    InitInv(broadcasters);
    RunInv(Init(broadcasters), steps);
    var s := After(Init(broadcasters), steps);
    QueueConserves(broadcasters, steps);
    SubsequenceKeepsErrors(s.past.delivered, s.past.accepted);
  }

  lemma {:induction false} SubsequenceKeepsErrors(a: seq<Line>, b: seq<Line>)
    requires Subsequence(a, b) && forall k :: 0 <= k < |b| ==> b[k].isError
    ensures forall k :: 0 <= k < |a| ==> a[k].isError
    decreases |b|
  {
    if a != [] {
      var front := b[..|b| - 1];
      if a[|a| - 1] == b[|b| - 1] && Subsequence(a[..|a| - 1], front) {
        SubsequenceKeepsErrors(a[..|a| - 1], front);
      } else {
        SubsequenceKeepsErrors(a, front);
      }
    }
  }

  // ---------- no line is lost on the way in ----------

  function CarriedOf(pc: ProducerPc): multiset<Line> {
    if pc.Resting? then multiset{} else multiset{pc.line}
  }

  /** The lines of the broadcasts and replies under way. */
  function Carried(ps: seq<ProducerPc>): multiset<Line> {
    if ps == [] then multiset{} else Carried(ps[1..]) + CarriedOf(ps[0])
  }

  lemma {:induction false} CarriedUpdate(ps: seq<ProducerPc>, i: nat, pc: ProducerPc)
    requires i < |ps|
    ensures Carried(ps[i := pc]) + CarriedOf(ps[i]) == Carried(ps) + CarriedOf(pc)
  {
    if i == 0 {
      assert ps[i := pc][1..] == ps[1..];
    } else {
      assert ps[i := pc][1..] == ps[1..][i - 1 := pc];
      CarriedUpdate(ps[1..], i - 1, pc);
      AddBoth(Carried(ps[1..][i - 1 := pc]), CarriedOf(ps[i]), Carried(ps[1..]), CarriedOf(pc), CarriedOf(ps[0]));
    }
  }

  lemma {:induction false} NobodyCarrying(n: nat)
    ensures Carried(seq(n, _ => Resting)) == multiset{}
  {
    if n > 0 {
      assert seq(n, _ => Resting)[1..] == seq(n - 1, _ => Resting);
      NobodyCarrying(n - 1);
    }
  }

  /** Where the lines are that are no longer under way. */
  function Settled(s: State): multiset<Line> {
    (multiset(s.past.accepted) + s.past.skipped) + s.past.turned
  }

  /** A producer moved, perhaps with a new line, and settled its own if it rests. */
  lemma MoveSettles(s: State, i: nat, s': State, started: multiset<Line>)
    requires s.past.offered == Settled(s) + Carried(s.producers)
    requires Producer(s, i) && |s'.producers| == |s.producers| && s'.producers == s.producers[i := s'.producers[i]]
    requires s'.past.offered == s.past.offered + started
    requires Settled(s') + CarriedOf(s'.producers[i]) == (Settled(s) + CarriedOf(s.producers[i])) + started
    ensures s'.past.offered == Settled(s') + Carried(s'.producers)
  {
    CarriedUpdate(s.producers, i, s'.producers[i]);
    hide Settled, Carried, CarriedOf;
    forall l
      ensures (Settled(s') + Carried(s'.producers))[l] == s'.past.offered[l]
    {
      assert (Settled(s') + CarriedOf(s'.producers[i]))[l] == ((Settled(s) + CarriedOf(s.producers[i])) + started)[l];
      assert (Carried(s'.producers) + CarriedOf(s.producers[i]))[l] == (Carried(s.producers) + CarriedOf(s'.producers[i]))[l];
      assert (s.past.offered + started)[l] == ((Settled(s) + Carried(s.producers)) + started)[l];
    }
  }

  lemma ReaderSettles(s: State, r: ReaderStep)
    requires s.past.offered == Settled(s) + Carried(s.producers) && ReaderEnabled(s, r)
    ensures ApplyReader(s, r).past.offered == Settled(ApplyReader(s, r)) + Carried(ApplyReader(s, r).producers)
  {
    hide Carried;
    if r.Rejected? || r.Hello? || r.Command? {
      MoveSettles(s, 0, ApplyReader(s, r), multiset{if r.Hello? then r.ready else r.line});
    }
  }

  lemma ProducerSettles(s: State, i: nat, p: ProducerStep)
    requires s.past.offered == Settled(s) + Carried(s.producers) && ProducerEnabled(s, i, p)
    ensures ApplyProducer(s, i, p).past.offered == Settled(ApplyProducer(s, i, p)) + Carried(ApplyProducer(s, i, p).producers)
  {
    ProducerMoves(s, i, p);
    OwnLineSettles(s, i, p);
    hide Carried, CarriedOf, Settled, ApplyProducer, ProducerEnabled;
    MoveSettles(s, i, ApplyProducer(s, i, p), if p.StartBroadcast? then multiset{p.line} else multiset{});
  }

  lemma OwnLineSettles(s: State, i: nat, p: ProducerStep)
    requires ProducerEnabled(s, i, p)
    ensures var s' := ApplyProducer(s, i, p);
      var started := if p.StartBroadcast? then multiset{p.line} else multiset{};
      && |s'.producers| == |s.producers| && s'.past.offered == s.past.offered + started
      && Settled(s') + CarriedOf(s'.producers[i]) == (Settled(s) + CarriedOf(s.producers[i])) + started
  {
    match p
    case StartBroadcast(_) =>
    case CheckGreeted => GreetedSettles(s, i);
    case CheckClosed => CheckedSettles(s, i);
    case TrySend => TriedSettles(s, i);
    case DropOldest => DroppedSettles(s, i);
    case CountDrop =>
    hide Greeted, Checked, Tried, OldestDropped, Settled;
  }

  ghost predicate Settles(s: State, i: nat, s': State)
    requires Producer(s, i)
  {
    && |s'.producers| == |s.producers| && s'.past.offered == s.past.offered
    && Settled(s') + CarriedOf(s'.producers[i]) == Settled(s) + CarriedOf(s.producers[i])
  }

  lemma GreetedSettles(s: State, i: nat)
    requires Producer(s, i) && s.producers[i].Greeting?
    ensures Settles(s, i, Greeted(s, i))
  {
  }

  lemma CheckedSettles(s: State, i: nat)
    requires Producer(s, i) && s.producers[i].Entering?
    ensures Settles(s, i, Checked(s, i))
  {
  }

  lemma TriedSettles(s: State, i: nat)
    requires Producer(s, i) && s.producers[i].Trying?
    ensures Settles(s, i, Tried(s, i))
  {
    if |s.queue| < CLIENT_QUEUE {
      AcceptSettles(s, Tried(s, i), s.producers[i].line);
    }
    hide Settled;
  }

  lemma DroppedSettles(s: State, i: nat)
    requires Producer(s, i) && s.producers[i].Dropping?
    ensures Settles(s, i, OldestDropped(s, i))
  {
    var line, s' := s.producers[i].line, OldestDropped(s, i);
    var pc := if s.queue != [] then Counting(line) else Trying(line);
    assert s'.producers == s.producers[i := pc];
    assert s'.past == if s.queue != [] then s.past.(removed := s.past.removed + [(s.queue[0], Dropped)]) else s.past;
    hide OldestDropped;
    StillCarried(s, i, s', pc);
  }

  lemma StillCarried(s: State, i: nat, s': State, pc: ProducerPc)
    requires Producer(s, i) && s'.producers == s.producers[i := pc] && CarriedOf(pc) == CarriedOf(s.producers[i])
    requires s'.past.offered == s.past.offered && s'.past.accepted == s.past.accepted
    requires s'.past.skipped == s.past.skipped && s'.past.turned == s.past.turned
    ensures Settles(s, i, s')
  {
    SameSettled(s, s');
    hide Settled, CarriedOf;
  }

  lemma AcceptSettles(s: State, s': State, line: Line)
    requires s'.past.accepted == s.past.accepted + [line] && s'.past.skipped == s.past.skipped && s'.past.turned == s.past.turned
    ensures Settled(s') == Settled(s) + multiset{line}
  {
  }

  ghost predicate Accounted(s: State) {
    s.past.offered == Settled(s) + Carried(s.producers)
  }

  lemma StepAccounts(s: State, step: Step)
    requires Accounted(s) && Enabled(s, step)
    ensures Accounted(Apply(s, step))
  {
    hide ApplyProducer, ProducerEnabled, ApplyReader, ReaderEnabled, ApplyWriter, WriterEnabled, ApplyShutter,
         ShutterEnabled, Settled, Carried;
    match step
    case ByReader(r) => ReaderSettles(s, r);
    case ByProducer(i, p) => ProducerSettles(s, i, p);
    case ByShutter(c) => ShutterLeaves(s, c); SameSettled(s, ApplyShutter(s, c));
    case ByWriter(w) => WriterLeaves(s, w); SameSettled(s, ApplyWriter(s, w));
  }

  lemma SameSettled(s: State, s': State)
    requires s'.past.accepted == s.past.accepted && s'.past.skipped == s.past.skipped && s'.past.turned == s.past.turned
    ensures Settled(s') == Settled(s)
  {
  }

  /** In every interleaving each line that was broadcast or owed as a reply is
      accepted into the queue, or under way, or met a client that was not greeted
      yet or was closed. */
  lemma {:induction false} LinesAreAccountedFor(broadcasters: nat, steps: seq<Step>)
    requires Run(Init(broadcasters), steps)
    ensures var s := After(Init(broadcasters), steps);
      s.past.offered == ((multiset(s.past.accepted) + s.past.skipped) + s.past.turned) + Carried(s.producers)
  {
    hide Apply, Enabled;
    if steps == [] {
      NobodyCarrying(broadcasters + 1);
    } else {
      hide Carried, Init;
      LinesAreAccountedFor(broadcasters, steps[..|steps| - 1]);
      StepAccounts(After(Init(broadcasters), steps[..|steps| - 1]), steps[|steps| - 1]);
    }
  }

  lemma StepSkips(s: State, step: Step)
    requires Enabled(s, step)
    ensures s.hello ==> Apply(s, step).hello && Apply(s, step).past.skipped == s.past.skipped
    ensures s.closed ==> Apply(s, step).closed
    ensures !s.closed ==> Apply(s, step).past.turned == s.past.turned
  {
    hide ApplyProducer, ProducerEnabled, ApplyReader, ReaderEnabled, ApplyWriter, WriterEnabled, ApplyShutter,
         ShutterEnabled;
    match step
    case ByReader(r) => ReaderLeaves(s, r);
    case ByProducer(i, p) => ProducerMoves(s, i, p);
    case ByShutter(c) => ShutterLeaves(s, c);
    case ByWriter(w) => WriterLeaves(s, w);
  }

  /** Of the lines on their way in, the reader only begins one, */
  lemma ReaderLeaves(s: State, r: ReaderStep)
    requires ReaderEnabled(s, r)
    ensures var s' := ApplyReader(s, r);
      && (s.hello ==> s'.hello) && s'.closed == s.closed && s'.past.accepted == s.past.accepted
      && s'.past.skipped == s.past.skipped && s'.past.turned == s.past.turned
  {
  }

  /** a shutdown touches none, */
  lemma ShutterLeaves(s: State, c: ShutterStep)
    requires ShutterEnabled(s, c)
    ensures var s' := ApplyShutter(s, c);
      && s'.hello == s.hello && (s.closed ==> s'.closed) && s'.past.accepted == s.past.accepted && s'.past.offered == s.past.offered
      && s'.past.skipped == s.past.skipped && s'.past.turned == s.past.turned && s'.producers == s.producers
  {
  }

  /** and neither does the writer. */
  lemma WriterLeaves(s: State, w: WriterStep)
    requires WriterEnabled(s, w)
    ensures var s' := ApplyWriter(s, w);
      && s'.hello == s.hello && s'.closed == s.closed && s'.past.accepted == s.past.accepted && s'.past.offered == s.past.offered
      && s'.past.skipped == s.past.skipped && s'.past.turned == s.past.turned && s'.producers == s.producers
  {
    match w
    case Take => TakeLeaves(s, Writing(s.queue[0]));
    case DrainTake => TakeLeaves(s, DrainWriting(s.queue[0]));
    case _ =>
    hide TakeOldest;
  }

  lemma TakeLeaves(s: State, writer: WriterPc)
    requires s.queue != []
    ensures var s' := TakeOldest(s, writer);
      && s'.hello == s.hello && s'.closed == s.closed && s'.producers == s.producers
      && s'.past == s.past.(removed := s.past.removed + [(s.queue[0], Taken)])
  {
  }

  /** A greeted client misses no broadcast, and one that is not closed is denied
      no line. */
  lemma {:induction false} GreetedMissesNothing(s: State, steps: seq<Step>)
    requires Run(s, steps)
    ensures var s' := After(s, steps);
      && (s.hello ==> s'.hello && s'.past.skipped == s.past.skipped)
      && (s.closed ==> s'.closed)
      && (!s'.closed ==> s'.past.turned == s.past.turned)
  {
    hide Apply, Enabled;
    if steps != [] {
      GreetedMissesNothing(s, steps[..|steps| - 1]);
      StepSkips(After(s, steps[..|steps| - 1]), steps[|steps| - 1]);
    }
  }

  // ---------- an enqueue nobody interferes with ----------

  /** The steps producer i takes when it runs enqueue alone. */
  function SoloSteps(s: State, i: nat): seq<Step> {
    if |s.queue| < CLIENT_QUEUE then [ByProducer(i, CheckClosed), ByProducer(i, TrySend)]
    else [ByProducer(i, CheckClosed), ByProducer(i, TrySend), ByProducer(i, DropOldest), ByProducer(i, CountDrop), ByProducer(i, TrySend)]
  }

  lemma SoloWithRoom(s: State, i: nat)
    requires Producer(s, i) && s.producers[i].Entering? && !s.closed && |s.queue| < CLIENT_QUEUE
    ensures Run(s, SoloSteps(s, i))
    ensures After(s, SoloSteps(s, i)).queue == s.queue + [s.producers[i].line]
    ensures After(s, SoloSteps(s, i)).dropped == s.dropped
    ensures After(s, SoloSteps(s, i)).readerDone == EndsReader(s, i) && After(s, SoloSteps(s, i)).hello == s.hello
  {
    var s1 := Extend(s, [], ByProducer(i, CheckClosed));
    var s2 := Extend(s, [ByProducer(i, CheckClosed)], ByProducer(i, TrySend));
    assert [] + [ByProducer(i, CheckClosed)] == [ByProducer(i, CheckClosed)];
    assert [ByProducer(i, CheckClosed)] + [ByProducer(i, TrySend)] == SoloSteps(s, i);
  }

  /** Making room in a full queue. */
  lemma OldestGoes(s: State, i: nat)
    requires Producer(s, i) && s.producers[i].Trying? && |s.queue| == CLIENT_QUEUE
    ensures var all := [ByProducer(i, TrySend), ByProducer(i, DropOldest), ByProducer(i, CountDrop)];
      && Run(s, all)
      && var s' := After(s, all);
      && s'.queue == s.queue[1..] && s'.producers == s.producers && s'.dropped == s.dropped + 1
      && s'.readerDone == s.readerDone && s'.lastReply == s.lastReply && s'.hello == s.hello
  {
    var line := s.producers[i].line;
    var try, drop, count := ByProducer(i, TrySend), ByProducer(i, DropOldest), ByProducer(i, CountDrop);
    OneStep(s, try);
    var s1 := Apply(s, try);
    assert s1 == Move(s, i, Dropping(line));
    var s2 := Extend(s, [try], drop);
    assert s2 == OldestDropped(s1, i) && s2.producers == s.producers[i := Counting(line)];
    assert [try] + [drop] == [try, drop];
    var s3 := Extend(s, [try, drop], count);
    assert s3 == Counted(s2, i) && s3.producers == s.producers;
    assert [try, drop] + [count] == [try, drop, count];
  }

  lemma SoloFull(s: State, i: nat)
    requires Producer(s, i) && s.producers[i].Entering? && !s.closed && |s.queue| == CLIENT_QUEUE
    ensures Run(s, SoloSteps(s, i))
    ensures After(s, SoloSteps(s, i)).queue == s.queue[1..] + [s.producers[i].line]
    ensures After(s, SoloSteps(s, i)).dropped == s.dropped + 1
    ensures After(s, SoloSteps(s, i)).readerDone == EndsReader(s, i) && After(s, SoloSteps(s, i)).hello == s.hello
  {
    var check, try := ByProducer(i, CheckClosed), ByProducer(i, TrySend);
    var round := [ByProducer(i, TrySend), ByProducer(i, DropOldest), ByProducer(i, CountDrop)];
    OneStep(s, check);
    var s1 := Apply(s, check);
    assert s1 == Move(s, i, Trying(s.producers[i].line));
    OldestGoes(s1, i);
    var s2 := After(s1, round);
    OneStep(s2, try);
    hide Run, After;
    assert Apply(s2, try) == Tried(s2, i);
    hide Apply, Enabled;
    Joined(s, [check], round);
    Joined(s, [check] + round, [try]);
    assert [check] + round + [try] == SoloSteps(s, i);
  }

  /** Alone, enqueue keeps the newest lines: the transition system takes the
      step Client.Enqueue specifies. */
  lemma SoloEnqueue(s: State, i: nat)
    requires Inv(s) && Producer(s, i) && s.producers[i].Entering? && !s.closed
    ensures Run(s, SoloSteps(s, i))
    ensures After(s, SoloSteps(s, i)).queue == LastN(s.queue + [s.producers[i].line], CLIENT_QUEUE)
    ensures After(s, SoloSteps(s, i)).dropped == s.dropped + if |s.queue| == CLIENT_QUEUE then 1 else 0
    ensures After(s, SoloSteps(s, i)).readerDone == EndsReader(s, i) && After(s, SoloSteps(s, i)).hello == s.hello
  {
    if |s.queue| < CLIENT_QUEUE {
      SoloWithRoom(s, i);
    } else {
      SoloFull(s, i);
    }
  }

  lemma RunNothing(s: State)
    ensures Run(s, []) && After(s, []) == s
  {
  }

  lemma Extend(s: State, steps: seq<Step>, step: Step) returns (s': State)
    requires Run(s, steps) && Enabled(After(s, steps), step)
    ensures Run(s, steps + [step]) && After(s, steps + [step]) == Apply(After(s, steps), step) && s' == After(s, steps + [step])
  {
    assert (steps + [step])[..|steps|] == steps;
    s' := After(s, steps + [step]);
  }

  /** One run after another. */
  lemma {:induction false} Joined(s: State, a: seq<Step>, b: seq<Step>)
    requires Run(s, a) && Run(After(s, a), b)
    ensures Run(s, a + b) && After(s, a + b) == After(After(s, a), b)
  {
    hide Apply, Enabled;
    if b == [] {
      assert a + b == a;
    } else {
      Joined(s, a, b[..|b| - 1]);
      assert (a + b)[..|a + b| - 1] == a + b[..|b| - 1];
    }
  }

  lemma OneStep(s: State, step: Step)
    requires Enabled(s, step)
    ensures Run(s, [step]) && After(s, [step]) == Apply(s, step)
  {
    assert [step][..0] == [];
  }

  /** A broadcast that nobody interferes with puts its line into the queue of a
      greeted client, as its newest line, and leaves any other client's alone. */
  lemma SoloBroadcast(s: State, i: nat, line: Line)
    requires Inv(s) && 0 < i && Producer(s, i) && s.producers[i].Resting? && !s.closed
    ensures var check := [ByProducer(i, StartBroadcast(line)), ByProducer(i, CheckGreeted)];
      && Run(s, check)
      && (!s.hello ==> After(s, check).queue == s.queue && After(s, check).producers == s.producers)
      && (s.hello ==>
            var all := check + SoloSteps(After(s, check), i);
            Run(s, all) && After(s, all).queue == LastN(s.queue + [line], CLIENT_QUEUE))
  {
    var start, greet := ByProducer(i, StartBroadcast(line)), ByProducer(i, CheckGreeted);
    var check := [start, greet];
    OneStep(s, start);
    var s1 := Extend(s, [start], greet);
    assert [start] + [greet] == check;
    RunInv(s, check);
    assert !s.hello ==> s1.producers == s.producers;
    if s.hello {
      assert s1.queue == s.queue && s1.producers[i] == Entering(line) && !s1.closed;
      hide Run, After, Inv, Apply, Enabled;
      SoloEnqueue(s1, i);
      Joined(s, check, SoloSteps(s1, i));
    }
  }

  /** What the reader answers. */
  function ReplyOf(r: ReaderStep): Option<Line> {
    match r
    case Rejected(line) => Some(line)
    case Hello(ready) => Some(ready)
    case Command(line) => Some(line)
    case _ => None
  }

  /** A reply that nobody interferes with is the newest line in the queue, and the
      reader goes on exactly unless it was a rejection. */
  lemma SoloReply(s: State, r: ReaderStep)
    requires Inv(s) && ReaderEnabled(s, r) && ReplyOf(r).Some? && !s.closed && !s.lastReply
    ensures Enabled(s, ByReader(r))
    ensures var s1 := Apply(s, ByReader(r));
      var all := [ByReader(r)] + SoloSteps(s1, 0);
      && Run(s, all)
      && var s' := After(s, all);
      && s'.queue == LastN(s.queue + [ReplyOf(r).value], CLIENT_QUEUE)
      && (s'.readerDone <==> r.Rejected?) && s'.hello == (s.hello || r.Hello?)
  {
    var step := ByReader(r);
    OneStep(s, step);
    RunInv(s, [step]);
    var s1 := Apply(s, step);
    assert s1.queue == s.queue && s1.producers[0] == Entering(ReplyOf(r).value) && !s1.closed;
    SoloEnqueue(s1, 0);
    hide Run, After, Inv, Apply, Enabled, ReaderEnabled;
    Joined(s, [step], SoloSteps(s1, 0));
  }

  /** Left alone, the writer delivers the oldest line. */
  lemma SoloWrite(s: State)
    requires s.writer.Selecting? && s.queue != []
    ensures var all := [ByWriter(Take), ByWriter(WriteOk)];
      && Run(s, all)
      && var s' := After(s, all);
      s'.past.delivered == s.past.delivered + [s.queue[0]] && s'.queue == s.queue[1..] && s'.writer.Selecting?
  {
    var take, write := ByWriter(Take), ByWriter(WriteOk);
    OneStep(s, take);
    var s1 := Extend(s, [take], write);
    assert [take] + [write] == [ByWriter(Take), ByWriter(WriteOk)];
  }

  /** The steps in which the writer delivers what is queued, and ends. */
  function FlushSteps(n: nat): seq<Step> {
    if n == 0 then [ByWriter(DrainDone)] else [ByWriter(DrainTake), ByWriter(WriteOk)] + FlushSteps(n - 1)
  }

  lemma DrainOne(s: State)
    requires s.writer.Draining? && s.queue != []
    ensures var all := [ByWriter(DrainTake), ByWriter(WriteOk)];
      && Run(s, all)
      && var s' := After(s, all);
      s'.past.delivered == s.past.delivered + [s.queue[0]] && s'.queue == s.queue[1..] && s'.writer.Draining?
  {
    var take, write := ByWriter(DrainTake), ByWriter(WriteOk);
    OneStep(s, take);
    var s1 := Extend(s, [take], write);
    assert [take] + [write] == [ByWriter(DrainTake), ByWriter(WriteOk)];
  }

  lemma DrainEnd(s: State)
    requires s.writer.Draining? && s.queue == []
    ensures Run(s, FlushSteps(0))
    ensures var s' := After(s, FlushSteps(0));
      s'.writer.Flushed? && s'.queue == [] && s'.past.delivered == s.past.delivered + s.queue
  {
    OneStep(s, ByWriter(DrainDone));
  }

  lemma {:induction false} SoloDrain(s: State)
    requires s.writer.Draining?
    ensures Run(s, FlushSteps(|s.queue|))
    ensures var s' := After(s, FlushSteps(|s.queue|));
      s'.writer.Flushed? && s'.queue == [] && s'.past.delivered == s.past.delivered + s.queue
    decreases |s.queue|
  {
    hide Run, After, Apply, Enabled;
    if s.queue == [] {
      DrainEnd(s);
    } else {
      var one := [ByWriter(DrainTake), ByWriter(WriteOk)];
      DrainOne(s);
      var s2 := After(s, one);
      SoloDrain(s2);
      Joined(s, one, FlushSteps(|s2.queue|));
      assert FlushSteps(|s.queue|) == one + FlushSteps(|s2.queue|);
      hide FlushSteps;
      assert (s.past.delivered + [s.queue[0]]) + s.queue[1..] == s.past.delivered + s.queue;
    }
  }

  /** When the conversation has ended, with an error reply or without, serve lets
      the writer deliver all that is queued before it stops. */
  lemma SoloFlush(s: State)
    requires s.readerDone && s.writer.Selecting?
    ensures var all := [ByShutter(ServeStops), ByWriter(SeesShutdown)] + FlushSteps(|s.queue|);
      && Run(s, all)
      && var s' := After(s, all);
      s'.writer.Flushed? && s'.queue == [] && s'.past.delivered == s.past.delivered + s.queue
  {
    var stop, see := ByShutter(ServeStops), ByWriter(SeesShutdown);
    OneStep(s, stop);
    var s2 := Extend(s, [stop], see);
    assert [stop] + [see] == [ByShutter(ServeStops), ByWriter(SeesShutdown)];
    SoloDrain(s2);
    hide Run, After, Apply, Enabled;
    Joined(s, [stop, see], FlushSteps(|s.queue|));
  }

  /** And close marks the client closed before it signals the writer. */
  lemma SoloClose(s: State)
    requires !s.closed
    ensures var all := [ByShutter(CloseFlag), ByShutter(CloseStops)];
      Run(s, all) && After(s, all).closed && After(s, all).shutdown && After(s, all).queue == s.queue
  {
    var flag, stop := ByShutter(CloseFlag), ByShutter(CloseStops);
    OneStep(s, flag);
    var s2 := Extend(s, [flag], stop);
    assert [flag] + [stop] == [ByShutter(CloseFlag), ByShutter(CloseStops)];
  }

  /** What the reader may do next: reject with an error, greet, or, for a greeted
      client, serve a command. */
  lemma ReaderServes(s: State, line: Line)
    requires Reader(s)
    ensures ReaderEnabled(s, Rejected(line)) <==> line.isError
    ensures ReaderEnabled(s, Hello(line)) && ReaderEnabled(s, HelloUnanswered) && ReaderEnabled(s, Ends)
    ensures ReaderEnabled(s, Command(line)) <==> s.hello
  {
  }

  /** A client is greeted by a hello, answered or not, and by nothing else; input
      that ends ends the reader. */
  lemma ReaderFlags(s: State, r: ReaderStep)
    requires ReaderEnabled(s, r)
    ensures var s' := ApplyReader(s, r);
      && (s'.hello <==> s.hello || r.Hello? || r.HelloUnanswered?)
      && (r.Ends? ==> s'.readerDone) && (s'.lastReply <==> s.lastReply || r.Rejected?)
  {
  }

  predicate Stopped(w: WriterPc) {
    w.Flushed? || w.Failed? || w.Cancelled?
  }

  lemma StoppedStep(s: State, step: Step)
    requires Enabled(s, step) && Stopped(s.writer)
    ensures Apply(s, step).writer == s.writer && Apply(s, step).past.delivered == s.past.delivered
  {
    hide ApplyProducer, ProducerEnabled;
    if step.ByProducer? {
      ProducerMoves(s, step.i, step.p);
      ProducerDelivers(s, step.i, step.p);
    }
  }

  lemma ProducerDelivers(s: State, i: nat, p: ProducerStep)
    requires ProducerEnabled(s, i, p)
    ensures ApplyProducer(s, i, p).past.delivered == s.past.delivered
  {
    match p
    case StartBroadcast(_) =>
    case CheckGreeted =>
    case CheckClosed =>
    case TrySend =>
    case DropOldest =>
    case CountDrop =>
  }

  /** A write error or the end of the context ends the writer: whatever happens
      later, nothing more is written. */
  lemma {:induction false} StoppedWriterIsSilent(s: State, w: WriterStep, steps: seq<Step>)
    requires WriterEnabled(s, w) && (w.WriteFails? || w.Cancels? || w.DrainDone?)
    requires Run(ApplyWriter(s, w), steps)
    ensures var s' := After(ApplyWriter(s, w), steps); Stopped(s'.writer) && s'.past.delivered == s.past.delivered
  {
    hide Apply, Enabled;
    if steps != [] {
      StoppedWriterIsSilent(s, w, steps[..|steps| - 1]);
      StoppedStep(After(ApplyWriter(s, w), steps[..|steps| - 1]), steps[|steps| - 1]);
    }
  }
}
