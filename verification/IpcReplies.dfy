/** What becomes of one request, and how the client comes back: each request
    that can be written is, its reply reaches its caller, and reconnects wait
    longer each time. */
module IpcReplies {
  import opened Basics
  import opened IpcFraming
  import opened IpcClient
  import opened IpcRequests
  import opened IpcReading

  // ---------- sending ----------

  /** A request waits for its reply exactly if there is a link that acknowledged
      its hello and the command can be encoded; otherwise its error is scheduled. */
  lemma SentIff(v: View, cb: Callback, encodes: bool)
    requires Inv(v)
    ensures var w, id := Act(v, Action.Send(Some(cb), encodes)), Decimal(v.book.lastId + 1);
      && (id in w.book.pending <==> v.link.pipe && v.link.connected && encodes)
      && (id in w.book.scheduled <==> !(v.link.pipe && v.link.connected && encodes))
      && (id in w.book.pending ==> w.book.pending[id] == cb) && (id in w.book.scheduled ==> w.book.scheduled[id] == cb)
      && id !in v.book.asked && w.book.calls == v.book.calls && w.link == v.link
  {
    hide Decimal, Ran, OnceEach;
    FreshId(v.book);
  }

  /** A command without a callback asks for nothing. */
  lemma UnaskedLeavesNothing(v: View, encodes: bool)
    ensures Act(v, Action.Send(None, encodes)) == v
  {
  }

  function CountAsked(actions: seq<Action>): nat {
    if actions == [] then 0
    else
      var last := actions[|actions| - 1];
      CountAsked(actions[..|actions| - 1]) + if last.Send? && last.cb.Some? then 1 else 0
  }

  /** Of what callers and callbacks do in a row, every request gets its number. */
  lemma {:induction false} EveryRequestIsNumbered(v: View, actions: seq<Action>)
    ensures Acts(v, actions).book.lastId == v.book.lastId + CountAsked(actions)
  {
    hide Decimal, Writes;
    if actions != [] {
      EveryRequestIsNumbered(v, actions[..|actions| - 1]);
    }
  }

  // ---------- one line from the daemon ----------

  /** One event that arrives by itself, with no callbacks following. */
  lemma EventTaken(decode: Bytes -> Option<Event>, v: View, line: Bytes, ev: Event)
    requires v.link.buffer == line + [NL] && line != [] && NL !in line && decode(line) == Some(ev) && ev.kind.Some?
    ensures Taken(decode, v, []) ==
      View(Ready(v.link.(buffer := [], lines := v.link.lines + [line]), ev), Replied(v.book, ev.id))
  {
    var b := v.link.buffer;
    NewlineAt(line);
    assert b[..|line|] == line && b[|line| + 1..] == [];
    hide FirstNl;
    var v1 := View(v.link.(buffer := [], lines := v.link.lines + [line]), v.book);
    assert OneLine(decode, v, []).0 == Dispatched(v1, ev, []);
    assert Dispatched(v1, ev, []).link.buffer == [];
    NothingLeft(decode, Dispatched(v1, ev, []));
  }

  lemma NewlineAt(line: Bytes)
    requires NL !in line
    ensures FirstNl(line + [NL]) == |line|
  {
    FirstNlConcat(line, [NL]);
    NoNl(line);
  }

  lemma NothingLeft(decode: Bytes -> Option<Event>, v: View)
    requires v.link.buffer == []
    ensures Taken(decode, v, []) == v
  {
    assert FirstNl([]) == 0;
  }

  predicate IsEvent(decode: Bytes -> Option<Event>, line: Bytes, ev: Event) {
    line != [] && NL !in line && decode(line) == Some(ev) && ev.kind.Some?
  }

  lemma EventArrives(decode: Bytes -> Option<Event>, v: View, from: nat, line: Bytes, ev: Event)
    requires 1 <= from <= v.link.past.links && v.link.buffer == [] && IsEvent(decode, line, ev)
    ensures var w := Step(decode, v, Chunk(from, line + [NL], []));
      && w.book == Replied(v.book, ev.id)
      && w.link.connected == (v.link.connected || ev.kind == Some("ready"))
      && w.link.online == (if ev.kind == Some("ready") then ev.connected else v.link.online)
      && w.link.attempt == (if ev.kind == Some("ready") then 0 else v.link.attempt)
      && w.link.want == v.link.want && w.link.pipe == v.link.pipe && w.link.timer == v.link.timer
  {
    var v0 := FromLink(v, from, line + [NL]);
    var v1 := View(v0.link.(buffer := v0.link.buffer + (line + [NL])), v0.book);
    assert v1.link.buffer == line + [NL];
    EventTaken(decode, v1, line, ev);
    hide Taken;
  }

  /** A request written over an acknowledged link and answered: its own callback
      runs, once, with the answer. */
  lemma ReplyReachesCaller(decode: Bytes -> Option<Event>, v: View, cb: Callback, from: nat, line: Bytes, ev: Event)
    requires Inv(v) && v.link.pipe && v.link.connected && v.link.buffer == [] && 1 <= from <= v.link.past.links
    requires IsEvent(decode, line, ev) && ev.id == Some(Decimal(v.book.lastId + 1))
    ensures var id := Decimal(v.book.lastId + 1);
      var w := Step(decode, Act(v, Action.Send(Some(cb), true)), Chunk(from, line + [NL], []));
      w.book.calls == v.book.calls + [Call(id, cb, true)] && id !in w.book.pending && id !in w.book.scheduled
  {
    hide Decimal, Inv, Step;
    SentIff(v, cb, true);
    EventArrives(decode, Act(v, Action.Send(Some(cb), true)), from, line, ev);
  }

  /** One that cannot be written: its own callback runs, once, with the error. */
  lemma FailureReachesCaller(decode: Bytes -> Option<Event>, v: View, cb: Callback, encodes: bool)
    requires Inv(v) && !(v.link.pipe && v.link.connected && encodes)
    ensures var id := Decimal(v.book.lastId + 1);
      var w := Step(decode, Act(v, Action.Send(Some(cb), encodes)), RunFailure(id, []));
      w.book.calls == v.book.calls + [Call(id, cb, false)] && id !in w.book.pending && id !in w.book.scheduled
  {
    hide Decimal, Inv, Act;
    SentIff(v, cb, encodes);
  }

  // ---------- stopping and coming back ----------

  predicate Off(l: Link) {
    !l.want && !l.pipe && l.timer.None?
  }

  predicate NoStart(op: Op) {
    match op
    case Do(a) => a != Start
    case Chunk(_, _, reactions) => forall k :: 0 <= k < |reactions| ==> Start !in reactions[k]
    case RunFailure(_, actions) => Start !in actions
    case _ => true
  }

  lemma {:induction false} ActsOff(v: View, actions: seq<Action>)
    requires Off(v.link) && Start !in actions
    ensures Off(Acts(v, actions).link)
  {
    hide Decimal;
    if actions != [] {
      var front, last := actions[..|actions| - 1], actions[|actions| - 1];
      assert last in actions && forall a :: a in front ==> a in actions;
      ActsOff(v, front);
    }
  }

  lemma {:induction false} TakenOff(decode: Bytes -> Option<Event>, v: View, reactions: seq<seq<Action>>)
    requires Off(v.link) && forall k :: 0 <= k < |reactions| ==> Start !in reactions[k]
    ensures Off(Taken(decode, v, reactions).link)
    decreases |v.link.buffer|
  {
    hide FirstNl;
    if FirstNl(v.link.buffer) < |v.link.buffer| {
      OneLineOff(decode, v, reactions);
      hide OneLine;
      TakenOff(decode, OneLine(decode, v, reactions).0, OneLine(decode, v, reactions).1);
    }
  }

  lemma OneLineOff(decode: Bytes -> Option<Event>, v: View, reactions: seq<seq<Action>>)
    requires FirstNl(v.link.buffer) < |v.link.buffer|
    requires Off(v.link) && forall k :: 0 <= k < |reactions| ==> Start !in reactions[k]
    ensures var next := OneLine(decode, v, reactions);
      Off(next.0.link) && forall k :: 0 <= k < |next.1| ==> Start !in next.1[k]
  {
    hide FirstNl, Acts, Replied;
    var n := FirstNl(v.link.buffer);
    var line, rest := v.link.buffer[..n], v.link.buffer[n + 1..];
    if line != [] && decode(line).Some? {
      var ev := decode(line).value;
      var v1 := View(v.link.(buffer := rest, lines := v.link.lines + [line]), v.book);
      ActsOff(View(Ready(v1.link, ev), Replied(v1.book, ev.id)), Head(reactions));
    }
  }

  lemma StepOff(decode: Bytes -> Option<Event>, v: View, op: Op)
    requires Off(v.link) && NoStart(op)
    ensures Off(Step(decode, v, op).link)
  {
    hide Taken, Acts, Decimal;
    match op
    case Chunk(from, bytes, reactions) =>
      var v0 := FromLink(v, from, bytes);
      TakenOff(decode, View(v0.link.(buffer := v0.link.buffer + bytes), v0.book), reactions);
    case RunFailure(id, actions) =>
      if id in v.book.scheduled {
        ActsOff(View(v.link, FailureRun(v.book, id)), actions);
      }
    case _ =>
  }

  /** After a stop there is no link and no reconnect ahead until somebody starts
      the client again, whatever was still scheduled. */
  lemma {:induction false} StopIsFinal(decode: Bytes -> Option<Event>, v: View, later: seq<Op>)
    requires forall k :: 0 <= k < |later| ==> NoStart(later[k])
    ensures Off(Run(decode, Act(v, Stop), later).link)
  {
    hide Step, NoStart;
    if later != [] {
      StopIsFinal(decode, v, later[..|later| - 1]);
      StepOff(decode, Run(decode, Act(v, Stop), later[..|later| - 1]), later[|later| - 1]);
    }
  }

  function Pow2(n: nat): nat {
    if n == 0 then 1 else 2 * Pow2(n - 1)
  }

  /** The link fails, the reconnect timer fires, the link fails again, and so on. */
  function Flaps(n: nat): seq<Op> {
    if n == 0 then [LinkDown] else Flaps(n - 1) + [TimerFires, LinkDown]
  }

  lemma {:induction false} Doublings(n: nat)
    ensures n >= 5 ==> Pow2(n) >= 32
    ensures BACKOFF[MinInt(n, |BACKOFF| - 1)] == MinInt(1000 * Pow2(n), 30000)
  {
    if n == 0 {
      assert Pow2(0) == 1;
    } else {
      Doublings(n - 1);
    }
  }

  /** One failed link after n others. */
  predicate Waiting(l: Link, n: nat) {
    l.want && !l.pipe && l.attempt == MinInt(n + 1, |BACKOFF|) && l.timer == Some(BACKOFF[MinInt(n, |BACKOFF| - 1)])
  }

  lemma OneFlap(decode: Bytes -> Option<Event>, v: View, n: nat)
    requires Waiting(v.link, n)
    ensures Waiting(Step(decode, Step(decode, v, TimerFires), LinkDown).link, n + 1)
  {
  }

  lemma RunTwoMore(decode: Bytes -> Option<Event>, v: View, front: seq<Op>, x: Op, y: Op)
    ensures Run(decode, v, front + [x, y]) == Step(decode, Step(decode, Run(decode, v, front), x), y)
  {
    hide Step;
    var all := front + [x, y];
    assert all[..|all| - 1] == front + [x] && (front + [x])[..|front|] == front;
  }

  lemma {:induction false} FlapsWait(decode: Bytes -> Option<Event>, v: View, n: nat)
    requires v.link.want && v.link.attempt == 0
    ensures Waiting(Run(decode, v, Flaps(n)).link, n)
  {
    if n == 0 {
      assert [LinkDown][..0] == [];
      assert Run(decode, v, [LinkDown]) == Step(decode, Run(decode, v, []), LinkDown);
    } else {
      hide Run, Step, Waiting;
      FlapsWait(decode, v, n - 1);
      RunTwoMore(decode, v, Flaps(n - 1), TimerFires, LinkDown);
      OneFlap(decode, Run(decode, v, Flaps(n - 1)), n - 1);
    }
  }

  /** The n-th reconnect in a row waits twice as long as the one before, but never
      longer than 30 seconds; start and every acknowledged hello begin again with
      one second. */
  lemma ReconnectsBackOff(decode: Bytes -> Option<Event>, v: View, n: nat)
    requires v.link.want && v.link.attempt == 0
    ensures var l := Run(decode, v, Flaps(n)).link;
      l.timer == Some(MinInt(1000 * Pow2(n), 30000)) && l.want && !l.pipe
  {
    hide Run, Flaps;
    FlapsWait(decode, v, n);
    Doublings(n);
  }

  lemma StartBeginsAgain(v: View)
    ensures Act(v, Start).link.attempt == 0 && Act(v, Start).link.want && Act(v, Start).link.pipe
  {
  }
}
