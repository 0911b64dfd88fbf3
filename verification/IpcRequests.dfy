/** What the frontend's request bookkeeping keeps in every run, whatever the
    daemon sends, whenever the link drops and whatever callbacks do. */
module IpcRequests {
  import opened Basics
  import opened IpcFraming
  import opened IpcClient

  // ---------- request ids ----------

  function Value(s: string): int {
    if s == [] then 0 else 10 * Value(s[..|s| - 1]) + (s[|s| - 1] as int - '0' as int)
  }

  /** Distinct request numbers have distinct texts. */
  lemma {:induction false} DecimalReadsBack(n: nat)
    ensures Decimal(n) != [] && Value(Decimal(n)) == n
  {
    var digit := [('0' as int + n % 10) as char];
    assert digit[..0] == [] && Value(digit) == n % 10;
    if n >= 10 {
      DecimalReadsBack(n / 10);
      var s := Decimal(n);
      assert s[..|s| - 1] == Decimal(n / 10);
    }
  }

  // ---------- the invariant ----------

  /** The ids whose callback has run. */
  function Ran(calls: seq<Call>): set<string> {
    if calls == [] then {} else Ran(calls[..|calls| - 1]) + {calls[|calls| - 1].id}
  }

  /** No callback ran twice, and each ran as the one its request was given. */
  predicate OnceEach(calls: seq<Call>, asked: map<string, Callback>) {
    calls == [] ||
    var last := calls[|calls| - 1];
    && OnceEach(calls[..|calls| - 1], asked)
    && last.id !in Ran(calls[..|calls| - 1])
    && last.id in asked && asked[last.id] == last.cb
  }

  /** The ids handed out are the decimal numbers from 1 on. */
  ghost predicate Numbered(b: Book) {
    && (forall id :: id in b.asked ==> id == Decimal(IdNumber(id)) && 1 <= IdNumber(id) <= b.lastId)
  }

  function IdNumber(id: string): nat {
    if Value(id) < 0 then 0 else Value(id)
  }

  /** Every request is waiting for its reply, waiting for its error to be
      delivered, answered or failed, or given up: one of them and only one. */
  predicate Partitioned(b: Book) {
    && b.pending.Keys + b.scheduled.Keys + b.abandoned + Ran(b.calls) == b.asked.Keys
    && b.pending.Keys !! b.scheduled.Keys
    && (b.pending.Keys + b.scheduled.Keys) !! b.abandoned
    && (b.pending.Keys + b.scheduled.Keys + b.abandoned) !! Ran(b.calls)
  }

  /** The stored callbacks are the ones the requests came with. */
  predicate Faithful(b: Book) {
    && (forall id :: id in b.pending ==> id in b.asked && b.pending[id] == b.asked[id])
    && (forall id :: id in b.scheduled ==> id in b.asked && b.scheduled[id] == b.asked[id])
    && OnceEach(b.calls, b.asked)
  }

  ghost predicate BookInv(b: Book) {
    Numbered(b) && Partitioned(b) && Faithful(b)
  }

  /** Nothing waits for a reply without a link, and a client that is wanted has
      a link or a reconnect ahead of it. */
  ghost predicate Inv(v: View) {
    && BookInv(v.book)
    && (!v.link.pipe ==> v.book.pending == map[])
    && (v.link.want ==> v.link.pipe || v.link.timer.Some?)
    && (v.link.timer.Some? ==> v.link.timer.value in BACKOFF)
    && v.link.attempt <= |BACKOFF|
  }

  // ---------- each change to the book ----------

  lemma {:induction false} OnceEachLater(calls: seq<Call>, asked: map<string, Callback>, asked': map<string, Callback>)
    requires OnceEach(calls, asked)
    requires forall id :: id in asked ==> id in asked' && asked'[id] == asked[id]
    ensures OnceEach(calls, asked')
  {
    if calls != [] {
      OnceEachLater(calls[..|calls| - 1], asked, asked');
    }
  }

  lemma FreshId(b: Book)
    requires Numbered(b)
    ensures Decimal(b.lastId + 1) !in b.asked
  {
    DecimalReadsBack(b.lastId + 1);
  }

  lemma AskedNumbered(b: Book, cb: Callback, written: bool)
    requires Numbered(b)
    ensures Numbered(Asked(b, cb, written))
  {
    hide Decimal, Value;
    DecimalReadsBack(b.lastId + 1);
  }

  lemma AskedPartitioned(b: Book, cb: Callback, written: bool)
    requires Partitioned(b) && Decimal(b.lastId + 1) !in b.asked
    ensures Partitioned(Asked(b, cb, written))
  {
    hide Decimal, Ran;
    var id, b' := Decimal(b.lastId + 1), Asked(b, cb, written);
    assert b'.asked.Keys == b.asked.Keys + {id};
    if written {
      assert b'.pending.Keys == b.pending.Keys + {id};
    } else {
      assert b'.scheduled.Keys == b.scheduled.Keys + {id};
    }
  }

  lemma AskedFaithful(b: Book, cb: Callback, written: bool)
    requires Faithful(b) && Decimal(b.lastId + 1) !in b.asked
    ensures Faithful(Asked(b, cb, written))
  {
    hide Decimal, OnceEach;
    OnceEachLater(b.calls, b.asked, Asked(b, cb, written).asked);
  }

  lemma AskedInv(b: Book, cb: Callback, written: bool)
    requires BookInv(b)
    ensures BookInv(Asked(b, cb, written)) && Grows(b, Asked(b, cb, written))
  {
    hide Decimal, Numbered, Partitioned, Faithful;
    FreshId(b);
    AskedNumbered(b, cb, written);
    AskedPartitioned(b, cb, written);
    AskedFaithful(b, cb, written);
  }

  lemma CalledInv(b: Book, b': Book, id: string, cb: Callback, answered: bool)
    requires BookInv(b)
    requires id in b.pending.Keys + b.scheduled.Keys && id in b.asked && cb == b.asked[id]
    requires b'.asked == b.asked && b'.lastId == b.lastId && b'.abandoned == b.abandoned
    requires b'.pending == b.pending - {id} && b'.scheduled == b.scheduled - {id}
    requires b'.calls == b.calls + [Call(id, cb, answered)]
    ensures BookInv(b')
  {
    hide Decimal, Value;
    CallsGrow(b.calls, Call(id, cb, answered), b.asked);
    hide Ran, OnceEach;
    assert b'.pending.Keys == b.pending.Keys - {id} && b'.scheduled.Keys == b.scheduled.Keys - {id};
  }

  lemma CallsGrow(calls: seq<Call>, c: Call, asked: map<string, Callback>)
    ensures Ran(calls + [c]) == Ran(calls) + {c.id}
    ensures OnceEach(calls, asked) && c.id !in Ran(calls) && c.id in asked && asked[c.id] == c.cb
            ==> OnceEach(calls + [c], asked)
  {
    assert (calls + [c])[..|calls|] == calls;
  }

  lemma AnsweredInv(b: Book, id: string)
    requires BookInv(b) && id in b.pending
    ensures BookInv(Answered(b, id))
  {
    hide Decimal, Value, OnceEach, Ran;
    assert b.scheduled - {id} == b.scheduled;
    CalledInv(b, Answered(b, id), id, b.pending[id], true);
  }

  lemma FailureRunInv(b: Book, id: string)
    requires BookInv(b) && id in b.scheduled
    ensures BookInv(FailureRun(b, id))
  {
    hide Decimal, Value, OnceEach, Ran;
    assert b.pending - {id} == b.pending;
    CalledInv(b, FailureRun(b, id), id, b.scheduled[id], false);
  }

  lemma AllFailedInv(b: Book)
    requires BookInv(b)
    ensures BookInv(AllFailed(b))
  {
    hide Decimal, Value, OnceEach, Ran;
    assert (b.scheduled + b.pending).Keys == b.scheduled.Keys + b.pending.Keys;
  }

  lemma AbandonedInv(b: Book)
    requires BookInv(b)
    ensures BookInv(Abandoned(b))
  {
    hide Decimal, Value, OnceEach, Ran;
  }

  // ---------- each operation ----------

  /** What later steps never undo: ids stay bound to their callbacks, callbacks
      that ran have run, and requests given up stay given up. */
  predicate Grows(b: Book, b': Book) {
    && (forall id :: id in b.asked ==> id in b'.asked && b'.asked[id] == b.asked[id])
    && b.calls <= b'.calls
    && b.abandoned <= b'.abandoned
    && b.lastId <= b'.lastId
  }

  lemma GrowsOn(a: Book, b: Book, c: Book)
    requires Grows(a, b) && Grows(b, c)
    ensures Grows(a, c)
  {
  }

  lemma ActInv(v: View, a: Action)
    requires Inv(v)
    ensures Inv(Act(v, a)) && Grows(v.book, Act(v, a).book)
  {
    hide Decimal, BookInv;
    match a
    case Send(cb, encodes) =>
      if cb.Some? {
        AskedInv(v.book, cb.value, Writes(v.link, encodes));
      }
    case Start =>
    case Stop =>
      AbandonedInv(v.book);
  }

  lemma {:induction false} ActsInv(v: View, actions: seq<Action>)
    requires Inv(v)
    ensures Inv(Acts(v, actions)) && Grows(v.book, Acts(v, actions).book)
  {
    hide Act, Inv;
    if actions != [] {
      var before := Acts(v, actions[..|actions| - 1]);
      ActsInv(v, actions[..|actions| - 1]);
      ActInv(before, actions[|actions| - 1]);
      GrowsOn(v.book, before.book, Acts(v, actions).book);
    }
  }

  lemma DispatchedInv(v: View, ev: Event, actions: seq<Action>)
    requires Inv(v)
    ensures Inv(Dispatched(v, ev, actions)) && Grows(v.book, Dispatched(v, ev, actions).book)
  {
    hide BookInv, Acts, Decimal;
    if ev.kind.Some? {
      var v1 := View(Ready(v.link, ev), Replied(v.book, ev.id));
      if ev.id.Some? && ev.id.value in v.book.pending {
        AnsweredInv(v.book, ev.id.value);
      }
      ActsInv(v1, actions);
      GrowsOn(v.book, v1.book, Acts(v1, actions).book);
    }
  }

  lemma OneLineInv(decode: Bytes -> Option<Event>, v: View, reactions: seq<seq<Action>>)
    requires Inv(v) && FirstNl(v.link.buffer) < |v.link.buffer|
    ensures Inv(OneLine(decode, v, reactions).0) && Grows(v.book, OneLine(decode, v, reactions).0.book)
  {
    hide BookInv, Dispatched, FirstNl;
    var n := FirstNl(v.link.buffer);
    var line, rest := v.link.buffer[..n], v.link.buffer[n + 1..];
    if line != [] && decode(line).Some? {
      var v1 := View(v.link.(buffer := rest, lines := v.link.lines + [line]), v.book);
      DispatchedInv(v1, decode(line).value, Head(reactions));
    }
  }

  lemma {:induction false} TakenInv(decode: Bytes -> Option<Event>, v: View, reactions: seq<seq<Action>>)
    requires Inv(v)
    ensures Inv(Taken(decode, v, reactions)) && Grows(v.book, Taken(decode, v, reactions).book)
    decreases |v.link.buffer|
  {
    hide Inv, OneLine, Grows, FirstNl;
    if FirstNl(v.link.buffer) == |v.link.buffer| {
      GrowsRefl(v.book);
    } else {
      var next := OneLine(decode, v, reactions);
      OneLineInv(decode, v, reactions);
      TakenInv(decode, next.0, next.1);
      GrowsOn(v.book, next.0.book, Taken(decode, v, reactions).book);
    }
  }

  lemma GrowsRefl(b: Book)
    ensures Grows(b, b)
  {
  }

  lemma DownInv(v: View)
    requires Inv(v)
    ensures Inv(Down(v)) && Grows(v.book, Down(v).book)
  {
    hide BookInv;
    AllFailedInv(v.book);
  }

  // ---------- runs ----------

  /** What the main loop may run next. Chunks, link failures and error replies
      were scheduled earlier and may come at any time, however stale; a chunk
      was read from some link opened before. */
  datatype Op =
    | Do(a: Action)
    | Chunk(from: nat, bytes: Bytes, reactions: seq<seq<Action>>)
    | LinkDown
    | TimerFires
    | RunFailure(id: string, actions: seq<Action>)

  function Step(decode: Bytes -> Option<Event>, v: View, op: Op): View {
    match op
    case Do(a) => Act(v, a)
    case Chunk(from, bytes, reactions) =>
      if 1 <= from <= v.link.past.links then Consumed(decode, FromLink(v, from, bytes), bytes, reactions) else v
    case LinkDown => Down(v)
    case TimerFires => if v.link.timer.None? then v else View(Connected(v.link.(timer := None)), v.book)
    case RunFailure(id, actions) =>
      if id !in v.book.scheduled then v else Acts(View(v.link, FailureRun(v.book, id)), actions)
  }

  function Run(decode: Bytes -> Option<Event>, v: View, ops: seq<Op>): View {
    if ops == [] then v else Step(decode, Run(decode, v, ops[..|ops| - 1]), ops[|ops| - 1])
  }

  lemma ChunkInv(decode: Bytes -> Option<Event>, v: View, bytes: Bytes, reactions: seq<seq<Action>>)
    requires Inv(v)
    ensures Inv(Consumed(decode, v, bytes, reactions)) && Grows(v.book, Consumed(decode, v, bytes, reactions).book)
  {
    hide BookInv, Grows, Taken, Down;
    var v0 := View(v.link.(buffer := v.link.buffer + bytes), v.book);
    var v1 := Taken(decode, v0, reactions);
    TakenInv(decode, v0, reactions);
    if |v1.link.buffer| > MAX_LINE {
      DownInv(v1);
      GrowsOn(v.book, v1.book, Down(v1).book);
    }
  }

  lemma FailureInv(v: View, id: string, actions: seq<Action>)
    requires Inv(v) && id in v.book.scheduled
    ensures var v' := Acts(View(v.link, FailureRun(v.book, id)), actions);
      Inv(v') && Grows(v.book, v'.book)
  {
    hide BookInv, Acts;
    FailureRunInv(v.book, id);
    var v1 := View(v.link, FailureRun(v.book, id));
    ActsInv(v1, actions);
    GrowsOn(v.book, v1.book, Acts(v1, actions).book);
  }

  lemma StepInv(decode: Bytes -> Option<Event>, v: View, op: Op)
    requires Inv(v)
    ensures Inv(Step(decode, v, op)) && Grows(v.book, Step(decode, v, op).book)
  {
    hide BookInv, Act, Acts, Consumed, Down;
    GrowsRefl(v.book);
    match op
    case Do(a) => ActInv(v, a);
    case Chunk(from, bytes, reactions) => ChunkInv(decode, FromLink(v, from, bytes), bytes, reactions);
    case LinkDown => DownInv(v);
    case TimerFires =>
    case RunFailure(id, actions) =>
      if id in v.book.scheduled {
        FailureInv(v, id, actions);
      }
  }

  lemma {:induction false} RunInv(decode: Bytes -> Option<Event>, v: View, ops: seq<Op>)
    requires Inv(v)
    ensures Inv(Run(decode, v, ops)) && Grows(v.book, Run(decode, v, ops).book)
  {
    hide Inv, Step, Grows;
    GrowsRefl(v.book);
    if ops != [] {
      var before := Run(decode, v, ops[..|ops| - 1]);
      RunInv(decode, v, ops[..|ops| - 1]);
      StepInv(decode, before, ops[|ops| - 1]);
      GrowsOn(v.book, before.book, Run(decode, v, ops).book);
    }
  }

  // ---------- what it means ----------

  lemma StartsRight()
    ensures Inv(EMPTY)
  {
    hide Value, Decimal;
  }

  /** In every run each request has exactly one fate, its own callback runs at
      most once, and nothing is pending while there is no link. */
  lemma EveryRequestHasOneFate(decode: Bytes -> Option<Event>, ops: seq<Op>)
    ensures var v := Run(decode, EMPTY, ops);
      && Partitioned(v.book)
      && OnceEach(v.book.calls, v.book.asked)
      && (!v.link.pipe ==> v.book.pending == map[])
      && (v.link.want ==> v.link.pipe || v.link.timer.Some?)
  {
    hide Run, OnceEach, Ran, Numbered;
    StartsRight();
    RunInv(decode, EMPTY, ops);
  }

  /** OnceEach in plain words. */
  lemma {:induction false} NoSecondCall(calls: seq<Call>, asked: map<string, Callback>, i: nat, j: nat)
    requires OnceEach(calls, asked) && i < j < |calls|
    ensures calls[i].id != calls[j].id
    ensures calls[j].id in asked && asked[calls[j].id] == calls[j].cb
  {
    var front := calls[..|calls| - 1];
    if j < |calls| - 1 {
      NoSecondCall(front, asked, i, j);
    } else {
      RanHolds(front, i);
    }
  }

  lemma {:induction false} RanHolds(calls: seq<Call>, i: nat)
    requires i < |calls|
    ensures calls[i].id in Ran(calls)
  {
    if i < |calls| - 1 {
      RanHolds(calls[..|calls| - 1], i);
    }
  }

  lemma {:induction false} RanGrows(calls: seq<Call>, more: seq<Call>)
    requires calls <= more
    ensures Ran(calls) <= Ran(more)
  {
    if more != calls {
      RanGrows(calls, more[..|more| - 1]);
    }
  }

  /** A new request never takes an id that any earlier request has had. */
  lemma IdsAreNeverReused(decode: Bytes -> Option<Event>, ops: seq<Op>, later: seq<Op>)
    ensures var v := Run(decode, EMPTY, ops);
      var w := Run(decode, v, later);
      && Decimal(w.book.lastId + 1) !in w.book.asked
      && (forall id :: id in v.book.asked ==> id in w.book.asked && w.book.asked[id] == v.book.asked[id])
  {
    hide Step, Numbered, Decimal;
    StartsRight();
    RunInv(decode, EMPTY, ops);
    RunInv(decode, Run(decode, EMPTY, ops), later);
    FreshId(Run(decode, Run(decode, EMPTY, ops), later).book);
  }

  /** A request that stop gave up is never heard of again. */
  lemma AbandonedStaysSilent(decode: Bytes -> Option<Event>, v: View, later: seq<Op>, id: string, k: nat)
    requires Inv(v) && id in v.book.abandoned
    requires k < |Run(decode, v, later).book.calls|
    ensures Run(decode, v, later).book.calls[k].id != id
  {
    hide Step;
    RunInv(decode, v, later);
    RanHolds(Run(decode, v, later).book.calls, k);
  }

  /** Losing the link leaves every waiting caller an error on its way; a stop
      leaves none. */
  lemma CloseSettlesAll(v: View, id: string)
    requires Inv(v) && id in v.book.pending
    ensures id in Down(v).book.scheduled && Down(v).book.scheduled[id] == v.book.asked[id]
    ensures id in Act(v, Stop).book.abandoned && id !in Act(v, Stop).book.scheduled
    ensures Down(v).book.pending == map[] && Act(v, Stop).book.pending == map[]
  {
    hide Ran, OnceEach, Numbered;
  }
}
