/** Over whole runs of the frontend's state: the pruned de-duplication table
    behaves like one that never forgets, and it stays small. */
module FrontendDedup {
  import opened Basics
  import opened Model
  import opened FrontendState

  datatype Op =
    | Arrive(msg: Option<Message>)
    | RoomEvent(of: Option<string>, display: Option<string>, unread: int, lastTs: Option<int>)
    | HistoryReply(room: string, msgs: seq<Message>)
    | Shown(msg: Option<Message>)
    | Reset

  function Step(limit: nat, v: View, op: Op, pruning: bool): View {
    match op
    case Arrive(msg) => OnMessage(limit, v, msg, pruning)
    case RoomEvent(room, display, unread, lastTs) => OnRoom(v, room, display, unread, lastTs)
    case HistoryReply(room, msgs) => OnHistory(v, room, msgs, pruning)
    case Shown(msg) => MarkGlanced(v, msg)
    case Reset => EMPTY
  }

  function After(limit: nat, ops: seq<Op>, pruning: bool): View {
    if ops == [] then EMPTY
    else Step(limit, After(limit, ops[..|ops| - 1], pruning), ops[|ops| - 1], pruning)
  }

  // ---------- structure ----------

  ghost predicate Listing(v: View) {
    && Distinct(v.order)
    && (forall r :: r in v.order <==> r in v.rooms)
    && (forall r :: r in v.messages ==> r in v.rooms)
  }

  ghost predicate Remembered(v: View) {
    Held(v.messages) <= v.seen
  }

  /** The table holds the survivors of the last prune and what came since. */
  ghost predicate Bounded(v: View) {
    |v.seen| <= v.heldAtPrune + v.idCount
  }

  lemma {:induction false} WithoutIsShorter(order: seq<string>, id: string)
    requires Distinct(order)
    ensures Distinct(Without(order, id))
    ensures forall r :: r in Without(order, id) <==> r in order && r != id
  {
    if order != [] {
      var rest := order[1..];
      assert forall r :: r in order <==> r == order[0] || r in rest;
      if order[0] == id {
        assert forall i :: 0 <= i < |rest| ==> rest[i] == order[i + 1];
      } else {
        WithoutIsShorter(rest, id);
        var w := Without(rest, id);
        assert order[0] !in rest by {
          assert forall i :: 0 <= i < |rest| ==> rest[i] == order[i + 1];
        }
        assert Without(order, id) == [order[0]] + w;
      }
    }
  }

  lemma TouchKeepsListing(v: View, id: string, display: Option<string>, lastTs: Option<int>)
    requires Listing(v)
    ensures Listing(TouchRoom(v, id, display, lastTs)) && id in TouchRoom(v, id, display, lastTs).rooms
  {
  }

  lemma BumpKeepsListing(v: View, id: string)
    requires Listing(v) && id in v.rooms
    ensures Listing(Bump(v, id))
  {
    WithoutIsShorter(v.order, id);
  }

  lemma {:induction false} RememberAllKeeps(v: View, msgs: seq<Message>)
    ensures
      var v' := RememberAll(v, msgs);
      && v'.rooms == v.rooms && v'.order == v.order && v'.messages == v.messages && v'.heldAtPrune == v.heldAtPrune
      && v'.seen == v.seen + Events(msgs) && v'.glanced == v.glanced + Events(msgs)
      && v'.idCount == v.idCount + |msgs|
      && |v'.seen| <= |v.seen| + |msgs|
  {
    if msgs != [] {
      var front := msgs[..|msgs| - 1];
      RememberAllKeeps(v, front);
      EventsGrow(msgs, |msgs| - 1);
      assert msgs[..|msgs| - 1 + 1] == msgs;
    }
  }

  lemma HeldAfterAppend(messages: map<string, seq<Message>>, room: string, m: Message, limit: nat)
    ensures
      var old' := if room in messages then messages[room] else [];
      Held(messages[room := LastN(old' + [m], limit)]) <= Held(messages) + {m.event}
  {
    var before := if room in messages then messages[room] else [];
    var full := before + [m];
    var kept := LastN(full, limit);
    var after := messages[room := kept];
    forall e | e in Held(after) ensures e in Held(messages) + {m.event} {
      var r, i :| r in after && 0 <= i < |after[r]| && after[r][i].event == e;
      if r == room {
        assert kept[i] == full[i + |full| - |kept|];
        if i + |full| - |kept| < |before| {
          assert messages[room][i + |full| - |kept|].event == e;
        }
      } else {
        assert messages[r][i].event == e;
      }
    }
  }

  lemma HeldAfterReplace(messages: map<string, seq<Message>>, room: string, msgs: seq<Message>)
    ensures Held(messages[room := msgs]) <= Held(messages) + Events(msgs)
  {
    var after := messages[room := msgs];
    forall e | e in Held(after) ensures e in Held(messages) + Events(msgs) {
      var r, i :| r in after && 0 <= i < |after[r]| && after[r][i].event == e;
      if r != room {
        assert messages[r][i].event == e;
      }
    }
  }

  ghost predicate Inv(v: View) {
    Listing(v) && Remembered(v) && Bounded(v)
  }

  lemma PruneKeepsInv(v: View, pruning: bool)
    requires Inv(v)
    ensures Inv(MaybePrune(v, pruning))
    ensures pruning ==> MaybePrune(v, pruning).idCount <= ID_LIMIT
  {
  }

  lemma RecordedKeepsInv(limit: nat, v: View, m: Message)
    requires Inv(v)
    ensures Inv(Recorded(limit, v, m))
  {
    var v0 := Remember(v, m.event);
    assert Listing(v0);
    TouchKeepsListing(v0, m.room, None, Some(m.ts));
    BumpKeepsListing(TouchRoom(v0, m.room, None, Some(m.ts)), m.room);
    HeldAfterAppend(v.messages, m.room, m, limit);
  }

  lemma RoomKeepsInv(v: View, room: Option<string>, display: Option<string>, unread: int, lastTs: Option<int>)
    requires Inv(v)
    ensures Inv(OnRoom(v, room, display, unread, lastTs))
  {
    if room.Some? {
      TouchKeepsListing(v, room.value, display, lastTs);
      var v1 := TouchRoom(v, room.value, display, lastTs);
      assert OnRoom(v, room, display, unread, lastTs).rooms.Keys == v1.rooms.Keys;
    }
  }

  lemma ReplacedKeepsInv(v: View, room: string, msgs: seq<Message>)
    requires Inv(v)
    ensures Inv(Replaced(v, room, msgs))
  {
    TouchKeepsListing(v, room, None, None);
    RememberAllKeeps(TouchRoom(v, room, None, None), msgs);
    HeldAfterReplace(v.messages, room, msgs);
  }

  lemma StepInv(limit: nat, v: View, op: Op, pruning: bool)
    requires Inv(v)
    ensures Inv(Step(limit, v, op, pruning))
    ensures pruning && v.idCount <= ID_LIMIT ==> Step(limit, v, op, pruning).idCount <= ID_LIMIT
  {
    match op
    case Arrive(msg) =>
      if Accepts(v, msg) {
        RecordedKeepsInv(limit, v, msg.value);
        PruneKeepsInv(Recorded(limit, v, msg.value), pruning);
      }
    case RoomEvent(room, display, unread, lastTs) => RoomKeepsInv(v, room, display, unread, lastTs);
    case HistoryReply(room, msgs) =>
      ReplacedKeepsInv(v, room, msgs);
      PruneKeepsInv(Replaced(v, room, msgs), pruning);
    case Shown(msg) =>
    case Reset =>
  }

  /** Main result: between calls the room order lists every room once, every
      held event is still in the table, and the table never exceeds the events
      held at the last prune plus the limit. */
  lemma {:induction false} RunInv(limit: nat, ops: seq<Op>, pruning: bool)
    ensures Inv(After(limit, ops, pruning))
    ensures pruning ==> After(limit, ops, pruning).idCount <= ID_LIMIT
    ensures pruning ==> |After(limit, ops, pruning).seen| <= After(limit, ops, pruning).heldAtPrune + ID_LIMIT
  {
    if ops != [] {
      RunInv(limit, ops[..|ops| - 1], pruning);
      StepInv(limit, After(limit, ops[..|ops| - 1], pruning), ops[|ops| - 1], pruning);
    }
  }

  // ---------- refinement ----------

  /** The forgetful tables `s` against the full ones `b`. */
  ghost predicate Refines(s: View, b: View) {
    && s.rooms == b.rooms && s.order == b.order && s.messages == b.messages
    && Held(b.messages) <= s.seen && s.seen <= b.seen
    && s.glanced <= b.glanced && b.glanced <= b.seen
    && forall e :: e in Held(b.messages) && e in b.glanced ==> e in s.glanced
  }

  /** An event that has left every history does not arrive again, and only held
      messages are shown. */
  ghost predicate Fair(b: View, op: Op) {
    match op
    case Arrive(msg) => msg.Some? && msg.value.event in b.seen ==> msg.value.event in Held(b.messages)
    case Shown(msg) => msg.Some? ==> msg.value.event in Held(b.messages)
    case _ => true
  }

  ghost predicate FairRun(limit: nat, ops: seq<Op>) {
    forall k :: 0 <= k < |ops| ==> Fair(After(limit, ops[..k], false), ops[k])
  }

  lemma PruneRefines(s: View, b: View, pruning: bool)
    requires Refines(s, b)
    ensures Refines(MaybePrune(s, pruning), b)
  {
  }

  lemma RecordedRefines(limit: nat, s: View, b: View, m: Message)
    requires Refines(s, b) && m.event !in b.seen
    ensures Refines(Recorded(limit, s, m), Recorded(limit, b, m))
  {
    HeldAfterAppend(b.messages, m.room, m, limit);
    var s', b' := Recorded(limit, s, m), Recorded(limit, b, m);
    assert s'.rooms == b'.rooms && s'.order == b'.order && s'.messages == b'.messages;
    forall e | e in Held(b'.messages) && e in b'.glanced ensures e in s'.glanced {
      if e != m.event {
        assert e in Held(b.messages) && e in b.glanced;
      }
    }
  }

  lemma ReplacedRefines(s: View, b: View, room: string, msgs: seq<Message>)
    requires Refines(s, b)
    ensures Refines(Replaced(s, room, msgs), Replaced(b, room, msgs))
  {
    RememberAllKeeps(TouchRoom(s, room, None, None), msgs);
    RememberAllKeeps(TouchRoom(b, room, None, None), msgs);
    HeldAfterReplace(b.messages, room, msgs);
  }

  lemma StepRefines(limit: nat, s: View, b: View, op: Op)
    requires Refines(s, b) && Fair(b, op)
    ensures Refines(Step(limit, s, op, true), Step(limit, b, op, false))
  {
    match op
    case Arrive(msg) =>
      assert Accepts(s, msg) <==> Accepts(b, msg);
      if Accepts(b, msg) {
        RecordedRefines(limit, s, b, msg.value);
        PruneRefines(Recorded(limit, s, msg.value), Recorded(limit, b, msg.value), true);
      }
    case RoomEvent(room, display, unread, lastTs) =>
    case HistoryReply(room, msgs) =>
      ReplacedRefines(s, b, room, msgs);
      PruneRefines(Replaced(s, room, msgs), Replaced(b, room, msgs), true);
    case Shown(msg) =>
    case Reset =>
  }

  lemma {:induction false} RunRefines(limit: nat, ops: seq<Op>)
    requires FairRun(limit, ops)
    ensures Refines(After(limit, ops, true), After(limit, ops, false))
  {
    if ops != [] {
      var front := ops[..|ops| - 1];
      assert forall k :: 0 <= k < |front| ==> front[..k] == ops[..k];
      RunRefines(limit, front);
      StepRefines(limit, After(limit, front, true), After(limit, front, false), ops[|ops| - 1]);
    }
  }

  /** Main result: on every fair stream, pruning is invisible. The two hold the
      same histories in the same order, accept and reject alike, and offer the
      same messages to next_unglanced. */
  lemma PruningIsInvisible(limit: nat, ops: seq<Op>, next: Option<Message>)
    requires FairRun(limit, ops + [Arrive(next)])
    ensures
      var s, b := After(limit, ops, true), After(limit, ops, false);
      && (Accepts(s, next) <==> Accepts(b, next))
      && s.messages == b.messages && s.rooms == b.rooms && s.order == b.order
      && Candidates(s) == Candidates(b)
  {
    var all := ops + [Arrive(next)];
    assert forall k :: 0 <= k < |ops| ==> ops[..k] == all[..k] && ops[k] == all[k];
    assert all[..|ops|] == ops && all[|ops|] == Arrive(next);
    RunRefines(limit, ops);
    var s, b := After(limit, ops, true), After(limit, ops, false);
    forall r | r in b.messages && b.messages[r] != []
      ensures b.messages[r][|b.messages[r]| - 1].event in s.glanced
         <==> b.messages[r][|b.messages[r]| - 1].event in b.glanced
    {
      assert b.messages[r][|b.messages[r]| - 1].event in Held(b.messages);
    }
  }

  // ---------- what is forgotten ----------

  /** What the tables are told to remember by one operation, told with tables
      that never forget: which events, and how many calls of remember. */
  function Recording(b: View, op: Op): (set<string>, nat) {
    match op
    case Arrive(msg) => if Accepts(b, msg) then ({msg.value.event}, 1) else ({}, 0)
    case HistoryReply(_, msgs) => (Events(msgs), |msgs|)
    case _ => ({}, 0)
  }

  /** Calls of remember since the tables were last rebuilt. */
  function SincePrune(limit: nat, ops: seq<Op>): nat
    decreases |ops|, 0
  {
    if ops == [] then 0
    else
      var front, op := ops[..|ops| - 1], ops[|ops| - 1];
      var n := SincePrune(limit, front) + Recording(After(limit, front, false), op).1;
      if op.Reset? || PruneDue(limit, front, op) then 0 else n
  }

  predicate PruneDue(limit: nat, front: seq<Op>, op: Op)
    decreases |front|, 1
  {
    (op.HistoryReply? || (op.Arrive? && Accepts(After(limit, front, false), op.msg)))
    && SincePrune(limit, front) + Recording(After(limit, front, false), op).1 > ID_LIMIT
  }

  /** The events that had left every history when the tables were last rebuilt
      and that no history reply has brought back since. */
  function Forgotten(limit: nat, ops: seq<Op>): set<string> {
    if ops == [] then {}
    else
      var front, op := ops[..|ops| - 1], ops[|ops| - 1];
      var b := After(limit, ops, false);
      if op.Reset? then {}
      else if PruneDue(limit, front, op) then b.seen - Held(b.messages)
      else Forgotten(limit, front) - Recording(After(limit, front, false), op).0
  }

  lemma RecordedTables(limit: nat, v: View, m: Message)
    ensures Recorded(limit, v, m).seen == v.seen + {m.event} && Recorded(limit, v, m).idCount == v.idCount + 1
  {
  }

  lemma ReplacedTables(v: View, room: string, msgs: seq<Message>)
    ensures Replaced(v, room, msgs).seen == v.seen + Events(msgs)
    ensures Replaced(v, room, msgs).idCount == v.idCount + |msgs|
  {
    RememberAllKeeps(TouchRoom(v, room, None, None), msgs);
  }

  lemma OtherTables(limit: nat, v: View, op: Op, pruning: bool)
    requires !op.Arrive? && !op.HistoryReply? && !op.Reset?
    ensures Step(limit, v, op, pruning).seen == v.seen && Step(limit, v, op, pruning).idCount == v.idCount
  {
  }

  /** The pruned table is the full one without the forgotten events. */
  lemma {:induction false} SeenIsTheRest(limit: nat, ops: seq<Op>)
    requires FairRun(limit, ops)
    ensures
      var s, b := After(limit, ops, true), After(limit, ops, false);
      && Forgotten(limit, ops) <= b.seen && s.seen == b.seen - Forgotten(limit, ops)
      && s.idCount == SincePrune(limit, ops)
  {
    if ops != [] {
      var front, op := ops[..|ops| - 1], ops[|ops| - 1];
      assert forall k :: 0 <= k < |front| ==> front[..k] == ops[..k];
      SeenIsTheRest(limit, front);
      RunRefines(limit, front);
      RunRefines(limit, ops);
      var s, b := After(limit, front, true), After(limit, front, false);
      hide Recorded, Replaced, OnRoom, MarkGlanced, Held;
      match op
      case Arrive(msg) =>
        assert Accepts(s, msg) <==> Accepts(b, msg);
        if Accepts(b, msg) {
          RecordedTables(limit, s, msg.value);
          RecordedTables(limit, b, msg.value);
        }
      case HistoryReply(room, msgs) =>
        ReplacedTables(s, room, msgs);
        ReplacedTables(b, room, msgs);
      case Reset =>
      case _ =>
        OtherTables(limit, s, op, true);
        OtherTables(limit, b, op, false);
    }
  }

  /** The condition is needed, and exactly it: the next arrival is treated
      differently iff its event is one of the forgotten ones. */
  lemma DiffersIffForgotten(limit: nat, ops: seq<Op>, next: Option<Message>)
    requires FairRun(limit, ops)
    ensures
      var s, b := After(limit, ops, true), After(limit, ops, false);
      (Accepts(s, next) <==> Accepts(b, next)) <==> !(next.Some? && next.value.event in Forgotten(limit, ops))
  {
    hide After, Forgotten;
    SeenIsTheRest(limit, ops);
  }

  // ---------- a busy room ----------

  function Arrivals(ms: seq<Message>): (ops: seq<Op>)
    ensures |ops| == |ms| && forall i :: 0 <= i < |ms| ==> ops[i] == Arrive(Some(ms[i]))
  {
    seq(|ms|, i requires 0 <= i < |ms| => Arrive(Some(ms[i])))
  }

  /** New messages of one room. */
  predicate Fresh(ms: seq<Message>, room: string) {
    && (forall i :: 0 <= i < |ms| ==> ms[i].room == room)
    && (forall i, j :: 0 <= i < j < |ms| ==> ms[i].event != ms[j].event)
  }

  lemma ArrivalsFront(ms: seq<Message>)
    requires ms != []
    ensures Arrivals(ms)[..|ms| - 1] == Arrivals(ms[..|ms| - 1])
  {
  }

  lemma FreshNext(ms: seq<Message>, room: string)
    requires Fresh(ms, room) && ms != []
    ensures Fresh(ms[..|ms| - 1], room) && ms[|ms| - 1].event !in Events(ms[..|ms| - 1])
    ensures Events(ms) == Events(ms[..|ms| - 1]) + {ms[|ms| - 1].event}
  {
    EventsGrow(ms, |ms| - 1);
    assert ms[..|ms| - 1 + 1] == ms;
  }

  lemma LastOfLast(ms: seq<Message>, limit: nat)
    requires ms != []
    ensures LastN(LastN(ms[..|ms| - 1], limit) + [ms[|ms| - 1]], limit) == LastN(ms, limit)
  {
  }

  /** Tables that never forget, after new messages in one room. */
  lemma {:induction false} ArrivalsKept(limit: nat, room: string, ms: seq<Message>)
    requires Fresh(ms, room)
    ensures var b := After(limit, Arrivals(ms), false);
      b.seen == Events(ms) && b.messages == if ms == [] then map[] else map[room := LastN(ms, limit)]
  {
    if ms != [] {
      var front, m := ms[..|ms| - 1], ms[|ms| - 1];
      ArrivalsFront(ms);
      FreshNext(ms, room);
      ArrivalsKept(limit, room, front);
      OneMoreKept(limit, room, ms, After(limit, Arrivals(front), false));
    }
  }

  lemma OneMoreKept(limit: nat, room: string, ms: seq<Message>, b: View)
    requires ms != [] && Fresh(ms, room)
    requires var front := ms[..|ms| - 1];
      b.seen == Events(front) && b.messages == if front == [] then map[] else map[room := LastN(front, limit)]
    ensures var b' := OnMessage(limit, b, Some(ms[|ms| - 1]), false);
      b'.seen == Events(ms) && b'.messages == map[room := LastN(ms, limit)]
  {
    FreshNext(ms, room);
    LastOfLast(ms, limit);
    hide Events, Bump, TouchRoom, Fresh;
    assert LastN<Message>([], limit) == [];
  }

  lemma {:induction false} ArrivalsCounted(limit: nat, room: string, ms: seq<Message>)
    requires Fresh(ms, room) && |ms| <= ID_LIMIT
    ensures SincePrune(limit, Arrivals(ms)) == |ms|
  {
    if ms != [] {
      var front := ms[..|ms| - 1];
      ArrivalsFront(ms);
      FreshNext(ms, room);
      ArrivalsKept(limit, room, front);
      ArrivalsCounted(limit, room, front);
      hide Events, After;
    }
  }

  lemma ArrivalsAreFair(limit: nat, room: string, ms: seq<Message>)
    requires Fresh(ms, room)
    ensures FairRun(limit, Arrivals(ms))
  {
    forall k | 0 <= k < |ms|
      ensures Fair(After(limit, Arrivals(ms)[..k], false), Arrivals(ms)[k])
    {
      assert Arrivals(ms)[..k] == Arrivals(ms[..k]);
      ArrivalsKept(limit, room, ms[..k]);
      assert ms[..k + 1][..k] == ms[..k];
      FreshNext(ms[..k + 1], room);
    }
  }

  lemma HeldAlone(room: string, ms: seq<Message>)
    ensures Held(map[room := ms]) == Events(ms)
  {
    var messages := map[room := ms];
    forall k | 0 <= k < |ms|
      ensures ms[k].event in Held(messages)
    {
      assert room in messages && messages[room][k].event == ms[k].event;
    }
  }

  lemma OlderEvents(ms: seq<Message>, room: string, limit: nat)
    requires Fresh(ms, room) && limit <= |ms|
    ensures Events(ms) - Events(LastN(ms, limit)) == Events(ms[..|ms| - limit])
  {
    var n := |ms| - limit;
    forall e | e in Events(ms[..n])
      ensures e in Events(ms) && e !in Events(ms[n..])
    {
      var k :| 0 <= k < n && ms[..n][k].event == e;
      assert ms[k].event == e;
    }
    forall e | e in Events(ms) && e !in Events(ms[n..])
      ensures e in Events(ms[..n])
    {
      var k :| 0 <= k < |ms| && ms[k].event == e;
      assert k < n by {
        assert forall j :: n <= j < |ms| ==> ms[n..][j - n] == ms[j];
      }
      assert ms[..n][k].event == e;
    }
    assert LastN(ms, limit) == ms[n..];
  }

  /** 5001 new messages in a room forget all of them but those that its history
      has room for. */
  lemma ArrivalsForget(limit: nat, room: string, ms: seq<Message>)
    requires Fresh(ms, room) && |ms| == ID_LIMIT + 1 && limit <= |ms|
    ensures Forgotten(limit, Arrivals(ms)) == Events(ms[..|ms| - limit])
  {
    var front, ops := ms[..|ms| - 1], Arrivals(ms);
    ArrivalsFront(ms);
    FreshNext(ms, room);
    ArrivalsKept(limit, room, front);
    ArrivalsCounted(limit, room, front);
    ArrivalsKept(limit, room, ms);
    HeldAlone(room, LastN(ms, limit));
    OlderEvents(ms, room, limit);
    hide After, Held, Events, LastN, SincePrune;
    assert PruneDue(limit, Arrivals(front), ops[|ops| - 1]);
  }

  /** Messages with the event ids "x", "xx" and so on. */
  function Many(m: Message, n: nat): (ms: seq<Message>)
    ensures |ms| == n && forall i :: 0 <= i < n ==> |ms[i].event| == i + 1 && ms[i].room == m.room
  {
    seq(n, i requires 0 <= i < n => m.(event := seq(i + 1, _ => 'x')))
  }

  /** It does happen, however long the history within the limit: after 5001
      messages in a room a replay of the first one is taken for new. */
  lemma ForgottenReplayAccepted(limit: nat, m: Message)
    requires limit <= ID_LIMIT
    ensures var ms := Many(m, ID_LIMIT + 1);
      var ops := Arrivals(ms);
      && FairRun(limit, ops)
      && Accepts(After(limit, ops, true), Some(ms[0])) && !Accepts(After(limit, ops, false), Some(ms[0]))
  {
    hide After, Forgotten, FairRun, Many;
    var ms := Many(m, ID_LIMIT + 1);
    assert Fresh(ms, m.room) by {
      forall i, j | 0 <= i < j < |ms|
        ensures ms[i].event != ms[j].event
      {
        assert |ms[i].event| < |ms[j].event|;
      }
    }
    ArrivalsAreFair(limit, m.room, ms);
    ArrivalsForget(limit, m.room, ms);
    ArrivalsKept(limit, m.room, ms);
    SeenIsTheRest(limit, Arrivals(ms));
    assert ms[..|ms| - limit][0] == ms[0];
    assert ms[0].event in Events(ms[..|ms| - limit]) && ms[0].event in Events(ms);
  }
}
