/** What a session keeps over every sequence of transport events and read marks,
    told in terms of those events alone. */
module SessionRuns {
  import opened Basics
  import opened Model
  import opened Transport
  import opened Session
  import Mem = MemoryStore
  import Utf8
  import Sanitize
  import SanitizeLaws

  datatype Op = Handle(ev: Event) | Mark(room: string, event: string, delivered: bool)

  /** The configuration of a run and the rooms listed at its start. */
  datatype Setup = Setup(capacity: nat, o: Options, listed: seq<Room>)

  function Step(u: Setup, v: View, op: Op): View {
    match op
    case Handle(ev) => Handled(u.capacity, u.o, v, ev)
    case Mark(room, event, delivered) => Marked(v, room, event, delivered)
  }

  function After(u: Setup, ops: seq<Op>): View {
    if ops == [] then Seeded(u.o, EMPTY, u.listed) else Step(u, After(u, ops[..|ops| - 1]), ops[|ops| - 1])
  }

  // ---------- the events, read on their own ----------

  /** A name offered for a room, and the timestamp it came with, if any. */
  datatype Mention = Mention(room: string, name: string, ts: Option<int>)

  function ListedMentions(o: Options, listed: seq<Room>): seq<Mention> {
    if listed == [] then []
    else
      var last := listed[|listed| - 1];
      ListedMentions(o, listed[..|listed| - 1]) + [Mention(last.room, Alias(o, last.display), None)]
  }

  function OpMentions(o: Options, op: Op): seq<Mention> {
    if op.Handle? && op.ev.MessageEvent? then [Mention(op.ev.m.room, Alias(o, op.ev.m.sender), Some(op.ev.m.ts))] else []
  }

  /** Every mention of a room, in order. */
  function Mentions(u: Setup, ops: seq<Op>): seq<Mention> {
    if ops == [] then ListedMentions(u.o, u.listed)
    else Mentions(u, ops[..|ops| - 1]) + OpMentions(u.o, ops[|ops| - 1])
  }

  predicate Mentioned(ms: seq<Mention>, room: string) {
    exists i :: 0 <= i < |ms| && ms[i].room == room
  }

  /** The rooms in the order of their first mention. */
  function FirstMentions(ms: seq<Mention>): seq<string> {
    if ms == [] then []
    else
      var before, last := ms[..|ms| - 1], ms[|ms| - 1];
      FirstMentions(before) + if Mentioned(before, last.room) then [] else [last.room]
  }

  /** The first non-empty name offered for the room; empty if there is none. */
  function FirstName(ms: seq<Mention>, room: string): string {
    if ms == [] then ""
    else
      var before, last := FirstName(ms[..|ms| - 1], room), ms[|ms| - 1];
      if before == "" && last.room == room then last.name else before
  }

  /** The largest timestamp the room came with, and at least 0. */
  function MaxTs(ms: seq<Mention>, room: string): int {
    if ms == [] then 0
    else
      var before, last := MaxTs(ms[..|ms| - 1], room), ms[|ms| - 1];
      if last.room == room && last.ts.Some? then MaxInt(before, last.ts.value) else before
  }

  function LastConnected(ops: seq<Op>): bool {
    if ops == [] then false
    else
      var last := ops[|ops| - 1];
      if last.Handle? && last.ev.ConnectedEvent? then last.ev.connected else LastConnected(ops[..|ops| - 1])
  }

  // ---------- rooms, names and timestamps ----------

  ghost predicate Reflects(v: View, ms: seq<Mention>) {
    && v.order == FirstMentions(ms)
    && (forall r :: r in v.rooms <==> Mentioned(ms, r))
    && (forall r :: r in v.rooms ==> v.rooms[r] == RoomState(FirstName(ms, r), MaxTs(ms, r)))
  }

  lemma {:induction false} Unmentioned(ms: seq<Mention>, room: string)
    requires !Mentioned(ms, room)
    ensures FirstName(ms, room) == "" && MaxTs(ms, room) == 0
  {
    if ms != [] {
      var before := ms[..|ms| - 1];
      assert ms[|ms| - 1].room != room;
      assert forall i :: 0 <= i < |before| ==> ms[i] == before[i];
      Unmentioned(before, room);
    }
  }

  lemma {:induction false} MaxTsNotNegative(ms: seq<Mention>, room: string)
    ensures MaxTs(ms, room) >= 0
  {
    if ms != [] {
      MaxTsNotNegative(ms[..|ms| - 1], room);
    }
  }

  lemma MentionedSnoc(ms: seq<Mention>, m: Mention, room: string)
    ensures Mentioned(ms + [m], room) <==> Mentioned(ms, room) || room == m.room
    ensures FirstName(ms + [m], room) ==
      if FirstName(ms, room) == "" && m.room == room then m.name else FirstName(ms, room)
    ensures MaxTs(ms + [m], room) ==
      if m.room == room && m.ts.Some? then MaxInt(MaxTs(ms, room), m.ts.value) else MaxTs(ms, room)
    ensures FirstMentions(ms + [m]) == FirstMentions(ms) + if Mentioned(ms, m.room) then [] else [m.room]
  {
    var all := ms + [m];
    assert all[..|all| - 1] == ms && all[|ms|] == m;
    assert forall i :: 0 <= i < |ms| ==> all[i] == ms[i];
  }

  /** What a mention does to the rooms. */
  function Noted(v: View, m: Mention): View {
    var v1 := EnsureRoom(v, m.room, m.name);
    if m.ts.Some? then RaiseTs(v1, m.room, m.ts.value) else v1
  }

  lemma NotedReflects(v: View, ms: seq<Mention>, m: Mention)
    requires Reflects(v, ms)
    ensures Reflects(Noted(v, m), ms + [m])
  {
    hide FirstName, MaxTs, FirstMentions, Mentioned;
    var v' := Noted(v, m);
    MentionedSnoc(ms, m, m.room);
    if m.room !in v.rooms {
      Unmentioned(ms, m.room);
    }
    MaxTsNotNegative(ms, m.room);
    forall r
      ensures r in v'.rooms <==> Mentioned(ms + [m], r)
      ensures r in v'.rooms ==> v'.rooms[r] == RoomState(FirstName(ms + [m], r), MaxTs(ms + [m], r))
    {
      MentionedSnoc(ms, m, r);
    }
  }

  lemma SameRooms(v: View, w: View, ms: seq<Mention>)
    requires Reflects(v, ms) && w.rooms == v.rooms && w.order == v.order
    ensures Reflects(w, ms)
  {
  }

  lemma {:induction false} SeededReflects(o: Options, listed: seq<Room>)
    ensures Reflects(Seeded(o, EMPTY, listed), ListedMentions(o, listed))
  {
    hide Alias;
    if listed != [] {
      var before, last := listed[..|listed| - 1], listed[|listed| - 1];
      SeededReflects(o, before);
      NotedReflects(Seeded(o, EMPTY, before), ListedMentions(o, before), Mention(last.room, Alias(o, last.display), None));
    }
  }

  lemma NormalisedFields(o: Options, m: Message)
    ensures var n := Normalised(o, m);
      && n.room == m.room && n.event == m.event && n.own == m.own && n.ts == m.ts && n.sender == m.sender
      && n.display == Alias(o, m.sender)
  {
  }

  lemma IngestedReflects(u: Setup, v: View, ms: seq<Mention>, m: Message)
    requires Reflects(v, ms)
    ensures Reflects(Ingested(u.capacity, u.o, v, m), ms + [Mention(m.room, Alias(u.o, m.sender), Some(m.ts))])
  {
    hide Alias, Normalised, Reflects, Mem.Append, Mem.SetMarker, Mem.Unread;
    var n, mention := Normalised(u.o, m), Mention(m.room, Alias(u.o, m.sender), Some(m.ts));
    NormalisedFields(u.o, m);
    var v1 := v.(store := Mem.Append(u.capacity, v.store, n));
    SameRooms(v, v1, ms);
    NotedReflects(v1, ms, mention);
    SameRooms(Noted(v1, mention), Ingested(u.capacity, u.o, v, m), ms + [mention]);
  }

  lemma StepReflects(u: Setup, v: View, ms: seq<Mention>, op: Op)
    requires Reflects(v, ms)
    ensures Reflects(Step(u, v, op), ms + OpMentions(u.o, op))
  {
    hide Alias, Ingested, Reflects, Mem.SetMarker, Mem.Unread;
    if op.Handle? && op.ev.MessageEvent? {
      IngestedReflects(u, v, ms, op.ev.m);
    } else {
      assert ms + OpMentions(u.o, op) == ms;
      SameRooms(v, Step(u, v, op), ms);
    }
  }

  /** In every run the room list is the rooms in order of first mention, each
      room's display is the first non-empty name it was offered, and its last
      timestamp the largest it came with. */
  lemma {:induction false} RunReflects(u: Setup, ops: seq<Op>)
    ensures Reflects(After(u, ops), Mentions(u, ops))
    ensures After(u, ops).connected == LastConnected(ops)
  {
    hide Reflects, OpMentions, ListedMentions, Ingested;
    if ops == [] {
      SeededReflects(u.o, u.listed);
      SeededConnected(u.o, u.listed);
    } else {
      RunReflects(u, ops[..|ops| - 1]);
      StepReflects(u, After(u, ops[..|ops| - 1]), Mentions(u, ops[..|ops| - 1]), ops[|ops| - 1]);
      StepConnected(u, After(u, ops[..|ops| - 1]), ops[|ops| - 1]);
    }
  }

  lemma {:induction false} SeededConnected(o: Options, listed: seq<Room>)
    ensures !Seeded(o, EMPTY, listed).connected && Seeded(o, EMPTY, listed).store == map[]
    ensures Seeded(o, EMPTY, listed).sent == []
  {
    if listed != [] {
      SeededConnected(o, listed[..|listed| - 1]);
    }
  }

  lemma StepConnected(u: Setup, v: View, op: Op)
    ensures Step(u, v, op).connected ==
      if op.Handle? && op.ev.ConnectedEvent? then op.ev.connected else v.connected
  {
    hide Normalised;
  }

  lemma {:induction false} FirstMentionsListRooms(ms: seq<Mention>)
    ensures forall r :: r in FirstMentions(ms) <==> Mentioned(ms, r)
    ensures forall i, j :: 0 <= i < j < |FirstMentions(ms)| ==> FirstMentions(ms)[i] != FirstMentions(ms)[j]
  {
    hide FirstName, MaxTs;
    if ms != [] {
      var before, last := ms[..|ms| - 1], ms[|ms| - 1];
      assert ms == before + [last];
      FirstMentionsListRooms(before);
      forall r
        ensures r in FirstMentions(ms) <==> Mentioned(ms, r)
      {
        MentionedSnoc(before, last, r);
      }
    }
  }

  /** The room list names every known room exactly once. */
  lemma OrderListsRooms(u: Setup, ops: seq<Op>)
    ensures var v := After(u, ops);
      && (forall r :: r in v.order <==> r in v.rooms)
      && (forall i, j :: 0 <= i < j < |v.order| ==> v.order[i] != v.order[j])
  {
    hide After, Mentions, FirstMentions, Mentioned, FirstName, MaxTs;
    RunReflects(u, ops);
    FirstMentionsListRooms(Mentions(u, ops));
  }

  // ---------- broadcasts and the store ----------

  /** The last room event the frontends got for a room. */
  function LastSent(sent: seq<Broadcast>, room: string): Option<Room> {
    if sent == [] then None
    else
      var last := sent[|sent| - 1];
      if last.RoomSent? && last.room.room == room then Some(last.room) else LastSent(sent[..|sent| - 1], room)
  }

  /** What the frontends were last told about a room is what the session holds. */
  predicate InSync(v: View, room: string) {
    LastSent(v.sent, room).Some? ==> LastSent(v.sent, room) == RoomView(v, room)
  }

  lemma LastSentSnoc(sent: seq<Broadcast>, b: Broadcast, room: string)
    ensures LastSent(sent + [b], room) ==
      if b.RoomSent? && b.room.room == room then Some(b.room) else LastSent(sent, room)
  {
    assert (sent + [b])[..|sent|] == sent;
  }

  lemma SendRoomSyncs(v: View, room: string, q: string)
    requires q != room ==> InSync(v, q)
    requires room !in v.rooms ==> InSync(v, room)
    ensures InSync(SendRoom(v, room), q)
  {
    hide Mem.Unread, LastSent;
    if room in v.rooms {
      LastSentSnoc(v.sent, RoomSent(RoomView(v, room).value), q);
    }
  }

  /** The store keeps the rooms apart. */
  lemma OtherRoomKept(capacity: nat, v: Mem.View, m: Message, room: string)
    requires room != m.room
    ensures Mem.Unread(Mem.Append(capacity, v, m), room) == Mem.Unread(v, room)
    ensures Mem.Unread(Mem.SetMarker(v, m.room, m.event), room) == Mem.Unread(v, room)
  {
  }

  lemma RecordedOthers(capacity: nat, v: View, m: Message, q: string)
    requires InSync(v, q) && q != m.room
    ensures InSync(Recorded(capacity, v, m), q)
    ensures m.room in Recorded(capacity, v, m).rooms
  {
    hide Mem.Append, Mem.SetMarker, Mem.Unread, LastSent;
    OtherRoomKept(capacity, v.store, m, q);
    OtherRoomKept(capacity, Mem.Append(capacity, v.store, m), m, q);
  }

  lemma IngestedSync(u: Setup, v: View, m: Message, q: string)
    requires InSync(v, q)
    ensures InSync(Ingested(u.capacity, u.o, v, m), q)
  {
    hide Normalised, Recorded, RoomView, SendRoom, LastSent;
    var n := Normalised(u.o, m);
    var v1 := Recorded(u.capacity, v, n);
    var v2 := v1.(sent := v1.sent + [MessageSent(n)]);
    LastSentSnoc(v1.sent, MessageSent(n), q);
    RoomKnown(u.capacity, v, n);
    ViewIgnoresSent(v1, v2, q);
    if q != n.room {
      RecordedOthers(u.capacity, v, n, q);
    }
    SendRoomSyncs(v2, n.room, q);
  }

  lemma RoomKnown(capacity: nat, v: View, m: Message)
    ensures m.room in Recorded(capacity, v, m).rooms
  {
    hide Mem.Append, Mem.SetMarker;
  }

  lemma ViewIgnoresSent(v: View, w: View, room: string)
    requires w == v.(sent := w.sent)
    ensures RoomView(w, room) == RoomView(v, room)
  {
    hide Mem.Unread;
  }

  lemma MarkedSync(v: View, room: string, event: string, q: string)
    requires InSync(v, q)
    requires room !in v.rooms ==> LastSent(v.sent, room).None?
    ensures InSync(Marked(v, room, event, true), q)
  {
    hide Mem.SetMarker, Mem.Unread, LastSent;
    var v1 := v.(store := Mem.SetMarker(v.store, room, event));
    if q != room {
      OtherRoomKept(0, v.store, Model.Message(room, event, "", "", [], 0, true, ""), q);
    }
    SendRoomSyncs(v1, room, q);
  }

  ghost predicate SentKnown(v: View) {
    forall r :: LastSent(v.sent, r).Some? ==> r in v.rooms
  }

  lemma StepSentKnown(u: Setup, v: View, op: Op)
    requires SentKnown(v)
    ensures SentKnown(Step(u, v, op))
  {
    hide Normalised, Mem.Append, Mem.SetMarker, Mem.Unread, LastSent;
    var v' := Step(u, v, op);
    forall r | LastSent(v'.sent, r).Some?
      ensures r in v'.rooms
    {
      if op.Handle? && op.ev.MessageEvent? {
        var n := Normalised(u.o, op.ev.m);
        RoomKnown(u.capacity, v, n);
        LastSentSnoc(v.sent, MessageSent(n), r);
        LastSentSnoc(v.sent + [MessageSent(n)], v'.sent[|v'.sent| - 1], r);
      } else if op.Mark? && op.delivered && op.room in v.rooms {
        LastSentSnoc(v.sent, v'.sent[|v'.sent| - 1], r);
      }
    }
  }

  lemma StepSync(u: Setup, v: View, op: Op, q: string)
    requires SentKnown(v) && InSync(v, q) && (op.Mark? ==> op.delivered)
    ensures InSync(Step(u, v, op), q)
  {
    hide Ingested, Marked;
    if op.Mark? {
      MarkedSync(v, op.room, op.event, q);
    } else if op.ev.MessageEvent? {
      IngestedSync(u, v, op.ev.m, q);
    }
  }

  lemma {:induction false} SentKnownAlways(u: Setup, ops: seq<Op>)
    ensures SentKnown(After(u, ops))
  {
    hide Step, Seeded, SentKnown;
    if ops == [] {
      SeededConnected(u.o, u.listed);
      NothingSent(After(u, ops));
    } else {
      SentKnownAlways(u, ops[..|ops| - 1]);
      StepSentKnown(u, After(u, ops[..|ops| - 1]), ops[|ops| - 1]);
    }
  }

  lemma NothingSent(v: View)
    requires v.sent == []
    ensures SentKnown(v)
  {
  }

  /** As long as the transport accepts every read mark, the room event broadcast
      last carries the room's display, last timestamp and the store's unread count. */
  lemma {:induction false} RunInSync(u: Setup, ops: seq<Op>, room: string)
    requires forall k :: 0 <= k < |ops| && ops[k].Mark? ==> ops[k].delivered
    ensures InSync(After(u, ops), room)
  {
    hide Step, Seeded, RoomView;
    if ops == [] {
      SeededConnected(u.o, u.listed);
    } else {
      RunInSync(u, ops[..|ops| - 1], room);
      SentKnownAlways(u, ops[..|ops| - 1]);
      StepSync(u, After(u, ops[..|ops| - 1]), ops[|ops| - 1], room);
    }
  }

  /** The marker an event id leads to; an empty one means the newest message. */
  function MarkedEvent(log: Mem.Log, event: string): string {
    if event != "" then event
    else if log.messages != [] then log.messages[|log.messages| - 1].event
    else log.marker
  }

  lemma {:induction false} AllOwnIff(ms: seq<Message>)
    ensures CountOther(ms) == 0 <==> forall k :: 0 <= k < |ms| ==> ms[k].own
  {
    if ms != [] {
      AllOwnIff(ms[..|ms| - 1]);
    }
  }

  /** Counting from two places gives the same exactly when the messages between
      them are all the user's own. */
  lemma SameCountIff(ms: seq<Message>, a: nat, b: nat)
    requires a <= b <= |ms|
    ensures CountOther(ms[a..]) == CountOther(ms[b..]) <==> forall k :: a <= k < b ==> ms[k].own
  {
    hide CountOther;
    assert ms[a..] == ms[a..b] + ms[b..];
    CountOtherConcat(ms[a..b], ms[b..]);
    AllOwnIff(ms[a..b]);
    if forall k :: 0 <= k < b - a ==> ms[a..b][k].own {
      assert forall k :: a <= k < b ==> ms[k] == ms[a..b][k - a];
    }
  }

  /** A read mark the transport refuses has already moved the store's marker and
      is not broadcast. The frontends stay right about the room exactly when every
      message between the old reading position and the new one, in whichever
      direction it moved, is the user's own. */
  lemma RefusedMarkSyncIff(v: View, room: string, event: string)
    requires InSync(v, room) && LastSent(v.sent, room).Some?
    ensures var log := Mem.LogAt(v.store, room);
      var before, after := Mem.UnreadStart(log), Mem.UnreadStart(log.(marker := MarkedEvent(log, event)));
      InSync(Marked(v, room, event, false), room) <==>
      forall k :: MinInt(before, after) <= k < MaxInt(before, after) ==> log.messages[k].own
  {
    hide LastSent, Mem.UnreadStart, CountOther;
    var log := Mem.LogAt(v.store, room);
    var before, after := Mem.UnreadStart(log), Mem.UnreadStart(log.(marker := MarkedEvent(log, event)));
    SameCountIff(log.messages, MinInt(before, after), MaxInt(before, after));
  }

  /** It does happen: the frontend is told one message is unread, marks it read,
      the transport refuses, and the frontend is not told otherwise. */
  lemma RefusedMarkMisleads(o: Options, m: Message)
    requires !m.own && m.event != ""
    ensures var v := After(Setup(1, o, []), [Handle(MessageEvent(m)), Mark(m.room, m.event, false)]);
      && LastSent(v.sent, m.room).Some? && LastSent(v.sent, m.room).value.unread == 1
      && Mem.Unread(v.store, m.room) == 0
  {
    hide Normalised, After;
    var u, n := Setup(1, o, []), Normalised(o, m);
    NormalisedFields(o, m);
    AfterTwo(u, Handle(MessageEvent(m)), Mark(m.room, m.event, false));
    var v1 := Ingested(1, o, Seeded(o, EMPTY, []), m);
    FirstMessage(EMPTY, n);
    assert v1 == Published(Recorded(1, EMPTY, n), n);
    SingleUnread(v1.store, n);
  }

  lemma AfterTwo(u: Setup, a: Op, b: Op)
    ensures After(u, [a, b]) == Step(u, Step(u, Seeded(u.o, EMPTY, u.listed), a), b)
  {
    hide Step, Seeded;
    assert [a, b][..1] == [a] && [a][..0] == [];
    assert After(u, [a]) == Step(u, After(u, []), a);
  }

  lemma FirstMessage(v: View, n: Message)
    requires v == EMPTY && !n.own
    ensures var w := Published(Recorded(1, v, n), n);
      && w.store == map[n.room := Mem.Log([n], "")]
      && LastSent(w.sent, n.room) == Some(Room(n.room, n.display, 1, MaxInt(0, n.ts)))
  {
    var r := Recorded(1, v, n);
    assert [] + [n] == [n];
    assert r.store == map[n.room := Mem.Log([n], "")];
    assert [n][0..] == [n] && [n][..0] == [];
    assert CountOther([n]) == 1;
    LastSentSnoc(r.sent + [MessageSent(n)], RoomSent(RoomView(r, n.room).value), n.room);
  }

  lemma SingleUnread(store: Mem.View, n: Message)
    requires store == map[n.room := Mem.Log([n], "")] && n.event != ""
    ensures Mem.Unread(Mem.SetMarker(store, n.room, n.event), n.room) == 0
  {
    assert Mem.IndexOf([n], n.event) == 0;
    assert [n][1..] == [];
  }

  // ---------- own messages ----------

  lemma OwnStore(u: Setup, v: View, m: Message)
    requires m.own
    ensures var n := Normalised(u.o, m);
      Ingested(u.capacity, u.o, v, m).store == Mem.SetMarker(Mem.Append(u.capacity, v.store, n), m.room, m.event)
  {
    hide Normalised, Mem.Append, Mem.SetMarker, Mem.Unread;
    NormalisedFields(u.o, m);
  }

  lemma AppendHolds(capacity: nat, v: Mem.View, n: Message)
    requires 0 < capacity
    ensures var ms := Mem.LogAt(Mem.Append(capacity, v, n), n.room).messages;
      Mem.IndexOf(ms, n.event) < |ms|
  {
    var ms := Mem.LogAt(Mem.Append(capacity, v, n), n.room).messages;
    if !HasEvent(Mem.LogAt(v, n.room).messages, n.event) {
      assert ms[|ms| - 1] == n;
    }
  }

  lemma MarkerUnread(v: Mem.View, room: string, event: string)
    requires event != ""
    requires var ms := Mem.LogAt(v, room).messages; Mem.IndexOf(ms, event) < |ms|
    ensures var w := Mem.SetMarker(v, room, event);
      var ms := Mem.LogAt(v, room).messages;
      && Mem.LogAt(w, room).messages == ms
      && Mem.Unread(w, room) == CountOther(ms[Mem.IndexOf(ms, event) + 1..])
  {
    hide CountOther, Mem.IndexOf;
  }

  /** Right after a named message of the user's own, the unread messages are the
      others' messages after the stored one of that id. */
  lemma AfterOwnMessage(u: Setup, v: View, m: Message)
    requires m.own && m.event != "" && 0 < u.capacity
    ensures var w := Ingested(u.capacity, u.o, v, m);
      var ms := Mem.LogAt(w.store, m.room).messages;
      && ms == Mem.LogAt(Mem.Append(u.capacity, v.store, Normalised(u.o, m)), m.room).messages
      && Mem.IndexOf(ms, m.event) < |ms|
      && Mem.Unread(w.store, m.room) == CountOther(ms[Mem.IndexOf(ms, m.event) + 1..])
  {
    hide Normalised, CountOther, Ingested, Mem.Append, Mem.SetMarker, Mem.Unread;
    var n := Normalised(u.o, m);
    NormalisedFields(u.o, m);
    OwnStore(u, v, m);
    AppendHolds(u.capacity, v.store, n);
    MarkerUnread(Mem.Append(u.capacity, v.store, n), m.room, m.event);
  }

  /** Nothing is unread after it exactly when the message is fresh, or no message
      of anybody else follows the copy that is already held: a replay moves the
      marker back to where that copy stands. */
  lemma OwnMessageReadsAllIff(u: Setup, v: View, m: Message)
    requires m.own && m.event != "" && 0 < u.capacity
    ensures var held := Mem.LogAt(v.store, m.room).messages;
      Mem.Unread(Ingested(u.capacity, u.o, v, m).store, m.room) == 0 <==>
      forall k :: Mem.IndexOf(held, m.event) < k < |held| ==> held[k].own
  {
    hide Normalised, CountOther, Ingested, Mem.Unread;
    var n := Normalised(u.o, m);
    NormalisedFields(u.o, m);
    AfterOwnMessage(u, v, m);
    var held := Mem.LogAt(v.store, m.room).messages;
    var ms := Mem.LogAt(Ingested(u.capacity, u.o, v, m).store, m.room).messages;
    var i := Mem.IndexOf(ms, m.event);
    NobodyUnread();
    if HasEvent(held, m.event) {
      assert ms == held;
      AllOwnIff(ms[i + 1..]);
      assert forall k :: i < k < |ms| ==> ms[i + 1..][k - i - 1] == ms[k];
    } else {
      assert ms == LastN(held + [n], u.capacity);
      OnlyLastHas(held, n, u.capacity);
      assert ms[|ms|..] == [];
      assert Mem.IndexOf(held, m.event) == |held|;
    }
  }

  /** In particular a fresh one leaves nothing unread. */
  lemma FreshOwnMessageReadsAll(u: Setup, v: View, m: Message)
    requires m.own && m.event != "" && 0 < u.capacity
    requires !HasEvent(Mem.LogAt(v.store, m.room).messages, m.event)
    ensures Mem.Unread(Ingested(u.capacity, u.o, v, m).store, m.room) == 0
  {
    hide Normalised, CountOther, Ingested, Mem.Unread;
    OwnMessageReadsAllIff(u, v, m);
  }

  lemma StoreAfter(u: Setup, v: View, m: Message)
    ensures var n := Normalised(u.o, m);
      var held := Mem.Append(u.capacity, v.store, n);
      && n.room == m.room && n.event == m.event && n.own == m.own
      && Ingested(u.capacity, u.o, v, m).store == if m.own then Mem.SetMarker(held, m.room, m.event) else held
  {
    hide Normalised, Mem.Append, Mem.SetMarker, Mem.Unread;
    NormalisedFields(u.o, m);
  }

  /** The stores of the run below: the user's own message, somebody's answer,
      the answer marked read, and the first message replayed. */
  lemma ReplayStores(a: Message, b: Message)
    requires a.room == b.room && a.own && !b.own && a.event != b.event && a.event != "" && b.event != ""
    ensures var s1 := Mem.SetMarker(Mem.Append(2, map[], a), a.room, a.event);
      var s3 := Mem.SetMarker(Mem.Append(2, s1, b), b.room, b.event);
      var s4 := Mem.SetMarker(Mem.Append(2, s3, a), a.room, a.event);
      && Mem.Unread(s3, a.room) == 0 && Mem.Unread(s4, a.room) == 1
      && s3[a.room].marker == b.event && s4[a.room].marker == a.event
  {
    hide Mem.Unread;
    assert [] + [a] == [a] && [a] + [b] == [a, b];
    var s1 := Mem.SetMarker(Mem.Append(2, map[], a), a.room, a.event);
    assert s1 == map[a.room := Mem.Log([a], a.event)];
    var s3 := Mem.SetMarker(Mem.Append(2, s1, b), b.room, b.event);
    assert s3 == map[a.room := Mem.Log([a, b], b.event)];
    assert [a, b][0].event == a.event;
    var s4 := Mem.SetMarker(Mem.Append(2, s3, a), a.room, a.event);
    assert s4 == map[a.room := Mem.Log([a, b], a.event)];
    BothMarks(a, b);
  }

  lemma BothMarks(a: Message, b: Message)
    requires a.room == b.room && a.own && !b.own && a.event != b.event && a.event != "" && b.event != ""
    ensures Mem.Unread(map[a.room := Mem.Log([a, b], b.event)], a.room) == 0
    ensures Mem.Unread(map[a.room := Mem.Log([a, b], a.event)], a.room) == 1
  {
    assert [a, b][1..] == [b] && [a, b][2..] == [] && [b][..0] == [];
    assert Mem.IndexOf([a, b], a.event) == 0 && Mem.IndexOf([b], b.event) == 0 && Mem.IndexOf([a, b], b.event) == 1;
  }

  /** It does happen: everything is read, then the transport replays an own
      message, and the answer that came after it counts as unread again. */
  lemma ReplayRewinds(o: Options, a: Message, b: Message)
    requires a.room == b.room && a.own && !b.own && a.event != b.event && a.event != "" && b.event != ""
    ensures var u := Setup(2, o, []);
      var ops := [Handle(MessageEvent(a)), Handle(MessageEvent(b)), Mark(b.room, b.event, true)];
      var v, w := After(u, ops), After(u, ops + [Handle(MessageEvent(a))]);
      && Mem.Unread(v.store, a.room) == 0 && v.store[a.room].marker == b.event
      && Mem.Unread(w.store, a.room) == 1 && w.store[a.room].marker == a.event
  {
    hide Normalised, Ingested, After, Mem.Append, Mem.SetMarker, Mem.Unread, Seeded;
    var u := Setup(2, o, []);
    var x, y, z := Handle(MessageEvent(a)), Handle(MessageEvent(b)), Mark(b.room, b.event, true);
    var v0 := Seeded(o, EMPTY, []);
    SeededConnected(o, []);
    AfterTwo(u, x, y);
    AfterSnoc(u, [x, y], z);
    AfterSnoc(u, [x, y] + [z], x);
    assert [x, y] + [z] == [x, y, z];
    StoreAfter(u, v0, a);
    var v1 := Ingested(2, o, v0, a);
    StoreAfter(u, v1, b);
    var v3 := Marked(Ingested(2, o, v1, b), b.room, b.event, true);
    StoreAfter(u, v3, a);
    ReplayStores(Normalised(o, a), Normalised(o, b));
  }

  lemma AfterSnoc(u: Setup, ops: seq<Op>, op: Op)
    ensures After(u, ops + [op]) == Step(u, After(u, ops), op)
  {
    hide Step, Seeded;
    assert (ops + [op])[..|ops|] == ops;
  }

  lemma NobodyUnread()
    ensures CountOther([]) == 0
  {
  }

  lemma OnlyLastHas(held: seq<Message>, n: Message, capacity: nat)
    requires 0 < capacity && !HasEvent(held, n.event)
    ensures var ms := LastN(held + [n], capacity);
      Mem.IndexOf(ms, n.event) == |ms| - 1
  {
    var ms := LastN(held + [n], capacity);
    var k := Mem.IndexOf(ms, n.event);
    assert ms[|ms| - 1] == n;
    var cut := |held| + 1 - |ms|;
    assert forall i :: 0 <= i < |ms| - 1 ==> ms[i] == held[cut + i];
  }

  // ---------- what leaves the session ----------

  /** A message fit for a frontend: one safe line, a kind, a display name by the rules. */
  predicate Presentable(o: Options, m: Message) {
    && Utf8.Valid(m.body) && Sanitize.Tidy(Utf8.Runes(m.body))
    && (o.strip ==> Sanitize.NoEmoji(Utf8.Runes(m.body)))
    && m.kind != "" && m.display == Alias(o, m.sender)
  }

  lemma NormalisedPresentable(o: Options, m: Message)
    ensures Presentable(o, Normalised(o, m))
  {
    hide Alias, Sanitize.CleanedMessage;
    var named := m.(display := Alias(o, m.sender));
    var kinded := if named.kind == "" then named.(kind := KIND_TEXT) else named;
    SanitizeLaws.BodyIsSafe(kinded, o.strip, o.maxBody);
  }

  predicate StorePresentable(o: Options, store: Mem.View) {
    forall r, i :: r in store && 0 <= i < |store[r].messages| ==> Presentable(o, store[r].messages[i])
  }

  predicate SentPresentable(o: Options, sent: seq<Broadcast>) {
    forall i :: 0 <= i < |sent| && sent[i].MessageSent? ==> Presentable(o, sent[i].m)
  }

  lemma AppendPresentable(o: Options, capacity: nat, store: Mem.View, m: Message)
    requires StorePresentable(o, store) && Presentable(o, m)
    ensures StorePresentable(o, Mem.Append(capacity, store, m))
  {
    hide Presentable;
  }

  lemma MarkerPresentable(o: Options, store: Mem.View, room: string, event: string)
    requires StorePresentable(o, store)
    ensures StorePresentable(o, Mem.SetMarker(store, room, event))
  {
    hide Presentable;
  }

  lemma StepPresentable(u: Setup, v: View, op: Op)
    requires StorePresentable(u.o, v.store) && SentPresentable(u.o, v.sent)
    ensures StorePresentable(u.o, Step(u, v, op).store) && SentPresentable(u.o, Step(u, v, op).sent)
  {
    hide Presentable, StorePresentable, Normalised, Mem.Append, Mem.SetMarker, Mem.Unread;
    match op
    case Mark(room, event, delivered) =>
      MarkerPresentable(u.o, v.store, room, event);
    case Handle(ConnectedEvent(_)) =>
    case Handle(MessageEvent(m)) =>
      var n := Normalised(u.o, m);
      NormalisedPresentable(u.o, m);
      AppendPresentable(u.o, u.capacity, v.store, n);
      MarkerPresentable(u.o, Mem.Append(u.capacity, v.store, n), n.room, n.event);
  }

  /** Nothing raw is ever stored or broadcast. */
  lemma {:induction false} RunPresentable(u: Setup, ops: seq<Op>)
    ensures StorePresentable(u.o, After(u, ops).store) && SentPresentable(u.o, After(u, ops).sent)
  {
    hide Step, Seeded, Presentable;
    if ops == [] {
      SeededConnected(u.o, u.listed);
    } else {
      RunPresentable(u, ops[..|ops| - 1]);
      StepPresentable(u, After(u, ops[..|ops| - 1]), ops[|ops| - 1]);
    }
  }
}
