/** What the frontends are told and what the store is told, over every sequence
    of transport events and read marks. */
module SessionBroadcasts {
  import opened Basics
  import opened Model
  import opened Transport
  import opened Session
  import opened SessionRuns
  import Mem = MemoryStore
  import Store = StoreRefinement
  import Sanitize
  import Utf8

  // ---------- broadcasts ----------

  /** A broadcast without the numbers a room event carries. */
  datatype Heading = Of(m: Message) | About(room: string)

  function Headings(sent: seq<Broadcast>): (hs: seq<Heading>)
    ensures |hs| == |sent|
  {
    if sent == [] then []
    else
      Headings(sent[..|sent| - 1])
      + [match sent[|sent| - 1] case MessageSent(m) => Of(m) case RoomSent(room) => About(room.room)]
  }

  /** What one event or command has the session tell: a message and at once the
      room it is in, or the room of an accepted read mark, if it is known. */
  function Telling(u: Setup, before: seq<Op>, op: Op): seq<Heading> {
    match op
    case Handle(MessageEvent(m)) => [Of(Normalised(u.o, m)), About(m.room)]
    case Handle(ConnectedEvent(_)) => []
    case Mark(room, _, delivered) => if delivered && Mentioned(Mentions(u, before), room) then [About(room)] else []
  }

  function Told(u: Setup, ops: seq<Op>): seq<Heading> {
    if ops == [] then [] else Told(u, ops[..|ops| - 1]) + Telling(u, ops[..|ops| - 1], ops[|ops| - 1])
  }

  lemma HeadingsSnoc(sent: seq<Broadcast>, b: Broadcast)
    ensures Headings(sent + [b]) ==
      Headings(sent) + [match b case MessageSent(m) => Of(m) case RoomSent(room) => About(room.room)]
  {
    assert (sent + [b])[..|sent|] == sent;
  }

  lemma SendRoomTells(v: View, room: string)
    ensures Headings(SendRoom(v, room).sent) == Headings(v.sent) + if room in v.rooms then [About(room)] else []
  {
    hide Mem.Unread, Headings;
    if room in v.rooms {
      HeadingsSnoc(v.sent, RoomSent(RoomView(v, room).value));
    } else {
      assert Headings(v.sent) + [] == Headings(v.sent);
    }
  }

  lemma IngestedTells(u: Setup, v: View, m: Message)
    ensures Headings(Ingested(u.capacity, u.o, v, m).sent)
         == Headings(v.sent) + [Of(Normalised(u.o, m)), About(m.room)]
  {
    hide Normalised, Headings, SendRoom, Recorded;
    var n := Normalised(u.o, m);
    NormalisedFields(u.o, m);
    var v1 := Recorded(u.capacity, v, n);
    RoomKnown(u.capacity, v, n);
    RecordedSends(u.capacity, v, n);
    HeadingsSnoc(v.sent, MessageSent(n));
    SendRoomTells(v1.(sent := v1.sent + [MessageSent(n)]), n.room);
    assert (Headings(v.sent) + [Of(n)]) + [About(m.room)] == Headings(v.sent) + [Of(n), About(m.room)];
  }

  lemma RecordedSends(capacity: nat, v: View, m: Message)
    ensures Recorded(capacity, v, m).sent == v.sent
  {
    hide Mem.Append, Mem.SetMarker;
  }

  /** In every run the frontends are told exactly this, in this order: every
      message that arrived, as it is stored, each directly followed by its room,
      and the rooms of the read marks the transport accepted. */
  lemma {:induction false} FrontendsAreTold(u: Setup, ops: seq<Op>)
    ensures Headings(After(u, ops).sent) == Told(u, ops)
  {
    hide Step, Seeded, Headings, Mentions, Mentioned;
    if ops == [] {
      SeededConnected(u.o, u.listed);
      NothingTold();
    } else {
      var before, op := ops[..|ops| - 1], ops[|ops| - 1];
      FrontendsAreTold(u, before);
      StepTells(u, before, op);
    }
  }

  lemma NothingTold()
    ensures Headings([]) == []
  {
  }

  lemma StepTells(u: Setup, before: seq<Op>, op: Op)
    ensures var v := After(u, before);
      Headings(Step(u, v, op).sent) == Headings(v.sent) + Telling(u, before, op)
  {
    hide After, Headings, Ingested, SendRoom, Normalised, Mentioned, Mem.SetMarker;
    var v := After(u, before);
    RunReflects(u, before);
    match op
    case Handle(MessageEvent(m)) => IngestedTells(u, v, m);
    case Handle(ConnectedEvent(_)) => assert Headings(v.sent) + [] == Headings(v.sent);
    case Mark(room, event, delivered) =>
      SendRoomTells(v.(store := Mem.SetMarker(v.store, room, event)), room);
      assert Headings(v.sent) + [] == Headings(v.sent);
  }

  /** The messages alone. */
  function Messages(hs: seq<Heading>): seq<Message> {
    if hs == [] then []
    else Messages(hs[..|hs| - 1]) + if hs[|hs| - 1].Of? then [hs[|hs| - 1].m] else []
  }

  /** The messages that arrived, normalised. */
  function Arrived(o: Options, ops: seq<Op>): seq<Message> {
    if ops == [] then []
    else
      var op := ops[|ops| - 1];
      Arrived(o, ops[..|ops| - 1])
      + if op.Handle? && op.ev.MessageEvent? then [Normalised(o, op.ev.m)] else []
  }

  lemma {:induction false} MessagesConcat(a: seq<Heading>, b: seq<Heading>)
    ensures Messages(a + b) == Messages(a) + Messages(b)
  {
    if b == [] {
      assert a + b == a;
    } else {
      assert (a + b)[..|a + b| - 1] == a + b[..|b| - 1];
      MessagesConcat(a, b[..|b| - 1]);
    }
  }

  /** No message is held back, repeated or reordered. */
  lemma {:induction false} EveryMessageIsBroadcast(u: Setup, ops: seq<Op>)
    ensures Messages(Headings(After(u, ops).sent)) == Arrived(u.o, ops)
  {
    hide After, Headings, Normalised, Mentioned, Mentions;
    FrontendsAreTold(u, ops);
    if ops != [] {
      var before, op := ops[..|ops| - 1], ops[|ops| - 1];
      EveryMessageIsBroadcast(u, before);
      FrontendsAreTold(u, before);
      MessagesConcat(Told(u, before), Telling(u, before, op));
      TellingMessages(u, before, op);
    }
  }

  lemma TellingMessages(u: Setup, before: seq<Op>, op: Op)
    ensures Messages(Telling(u, before, op)) == if op.Handle? && op.ev.MessageEvent? then [Normalised(u.o, op.ev.m)] else []
  {
    hide Normalised, Mentioned;
    match op
    case Handle(MessageEvent(m)) =>
      var hs := [Of(Normalised(u.o, m)), About(m.room)];
      assert hs[..1] == [hs[0]] && [hs[0]][..0] == [] && Messages(hs[..1]) == [hs[0].m];
      assert Messages(hs) == Messages(hs[..1]);
    case _ =>
  }

  lemma {:induction false} ToldPairs(u: Setup, ops: seq<Op>, k: nat)
    requires k < |Told(u, ops)| && Told(u, ops)[k].Of?
    ensures k + 1 < |Told(u, ops)| && Told(u, ops)[k + 1] == About(Told(u, ops)[k].m.room)
  {
    hide Normalised, Mentioned;
    var before, op := ops[..|ops| - 1], ops[|ops| - 1];
    if k < |Told(u, before)| {
      ToldPairs(u, before, k);
    } else if op.Handle? && op.ev.MessageEvent? {
      NormalisedFields(u.o, op.ev.m);
    }
  }

  /** Each message is followed directly by its own room. */
  lemma RoomFollowsMessage(u: Setup, ops: seq<Op>, k: nat)
    requires var sent := After(u, ops).sent; k < |sent| && sent[k].MessageSent?
    ensures var sent := After(u, ops).sent;
      k + 1 < |sent| && sent[k + 1].RoomSent? && sent[k + 1].room.room == sent[k].m.room
  {
    hide After, Told, Headings;
    var sent := After(u, ops).sent;
    FrontendsAreTold(u, ops);
    HeadingAt(sent, k);
    ToldPairs(u, ops, k);
    HeadingAt(sent, k + 1);
  }

  lemma {:induction false} HeadingAt(sent: seq<Broadcast>, k: nat)
    requires k < |sent|
    ensures Headings(sent)[k] == match sent[k] case MessageSent(m) => Of(m) case RoomSent(room) => About(room.room)
  {
    if k < |sent| - 1 {
      HeadingAt(sent[..|sent| - 1], k);
    }
  }

  // ---------- the store ----------

  /** The store operations one event or command leads to. */
  function StoreOps(o: Options, op: Op): seq<Store.Op> {
    match op
    case Handle(MessageEvent(m)) =>
      [Store.AppendOp(Normalised(o, m))] + if m.own then [Store.MarkOp(m.room, m.event)] else []
    case Handle(ConnectedEvent(_)) => []
    case Mark(room, event, _) => [Store.MarkOp(room, event)]
  }

  function AllStoreOps(o: Options, ops: seq<Op>): seq<Store.Op> {
    if ops == [] then [] else AllStoreOps(o, ops[..|ops| - 1]) + StoreOps(o, ops[|ops| - 1])
  }

  lemma MemJoined(capacity: nat, a: seq<Store.Op>, b: seq<Store.Op>)
    ensures |b| == 1 ==> Store.MemAfter(capacity, a + b) == Store.MemStep(capacity, Store.MemAfter(capacity, a), b[0])
    ensures b == [] ==> a + b == a
  {
    hide Store.MemStep;
    if |b| == 1 {
      assert (a + b)[..|a|] == a;
    }
  }

  lemma StoreStep(u: Setup, v: View, op: Op, before: seq<Store.Op>)
    requires v.store == Store.MemAfter(u.capacity, before)
    ensures Step(u, v, op).store == Store.MemAfter(u.capacity, before + StoreOps(u.o, op))
  {
    hide Normalised, Mem.Append, Mem.SetMarker, Mem.Unread, Store.MemAfter;
    match op
    case Handle(MessageEvent(m)) =>
      var n, append := Normalised(u.o, m), [Store.AppendOp(Normalised(u.o, m))];
      NormalisedFields(u.o, m);
      MemJoined(u.capacity, before, append);
      MemJoined(u.capacity, before + append, [Store.MarkOp(m.room, m.event)]);
      assert before + StoreOps(u.o, op)
          == if m.own then (before + append) + [Store.MarkOp(m.room, m.event)] else before + append;
    case Handle(ConnectedEvent(_)) => MemJoined(u.capacity, before, []);
    case Mark(room, event, _) => MemJoined(u.capacity, before, [Store.MarkOp(room, event)]);
  }

  /** In every run the store is told to append every message that arrived, to mark
      the user's own as read, and to mark what frontends mark; so what is proved of
      histories of the stores holds of the session's. */
  lemma {:induction false} StoreIsTold(u: Setup, ops: seq<Op>)
    ensures After(u, ops).store == Store.MemAfter(u.capacity, AllStoreOps(u.o, ops))
  {
    hide Step, Seeded, StoreOps;
    if ops == [] {
      SeededConnected(u.o, u.listed);
    } else {
      StoreIsTold(u, ops[..|ops| - 1]);
      hide After, AllStoreOps;
      StoreStep(u, After(u, ops[..|ops| - 1]), ops[|ops| - 1], AllStoreOps(u.o, ops[..|ops| - 1]));
      AfterLast(u, ops);
    }
  }

  lemma AfterLast(u: Setup, ops: seq<Op>)
    requires ops != []
    ensures After(u, ops) == Step(u, After(u, ops[..|ops| - 1]), ops[|ops| - 1])
    ensures AllStoreOps(u.o, ops) == AllStoreOps(u.o, ops[..|ops| - 1]) + StoreOps(u.o, ops[|ops| - 1])
  {
    hide Step, StoreOps;
  }

  // ---------- names and kinds ----------

  lemma {:induction false} UntilFinds(s: string, c: char, rest: string)
    requires c !in s
    ensures Until(s + [c] + rest, c) == s && Until(s, c) == s
  {
    if s == "" {
      assert (s + [c] + rest)[0] == c;
    } else {
      assert s[0] in s && (s + [c] + rest)[1..] == s[1..] + [c] + rest;
      UntilFinds(s[1..], c, rest);
    }
  }

  /** Nobody appears under a raw id: a user has the alias given to them, and
      without one the part of the id before the server. */
  lemma NamesShown(o: Options, name: string, server: string)
    requires ':' !in name
    ensures var id := "@" + name + ":" + server;
      Alias(o, id) == if id in o.aliases && o.aliases[id] != "" then o.aliases[id] else name
    ensures name != "" && name[0] != '@' && name !in o.aliases ==> Alias(o, name) == name
    ensures Alias(o, "") == ""
  {
    var id := "@" + name + ":" + server;
    assert id[1..] == name + [':'] + server && "@" <= id;
    UntilFinds(name, ':', server);
  }

  /** A message without a kind is text; text is sanitised, and any other known
      kind gives way to its placeholder. */
  lemma KindsShown(o: Options, m: Message)
    ensures var n := Normalised(o, m);
      && n.kind == (if m.kind == "" then KIND_TEXT else m.kind)
      && (m.kind == "" || m.kind == KIND_TEXT ==> n.body == Sanitize.Cleaned(m.body, o.strip, o.maxBody))
      && (m.kind in {KIND_IMAGE, KIND_AUDIO, KIND_STICKER, KIND_OTHER} ==>
            Sanitize.Placeholder(m.kind).Some? && n.body == Utf8.Encode(Sanitize.Placeholder(m.kind).value))
  {
    hide Sanitize.Cleaned;
  }
}
