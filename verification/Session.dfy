/** The layer between the transport and the frontends (internal/session/session.go),
    over the in-memory store: one transport event or command at a time. */
module Session {
  import opened Basics
  import opened Model
  import opened Transport
  import Mem = MemoryStore
  import Sanitize

  datatype Options = Options(aliases: map<string, string>, strip: bool, maxBody: int)

  datatype RoomState = RoomState(display: string, lastTs: int)

  datatype Broadcast = MessageSent(m: Message) | RoomSent(room: Room)

  /** sent is history: what the hub was given to broadcast. */
  datatype View = View(
    rooms: map<string, RoomState>, order: seq<string>, connected: bool,
    store: Mem.View, sent: seq<Broadcast>)

  const EMPTY := View(map[], [], false, map[], [])

  // ---------- names ----------

  function Until(s: string, c: char): string {
    if s == "" || s[0] == c then "" else [s[0]] + Until(s[1..], c)
  }

  function Localpart(id: string): string {
    Until(if "@" <= id then id[1..] else id, ':')
  }

  function Alias(o: Options, id: string): string {
    if id == "" then ""
    else if id in o.aliases && o.aliases[id] != "" then o.aliases[id]
    else Localpart(id)
  }

  // ---------- the operations as functions ----------

  /** The message as it is stored and broadcast. */
  function Normalised(o: Options, m: Message): Message {
    var named := m.(display := Alias(o, m.sender));
    var kinded := if named.kind == "" then named.(kind := KIND_TEXT) else named;
    Sanitize.CleanedMessage(kinded, o.strip, o.maxBody)
  }

  function EnsureRoom(v: View, room: string, display: string): View {
    if room !in v.rooms then
      v.(rooms := v.rooms[room := RoomState(display, 0)], order := v.order + [room])
    else if v.rooms[room].display == "" then
      v.(rooms := v.rooms[room := v.rooms[room].(display := display)])
    else v
  }

  function RaiseTs(v: View, room: string, ts: int): View {
    if room in v.rooms && ts > v.rooms[room].lastTs then v.(rooms := v.rooms[room := v.rooms[room].(lastTs := ts)]) else v
  }

  function RoomView(v: View, room: string): Option<Room> {
    if room !in v.rooms then None
    else Some(Room(room, v.rooms[room].display, Mem.Unread(v.store, room), v.rooms[room].lastTs))
  }

  function SendRoom(v: View, room: string): View {
    if RoomView(v, room).None? then v else v.(sent := v.sent + [RoomSent(RoomView(v, room).value)])
  }

  /** A normalised message in the store and in its room's state; a message the
      user sent themselves is already read. */
  function Recorded(capacity: nat, v: View, m: Message): View {
    var v1 := v.(store := Mem.Append(capacity, v.store, m));
    var v2 := RaiseTs(EnsureRoom(v1, m.room, m.display), m.room, m.ts);
    if m.own then v2.(store := Mem.SetMarker(v2.store, m.room, m.event)) else v2
  }

  function Published(v: View, m: Message): View {
    SendRoom(v.(sent := v.sent + [MessageSent(m)]), m.room)
  }

  function Ingested(capacity: nat, o: Options, v: View, msg: Message): View {
    var m := Normalised(o, msg);
    Published(Recorded(capacity, v, m), m)
  }

  function Handled(capacity: nat, o: Options, v: View, ev: Event): View {
    match ev
    case ConnectedEvent(connected) => v.(connected := connected)
    case MessageEvent(m) => Ingested(capacity, o, v, m)
  }

  /** `delivered` says whether the transport's own MarkRead succeeded. */
  function Marked(v: View, room: string, event: string, delivered: bool): View {
    var v1 := v.(store := Mem.SetMarker(v.store, room, event));
    if delivered then SendRoom(v1, room) else v1
  }

  /** The rooms the transport lists before it starts. */
  function Seeded(o: Options, v: View, listed: seq<Room>): View {
    if listed == [] then v
    else
      var last := listed[|listed| - 1];
      EnsureRoom(Seeded(o, v, listed[..|listed| - 1]), last.room, Alias(o, last.display))
  }

  function Listed(v: View, order: seq<string>): seq<Room>
    requires forall r :: r in order ==> r in v.rooms
  {
    seq(|order|, i requires 0 <= i < |order| => RoomView(v, order[i]).value)
  }

  lemma KnownViewed(v: View, room: string)
    ensures room in v.rooms <==> RoomView(v, room).Some?
  {
  }

  lemma ListedSnoc(v: View, order: seq<string>, room: string)
    requires room in v.rooms && forall r :: r in order ==> r in v.rooms
    ensures RoomView(v, room).Some? && Listed(v, order + [room]) == Listed(v, order) + [RoomView(v, room).value]
  {
    hide RoomView;
    KnownViewed(v, room);
    forall r | r in order
      ensures RoomView(v, r).Some?
    {
      KnownViewed(v, r);
    }
  }

  // ---------- the object ----------

  class Session {
    const opts: Options
    const st: Mem.Memory
    var rooms: map<string, RoomState>
    var order: seq<string>
    var connected: bool
    ghost var sent: seq<Broadcast>

    ghost predicate Valid()
      reads this, st
    {
      st.Valid()
    }

    ghost function Contents(): View
      reads this, st, st.rooms.Values
    {
      View(rooms, order, connected, st.Contents(), sent)
    }

    constructor (opts: Options, st: Mem.Memory)
      requires st.Valid() && st.Contents() == map[]
      ensures Valid() && this.opts == opts && this.st == st && Contents() == EMPTY
    {
      this.opts := opts;
      this.st := st;
      rooms, order, connected, sent := map[], [], false, [];
    }

    method EnsureRoomLocked(room: string, display: string)
      requires Valid()
      modifies this
      ensures Valid() && Contents() == EnsureRoom(old(Contents()), room, display)
    {
      if room !in rooms {
        rooms := rooms[room := RoomState(display, 0)];
        order := order + [room];
        return;
      }
      if rooms[room].display == "" {
        rooms := rooms[room := rooms[room].(display := display)];
      }
    }

    method ViewOf(room: string) returns (r: Option<Room>)
      requires Valid()
      ensures r == RoomView(Contents(), room)
    {
      if room !in rooms {
        return None;
      }
      var unread := st.UnreadCount(room);
      r := Some(Room(room, rooms[room].display, unread, rooms[room].lastTs));
    }

    method Seed(listed: seq<Room>)
      requires Valid()
      modifies this
      ensures Valid() && Contents() == Seeded(opts, old(Contents()), listed)
    {
      var i := 0;
      while i < |listed|
        invariant i <= |listed|
        invariant Contents() == Seeded(opts, old(Contents()), listed[..i])
      {
        assert listed[..i + 1][..i] == listed[..i];
        EnsureRoomLocked(listed[i].room, Alias(opts, listed[i].display));
        i := i + 1;
      }
      assert listed[..i] == listed;
    }

    /** The part of ingest under the lock. */
    method NoteRoom(room: string, display: string, ts: int)
      requires Valid()
      modifies this
      ensures Valid() && Contents() == RaiseTs(EnsureRoom(old(Contents()), room, display), room, ts)
    {
      EnsureRoomLocked(room, display);
      if ts > rooms[room].lastTs {
        rooms := rooms[room := rooms[room].(lastTs := ts)];
      }
    }

    method Record(m: Message)
      requires Valid()
      modifies this, st.Repr()
      ensures Valid() && Contents() == Recorded(st.capacity, old(Contents()), m)
      ensures fresh(st.Repr() - old(st.Repr()))
    {
      hide Mem.Append, Mem.SetMarker, EnsureRoom, RaiseTs;
      st.AppendMessage(m);
      NoteRoom(m.room, m.display, m.ts);
      if m.own {
        st.SetReadMarker(m.room, m.event);
      }
    }

    method Publish(m: Message)
      requires Valid()
      modifies this
      ensures Valid() && Contents() == Published(old(Contents()), m)
    {
      hide Mem.Unread;
      sent := sent + [MessageSent(m)];
      var r := ViewOf(m.room);
      if r.Some? {
        sent := sent + [RoomSent(r.value)];
      }
    }

    method Ingest(msg: Message)
      requires Valid()
      modifies this, st.Repr()
      ensures Valid() && Contents() == Ingested(st.capacity, opts, old(Contents()), msg)
      ensures fresh(st.Repr() - old(st.Repr()))
    {
      hide Recorded, Published, Sanitize.CleanedMessage, Alias;
      var m := msg.(display := Alias(opts, msg.sender));
      if m.kind == "" {
        m := m.(kind := KIND_TEXT);
      }
      m := Sanitize.CleanMessage(m, opts.strip, opts.maxBody);
      Record(m);
      Publish(m);
    }

    method Handle(ev: Event)
      requires Valid()
      modifies this, st.Repr()
      ensures Valid() && Contents() == Handled(st.capacity, opts, old(Contents()), ev)
      ensures fresh(st.Repr() - old(st.Repr()))
    {
      hide Ingested;
      match ev
      case ConnectedEvent(up) =>
        connected := up;
      case MessageEvent(m) =>
        Ingest(m);
    }

    method MarkRead(room: string, event: string, delivered: bool) returns (ok: bool)
      requires Valid()
      modifies this, st.Repr()
      ensures Valid() && Contents() == Marked(old(Contents()), room, event, delivered) && ok == delivered
      ensures fresh(st.Repr() - old(st.Repr()))
    {
      hide Mem.SetMarker, Mem.Unread;
      st.SetReadMarker(room, event);
      if !delivered {
        return false;
      }
      var r := ViewOf(room);
      if r.Some? {
        sent := sent + [RoomSent(r.value)];
      }
      return true;
    }

    method Rooms() returns (out: seq<Room>)
      requires Valid() && forall r :: r in order ==> r in rooms
      ensures out == Listed(Contents(), order)
    {
      hide RoomView;
      out := [];
      var i := 0;
      while i < |order|
        invariant i <= |order| && out == Listed(Contents(), order[..i])
      {
        assert order[i] in order && order[..i + 1] == order[..i] + [order[i]];
        KnownViewed(Contents(), order[i]);
        var r := ViewOf(order[i]);
        ListedSnoc(Contents(), order[..i], order[i]);
        out := out + [r.value];
        i := i + 1;
      }
      assert order[..i] == order;
    }

    /** Commands naming an unknown room are refused. */
    method History(room: string, limit: int) returns (r: Result<seq<Message>, string>)
      requires Valid()
      ensures r == if room in rooms then Ok(Mem.Recent(st.Contents(), room, limit)) else Err("unknown room")
    {
      if room !in rooms {
        return Err("unknown room");
      }
      var ms := st.RecentMessages(room, limit);
      return Ok(ms);
    }
  }
}
