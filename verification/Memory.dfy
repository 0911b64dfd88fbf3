/** The bounded in-memory store (internal/store/memory.go). */
module MemoryStore {
  import opened Basics
  import opened Model

  const DEFAULT_CAPACITY := 500

  /** What the store holds for one room. An empty marker means none was set. */
  datatype Log = Log(messages: seq<Message>, marker: string)

  type View = map<string, Log>

  function LogAt(v: View, room: string): Log {
    if room in v then v[room] else Log([], "")
  }

  function EffectiveCapacity(capacity: int): (c: nat)
    ensures 0 < c
  {
    if capacity <= 0 then DEFAULT_CAPACITY else capacity
  }

  function Append(capacity: nat, v: View, m: Message): View {
    var log := LogAt(v, m.room);
    if HasEvent(log.messages, m.event) then v
    else v[m.room := log.(messages := LastN(log.messages + [m], capacity))]
  }

  function SetMarker(v: View, room: string, event: string): View {
    var log := LogAt(v, room);
    var target :=
      if event != "" then event
      else if log.messages != [] then log.messages[|log.messages| - 1].event
      else log.marker;
    v[room := log.(marker := target)]
  }

  function Recent(v: View, room: string, limit: int): seq<Message> {
    var ms := LogAt(v, room).messages;
    if limit <= 0 then ms else LastN(ms, limit)
  }

  /** Where the first message with this event id sits; |ms| if nowhere. */
  function IndexOf(ms: seq<Message>, event: string): (i: nat)
    ensures i <= |ms|
    ensures i < |ms| ==> ms[i].event == event
    ensures forall j :: 0 <= j < i ==> ms[j].event != event
  {
    if ms == [] then 0
    else if ms[0].event == event then 0
    else 1 + IndexOf(ms[1..], event)
  }

  /** Where unread counting starts: just after the marked message, or at the
      beginning when there is no marker or the store no longer holds it. */
  function UnreadStart(log: Log): (start: nat)
    ensures start <= |log.messages|
  {
    if log.marker != "" && IndexOf(log.messages, log.marker) < |log.messages|
    then IndexOf(log.messages, log.marker) + 1
    else 0
  }

  function Unread(v: View, room: string): nat {
    var log := LogAt(v, room);
    CountOther(log.messages[UnreadStart(log)..])
  }

  class RoomLog {
    var messages: seq<Message>
    var readMarker: string

    constructor ()
      ensures messages == [] && readMarker == ""
    {
      messages := [];
      readMarker := "";
    }
  }

  class Memory {
    const capacity: nat
    var rooms: map<string, RoomLog>

    /** Every room owns its own log object. */
    ghost predicate Valid()
      reads this
    {
      && 0 < capacity
      && forall r, q :: r in rooms && q in rooms && r != q ==> rooms[r] != rooms[q]
    }

    ghost function Contents(): View
      reads this, rooms.Values
    {
      map r | r in rooms :: Log(rooms[r].messages, rooms[r].readMarker)
    }

    ghost function Repr(): set<object>
      reads this
    {
      {this} + rooms.Values
    }

    constructor (wanted: int)
      ensures Valid() && fresh(Repr())
      ensures capacity == EffectiveCapacity(wanted) && Contents() == map[]
    {
      capacity := EffectiveCapacity(wanted);
      rooms := map[];
    }

    /** Writing to one room's log leaves every other room as it was. */
    twostate lemma OneLogChanged(room: string)
      requires old(Valid()) && Valid() && rooms == old(rooms) && room in rooms
      requires forall q :: q in rooms && q != room ==> unchanged(rooms[q])
      ensures Contents() == old(Contents())[room := Log(rooms[room].messages, rooms[room].readMarker)]
    {
    }

    /** The log of a room, created empty on first use. */
    method LogFor(room: string) returns (r: RoomLog)
      requires Valid()
      modifies this
      ensures Valid() && room in rooms && r == rooms[room]
      ensures fresh(Repr() - old(Repr()))
      ensures Contents() == old(Contents())[room := LogAt(old(Contents()), room)]
    {
      if room in rooms {
        r := rooms[room];
      } else {
        r := new RoomLog();
        rooms := rooms[room := r];
      }
    }

    method AppendMessage(m: Message)
      requires Valid()
      modifies Repr()
      ensures Valid() && fresh(Repr() - old(Repr()))
      ensures Contents() == Append(capacity, old(Contents()), m)
    {
      var r := LogFor(m.room);
      assert r in Repr();
      ghost var before := Contents();
      var i := 0;
      while i < |r.messages|
        invariant 0 <= i <= |r.messages|
        invariant forall j :: 0 <= j < i ==> r.messages[j].event != m.event
      {
        if r.messages[i].event == m.event {
          assert before == old(Contents());
          return;
        }
        i := i + 1;
      }
      ghost var held := before[m.room].messages;
      assert !HasEvent(held, m.event);
      label Scanned:
      r.messages := r.messages + [m];
      var over := |r.messages| - capacity;
      if over > 0 {
        r.messages := r.messages[over..];
      }
      assert r.messages == LastN(held + [m], capacity);
      OneLogChanged@Scanned(m.room);
      hide LastN, HasEvent;
      AppendedLog(capacity, old(Contents()), before, m, Contents());
    }

    static lemma AppendedLog(capacity: nat, v: View, before: View, m: Message, after: View)
      requires !HasEvent(LogAt(v, m.room).messages, m.event)
      requires before == v[m.room := LogAt(v, m.room)]
      requires after == before[m.room := Log(LastN(LogAt(v, m.room).messages + [m], capacity), LogAt(v, m.room).marker)]
      ensures after == Append(capacity, v, m)
    {
      hide LastN, HasEvent;
    }

    method RecentMessages(room: string, limit: int) returns (out: seq<Message>)
      requires Valid()
      ensures out == Recent(Contents(), room, limit)
    {
      if room !in rooms {
        return [];
      }
      var r := rooms[room];
      var n := limit;
      if n <= 0 || n > |r.messages| {
        n := |r.messages|;
      }
      out := r.messages[|r.messages| - n..];
    }

    method UnreadCount(room: string) returns (n: nat)
      requires Valid()
      ensures n == Unread(Contents(), room)
    {
      if room !in rooms {
        return 0;
      }
      n := CountUnread(rooms[room]);
    }

    static method CountUnread(r: RoomLog) returns (n: nat)
      ensures n == CountOther(r.messages[UnreadStart(Log(r.messages, r.readMarker))..])
    {
      var start := 0;
      if r.readMarker != "" {
        var i := 0;
        while i < |r.messages|
          invariant 0 <= i <= |r.messages| && start == 0
          invariant forall j :: 0 <= j < i ==> r.messages[j].event != r.readMarker
        {
          if r.messages[i].event == r.readMarker {
            start := i + 1;
            break;
          }
          i := i + 1;
        }
      }
      n := 0;
      var tail := r.messages[start..];
      var k := 0;
      while k < |tail|
        invariant 0 <= k <= |tail| && n == CountOther(tail[..k])
      {
        assert tail[..k + 1][..k] == tail[..k];
        if !tail[k].own {
          n := n + 1;
        }
        k := k + 1;
      }
      assert tail[..k] == tail;
    }

    method SetReadMarker(room: string, event: string)
      requires Valid()
      modifies Repr()
      ensures Valid() && fresh(Repr() - old(Repr()))
      ensures Contents() == SetMarker(old(Contents()), room, event)
    {
      var r := LogFor(room);
      assert r in Repr();
      ghost var before, log := Contents(), LogAt(old(Contents()), room);
      assert before[room] == log;
      label Found:
      if event == "" {
        if |r.messages| > 0 {
          r.readMarker := r.messages[|r.messages| - 1].event;
        }
      } else {
        r.readMarker := event;
      }
      OneLogChanged@Found(room);
      MarkedLog(old(Contents()), before, room, event, Contents(), r.readMarker);
    }

    static lemma MarkedLog(v: View, before: View, room: string, event: string, after: View, marker: string)
      requires before == v[room := LogAt(v, room)]
      requires after == before[room := Log(LogAt(v, room).messages, marker)]
      requires marker ==
        if event != "" then event
        else if LogAt(v, room).messages != [] then LogAt(v, room).messages[|LogAt(v, room).messages| - 1].event
        else LogAt(v, room).marker
      ensures after == SetMarker(v, room, event)
    {
    }
  }

  // ---------- how much is held ----------

  function AppendAll(capacity: nat, v: View, ms: seq<Message>): View {
    if ms == [] then v else Append(capacity, AppendAll(capacity, v, ms[..|ms| - 1]), ms[|ms| - 1])
  }

  /** A store asked for a positive capacity holds that many of a room's newest
      messages, and one asked for none holds 500. */
  lemma {:induction false} HoldsAsAsked(wanted: int, room: string, ms: seq<Message>)
    requires forall i :: 0 <= i < |ms| ==> ms[i].room == room
    requires forall i, j :: 0 <= i < j < |ms| ==> ms[i].event != ms[j].event
    ensures LogAt(AppendAll(EffectiveCapacity(wanted), map[], ms), room).messages
         == LastN(ms, if wanted > 0 then wanted else 500)
  {
    if ms != [] {
      var front, last := ms[..|ms| - 1], ms[|ms| - 1];
      var n := if wanted > 0 then wanted else 500;
      HoldsAsAsked(wanted, room, front);
      NotAmong(front, n, last);
      assert front + [last] == ms;
      OneMore(front, last, n);
    }
  }

  lemma NotAmong(ms: seq<Message>, n: nat, m: Message)
    requires forall i :: 0 <= i < |ms| ==> ms[i].event != m.event
    ensures !HasEvent(LastN(ms, n), m.event)
  {
  }

  lemma OneMore(ms: seq<Message>, m: Message, n: nat)
    ensures LastN(LastN(ms, n) + [m], n) == LastN(ms + [m], n)
  {
  }
}
