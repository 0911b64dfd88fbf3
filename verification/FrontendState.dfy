/** The frontend's view of the conversation (lua/quietdm/state.lua): rooms in
    order of activity, bounded histories, and a de-duplication table that is
    pruned now and then. */
module FrontendState {
  import opened Basics
  import opened Model

  const ID_LIMIT := 5000

  datatype RoomInfo = RoomInfo(display: string, unread: int, lastTs: int)

  /** Everything the module tables hold. heldAtPrune is history: how many events
      were held when the tables were last rebuilt. */
  datatype View = View(
    rooms: map<string, RoomInfo>, order: seq<string>, messages: map<string, seq<Message>>,
    seen: set<string>, glanced: set<string>, idCount: nat, heldAtPrune: nat)

  const EMPTY := View(map[], [], map[], {}, {}, 0, 0)

  /** The events of every message still in some room's history. */
  function Held(messages: map<string, seq<Message>>): set<string> {
    set r, i | r in messages && 0 <= i < |messages[r]| :: messages[r][i].event
  }

  // ---------- the operations as functions ----------

  function TouchRoom(v: View, id: string, display: Option<string>, lastTs: Option<int>): View {
    var room0 :=
      if id in v.rooms then v.rooms[id]
      else RoomInfo(if display.Some? then display.value else id, 0, if lastTs.Some? then lastTs.value else 0);
    var room1 := if display.Some? && display.value != "" then room0.(display := display.value) else room0;
    var room2 := if lastTs.Some? && lastTs.value > room1.lastTs then room1.(lastTs := lastTs.value) else room1;
    v.(rooms := v.rooms[id := room2], order := if id in v.rooms then v.order else v.order + [id])
  }

  /** The order without its first occurrence of id. */
  function Without(order: seq<string>, id: string): seq<string> {
    if order == [] then []
    else if order[0] == id then order[1..]
    else [order[0]] + Without(order[1..], id)
  }

  function Bump(v: View, id: string): View {
    v.(order := [id] + Without(v.order, id))
  }

  function Remember(v: View, event: string): View {
    v.(seen := v.seen + {event}, idCount := v.idCount + 1)
  }

  function Prune(v: View): View {
    v.(seen := Held(v.messages), glanced := v.glanced * Held(v.messages),
       idCount := 0, heldAtPrune := |Held(v.messages)|)
  }

  /** `pruning` is what the code does; without it the tables never forget. */
  function MaybePrune(v: View, pruning: bool): View {
    if pruning && v.idCount > ID_LIMIT then Prune(v) else v
  }

  function History(v: View, room: string): seq<Message> {
    if room in v.messages then v.messages[room] else []
  }

  predicate Accepts(v: View, msg: Option<Message>) {
    msg.Some? && msg.value.event !in v.seen
  }

  /** The state after a message was recorded, before the prune. */
  function Recorded(limit: nat, v: View, m: Message): View {
    var v1 := Bump(TouchRoom(Remember(v, m.event), m.room, None, Some(m.ts)), m.room);
    var v2 := v1.(messages := v1.messages[m.room := LastN(History(v, m.room) + [m], limit)]);
    if m.own then v2.(glanced := v2.glanced + {m.event}) else v2
  }

  /** A message without an event id, like no message, arrives as None. */
  function OnMessage(limit: nat, v: View, msg: Option<Message>, pruning: bool): View {
    if Accepts(v, msg) then MaybePrune(Recorded(limit, v, msg.value), pruning) else v
  }

  function OnRoom(v: View, room: Option<string>, display: Option<string>, unread: int, lastTs: Option<int>): View {
    if room.None? then v
    else
      var v1 := TouchRoom(v, room.value, display, lastTs);
      v1.(rooms := v1.rooms[room.value := v1.rooms[room.value].(unread := unread)])
  }

  function RememberAll(v: View, msgs: seq<Message>): View {
    if msgs == [] then v
    else
      var event := msgs[|msgs| - 1].event;
      var v1 := Remember(RememberAll(v, msgs[..|msgs| - 1]), event);
      v1.(glanced := v1.glanced + {event})
  }

  /** The state after a history was replaced, before the prune. */
  function Replaced(v: View, room: string, msgs: seq<Message>): View {
    var v1 := RememberAll(TouchRoom(v, room, None, None), msgs);
    v1.(messages := v1.messages[room := msgs])
  }

  function OnHistory(v: View, room: string, msgs: seq<Message>, pruning: bool): View {
    MaybePrune(Replaced(v, room, msgs), pruning)
  }

  function MarkGlanced(v: View, msg: Option<Message>): View {
    if msg.None? then v else v.(glanced := v.glanced + {msg.value.event})
  }

  /** What next_unglanced chooses among: the newest message of each room, if the
      user has not been shown it. */
  function Candidates(v: View): set<Message> {
    set r | r in v.messages && v.messages[r] != [] && v.messages[r][|v.messages[r]| - 1].event !in v.glanced
      :: v.messages[r][|v.messages[r]| - 1]
  }

  // ---------- the module as it is written ----------

  class State {
    const historyLimit: nat
    var rooms: map<string, RoomInfo>
    var order: seq<string>
    var messages: map<string, seq<Message>>
    var seen: set<string>
    var glanced: set<string>
    var idCount: nat
    ghost var heldAtPrune: nat

    ghost function Contents(): View
      reads this
    {
      View(rooms, order, messages, seen, glanced, idCount, heldAtPrune)
    }

    constructor (limit: Option<nat>)
      ensures Contents() == EMPTY && historyLimit == if limit.Some? then limit.value else 50
    {
      historyLimit := if limit.Some? then limit.value else 50;
      rooms, order, messages, seen, glanced, idCount, heldAtPrune := map[], [], map[], {}, {}, 0, 0;
    }

    method Reset()
      modifies this
      ensures Contents() == EMPTY
    {
      rooms, order, messages, seen, glanced, idCount, heldAtPrune := map[], [], map[], {}, {}, 0, 0;
    }

    method Touch(id: string, display: Option<string>, lastTs: Option<int>)
      modifies this`rooms, this`order
      ensures Contents() == TouchRoom(old(Contents()), id, display, lastTs)
    {
      if id !in rooms {
        rooms := rooms[id := RoomInfo(if display.Some? then display.value else id, 0, if lastTs.Some? then lastTs.value else 0)];
        order := order + [id];
      }
      ghost var first := rooms[id];
      if display.Some? && display.value != "" {
        rooms := rooms[id := rooms[id].(display := display.value)];
      }
      if lastTs.Some? && lastTs.value > rooms[id].lastTs {
        rooms := rooms[id := rooms[id].(lastTs := lastTs.value)];
      }
      assert rooms == old(rooms)[id := rooms[id]];
    }

    method MoveToFront(id: string)
      modifies this`order
      ensures Contents() == Bump(old(Contents()), id)
    {
      var i := 0;
      while i < |order| && order[i] != id
        invariant 0 <= i <= |order|
        invariant Without(order, id) == order[..i] + Without(order[i..], id)
      {
        assert order[i..][0] == order[i] && order[i..][1..] == order[i + 1..];
        i := i + 1;
      }
      if i < |order| {
        assert order[i..][0] == id && order[i..][1..] == order[i + 1..];
        order := order[..i] + order[i + 1..];
      } else {
        assert order[i..] == [] && order[..i] == order;
      }
      order := [id] + order;
    }

    method RememberId(event: string)
      modifies this`seen, this`idCount
      ensures Contents() == Remember(old(Contents()), event)
    {
      seen := seen + {event};
      idCount := idCount + 1;
    }

    /** The inner loop of PruneIds: one room's list. */
    method KeepEvents(list: seq<Message>, kept: set<string>, keptGlanced: set<string>)
      returns (kept': set<string>, keptGlanced': set<string>)
      requires keptGlanced == glanced * kept
      ensures kept' == kept + Events(list) && keptGlanced' == glanced * kept'
    {
      kept', keptGlanced' := kept, keptGlanced;
      var i := 0;
      while i < |list|
        invariant 0 <= i <= |list|
        invariant kept' == kept + Events(list[..i]) && keptGlanced' == glanced * kept'
      {
        EventsGrow(list, i);
        kept' := kept' + {list[i].event};
        if list[i].event in glanced {
          keptGlanced' := keptGlanced' + {list[i].event};
        }
        i := i + 1;
      }
      assert list[..i] == list;
    }

    /** Rebuild both tables from the messages still held. */
    method PruneIds()
      modifies this`seen, this`glanced, this`idCount, this`heldAtPrune
      ensures Contents() == Prune(old(Contents()))
    {
      var kept: set<string>, keptGlanced: set<string> := {}, {};
      var todo := messages.Keys;
      assert Except(messages, todo) == map[] && Held(map[]) == {};
      while todo != {}
        invariant todo <= messages.Keys && unchanged(this)
        invariant kept == Held(Except(messages, todo)) && keptGlanced == glanced * kept
      {
        var room :| room in todo;
        HeldStep(messages, todo, room);
        todo := todo - {room};
        kept, keptGlanced := KeepEvents(messages[room], kept, keptGlanced);
      }
      assert Except(messages, {}) == messages;
      seen, glanced := kept, keptGlanced;
      idCount := 0;
      heldAtPrune := |kept|;
    }

    method PruneIfDue()
      modifies this`seen, this`glanced, this`idCount, this`heldAtPrune
      ensures Contents() == MaybePrune(old(Contents()), true)
    {
      if idCount > ID_LIMIT {
        PruneIds();
      }
    }

    /** The loop that drops from the front of a history. */
    static method KeepLast(full: seq<Message>, limit: nat) returns (list: seq<Message>)
      ensures list == LastN(full, limit)
    {
      list := full;
      while |list| > limit
        invariant |list| <= |full| && list == full[|full| - |list|..]
        invariant LastN(list, limit) == LastN(full, limit)
      {
        list := list[1..];
      }
    }

    method HandleMessage(msg: Option<Message>) returns (accepted: bool)
      modifies this
      ensures accepted <==> Accepts(old(Contents()), msg)
      ensures Contents() == OnMessage(historyLimit, old(Contents()), msg, true)
    {
      if msg.None? || msg.value.event in seen {
        return false;
      }
      var m := msg.value;
      RememberId(m.event);
      Touch(m.room, None, Some(m.ts));
      MoveToFront(m.room);
      var list := if m.room in messages then messages[m.room] else [];
      list := KeepLast(list + [m], historyLimit);
      messages := messages[m.room := list];
      if m.own {
        glanced := glanced + {m.event};
      }
      assert Contents() == Recorded(historyLimit, old(Contents()), m);
      PruneIfDue();
      return true;
    }

    method HandleRoom(room: Option<string>, display: Option<string>, unread: int, lastTs: Option<int>)
      modifies this
      ensures Contents() == OnRoom(old(Contents()), room, display, unread, lastTs)
    {
      if room.None? {
        return;
      }
      Touch(room.value, display, lastTs);
      rooms := rooms[room.value := rooms[room.value].(unread := unread)];
    }

    method HandleHistory(room: string, msgs: seq<Message>)
      modifies this
      ensures Contents() == OnHistory(old(Contents()), room, msgs, true)
    {
      Touch(room, None, None);
      ghost var touched := Contents();
      var list: seq<Message> := [];
      var i := 0;
      while i < |msgs|
        invariant 0 <= i <= |msgs| && list == msgs[..i]
        invariant Contents() == RememberAll(touched, msgs[..i])
      {
        assert msgs[..i + 1][..i] == msgs[..i];
        RememberId(msgs[i].event);
        glanced := glanced + {msgs[i].event};
        list := list + [msgs[i]];
        i := i + 1;
      }
      assert msgs[..i] == msgs;
      messages := messages[room := list];
      PruneIfDue();
    }

    method Glanced(msg: Option<Message>)
      modifies this`glanced
      ensures Contents() == MarkGlanced(old(Contents()), msg)
    {
      if msg.Some? {
        glanced := glanced + {msg.value.event};
      }
    }

    /** The newest candidate; which one among equally new ones depends on the
        order the table is walked in. */
    method NextUnglanced() returns (newest: Option<Message>)
      ensures newest.None? <==> Candidates(Contents()) == {}
      ensures newest.Some? ==> newest.value in Candidates(Contents())
      ensures newest.Some? ==> forall c :: c in Candidates(Contents()) ==> c.ts <= newest.value.ts
    {
      newest := None;
      var todo := messages.Keys;
      while todo != {}
        invariant todo <= messages.Keys
        invariant newest.Some? ==> newest.value in Candidates(Contents())
        invariant forall r :: r in messages && r !in todo && messages[r] != [] ==>
                    var last := messages[r][|messages[r]| - 1];
                    last.event !in glanced ==> newest.Some? && last.ts <= newest.value.ts
      {
        var room :| room in todo;
        todo := todo - {room};
        var list := messages[room];
        if |list| > 0 {
          var msg := list[|list| - 1];
          if msg.event !in glanced {
            assert msg in Candidates(Contents());
            if newest.None? || msg.ts > newest.value.ts {
              newest := Some(msg);
            }
          }
        }
      }
    }
  }

  function Events(ms: seq<Message>): set<string> {
    set k | 0 <= k < |ms| :: ms[k].event
  }

  lemma EventsGrow(ms: seq<Message>, i: nat)
    requires i < |ms|
    ensures Events(ms[..i + 1]) == Events(ms[..i]) + {ms[i].event}
  {
    assert forall k :: 0 <= k < i ==> ms[..i + 1][k] == ms[..i][k];
    assert ms[..i + 1][i] == ms[i];
  }

  function Except(messages: map<string, seq<Message>>, rooms: set<string>): map<string, seq<Message>> {
    map r | r in messages && r !in rooms :: messages[r]
  }

  lemma HeldStep(messages: map<string, seq<Message>>, todo: set<string>, room: string)
    requires room in todo && room in messages
    ensures Held(Except(messages, todo - {room})) == Held(Except(messages, todo)) + Events(messages[room])
  {
    var before, after, list := Except(messages, todo), Except(messages, todo - {room}), messages[room];
    forall e | e in Held(before) ensures e in Held(after) {
      var r, i :| r in before && 0 <= i < |before[r]| && before[r][i].event == e;
      assert after[r][i] == before[r][i];
    }
    forall k | 0 <= k < |list| ensures list[k].event in Held(after) {
      assert after[room][k] == list[k];
    }
  }
}
