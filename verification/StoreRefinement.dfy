/** The two stores answer alike, and both answer like a log that forgets nothing. */
module StoreRefinement {
  import opened Basics
  import opened Model
  import Mem = MemoryStore
  import opened Sql

  // ---------- what the statements do to one room's rows ----------

  lemma {:induction false} WhereRoomSelects(rows: Table, room: string)
    ensures forall r :: r in WhereRoom(rows, room) ==> r in rows && r.m.room == room
  {
    if rows != [] {
      WhereRoomSelects(rows[..|rows| - 1], room);
    }
  }

  lemma {:induction false} WhereRoomKeepsOrder(rows: Table, room: string)
    requires InKeyOrder(rows)
    ensures InKeyOrder(WhereRoom(rows, room))
  {
    if rows != [] {
      var front := rows[..|rows| - 1];
      WhereRoomKeepsOrder(front, room);
      WhereRoomSelects(front, room);
      var mine := WhereRoom(front, room);
      assert forall i :: 0 <= i < |mine| ==> mine[i] in front;
    }
  }

  lemma {:induction false} KeyOfIsHeld(rows: Table, room: string, event: string)
    requires InKeyOrder(rows) && UniqueEvents(rows)
    ensures
      var mine := WhereRoom(rows, room);
      var i := Mem.IndexOf(Columns(mine), event);
      KeyOf(rows, room, event) == if i < |mine| then Some(mine[i].key) else None
  {
    if rows != [] {
      var front, last := rows[..|rows| - 1], rows[|rows| - 1];
      KeyOfIsHeld(front, room, event);
      WhereRoomSelects(front, room);
      var before, mine := WhereRoom(front, room), WhereRoom(rows, room);
      var i, j := Mem.IndexOf(Columns(before), event), Mem.IndexOf(Columns(mine), event);
      if i < |before| {
        assert before[i] in before && before[i] in front && Columns(mine)[i].event == event;
        assert j == i;
      } else if last.m.room == room && last.m.event == event {
        assert Columns(mine)[|before|].event == event;
        assert j == |before|;
      }
    }
  }

  lemma WhereRoomAppend(rows: Table, r: Row, room: string)
    ensures WhereRoom(rows + [r], room) == WhereRoom(rows, room) + if r.m.room == room then [r] else []
  {
    assert (rows + [r])[..|rows|] == rows;
  }

  /** Deleting in one room touches no other. */
  lemma {:induction false} DeleteKeepsOthers(rows: Table, room: string, bound: Option<nat>, other: string)
    requires other != room || bound.None?
    ensures WhereRoom(DeleteOlder(rows, room, bound), other) == WhereRoom(rows, other)
  {
    if rows != [] {
      var front, last := rows[..|rows| - 1], rows[|rows| - 1];
      DeleteKeepsOthers(front, room, bound, other);
      WhereRoomAppend(DeleteOlder(front, room, bound), last, other);
    }
  }

  /** Deleting below the key at index i leaves the rows from i on. */
  lemma {:induction false} DeleteKeepsSuffix(rows: Table, room: string, bound: nat, i: nat)
    requires i <= |WhereRoom(rows, room)|
    requires forall j :: 0 <= j < i ==> WhereRoom(rows, room)[j].key < bound
    requires forall j :: i <= j < |WhereRoom(rows, room)| ==> WhereRoom(rows, room)[j].key >= bound
    ensures WhereRoom(DeleteOlder(rows, room, Some(bound)), room) == WhereRoom(rows, room)[i..]
  {
    if rows != [] {
      var front, last := rows[..|rows| - 1], rows[|rows| - 1];
      var before, mine := WhereRoom(front, room), WhereRoom(rows, room);
      if last.m.room == room {
        assert mine == before + [last] && mine[|before|] == last;
        assert forall j :: 0 <= j < |before| ==> before[j] == mine[j];
      }
      DeleteKeepsSuffix(front, room, bound, MinInt(i, |before|));
      WhereRoomAppend(DeleteOlder(front, room, Some(bound)), last, room);
      if last.m.room == room && i <= |before| {
        assert mine[i..] == before[i..] + [last];
      } else if last.m.room == room {
        assert mine[i..] == [] && before[|before|..] == [];
      } else {
        assert mine == before && MinInt(i, |before|) == i;
      }
    }
  }

  lemma {:induction false} DeleteKeepsValid(rows: Table, room: string, bound: Option<nat>)
    ensures forall r :: r in DeleteOlder(rows, room, bound) ==> r in rows
    ensures InKeyOrder(rows) ==> InKeyOrder(DeleteOlder(rows, room, bound))
    ensures UniqueEvents(rows) ==> UniqueEvents(DeleteOlder(rows, room, bound))
  {
    if rows != [] {
      var front := rows[..|rows| - 1];
      DeleteKeepsValid(front, room, bound);
      var kept := DeleteOlder(front, room, bound);
      assert forall i :: 0 <= i < |kept| ==> kept[i] in front;
    }
  }

  /** Rows with a key above the one at index start - 1 are those from start on. */
  lemma {:induction false} CountFromIndex(rows: Table, room: string, after: nat, start: nat)
    requires start <= |WhereRoom(rows, room)|
    requires forall j :: 0 <= j < start ==> WhereRoom(rows, room)[j].key <= after
    requires forall j :: start <= j < |WhereRoom(rows, room)| ==> WhereRoom(rows, room)[j].key > after
    ensures CountUnreadRows(rows, room, after) == CountOther(Columns(WhereRoom(rows, room)[start..]))
  {
    if rows != [] {
      var front, last := rows[..|rows| - 1], rows[|rows| - 1];
      var before, mine := WhereRoom(front, room), WhereRoom(rows, room);
      if last.m.room == room {
        assert mine == before + [last] && mine[|before|] == last;
        assert forall j :: 0 <= j < |before| ==> before[j] == mine[j];
      }
      CountFromIndex(front, room, after, MinInt(start, |before|));
      var tail := Columns(mine[start..]);
      if last.m.room == room && start <= |before| {
        assert tail[..|tail| - 1] == Columns(before[start..]);
        assert tail[|tail| - 1] == last.m;
      } else if last.m.room == room {
        assert tail == [] && Columns(before[|before|..]) == [];
      } else {
        assert mine == before && MinInt(start, |before|) == start;
      }
    }
  }

  // ---------- the relation ----------

  /** The rows of a room in seq order. */
  function RoomRows(rows: Table, room: string): seq<Message> {
    Columns(WhereRoom(rows, room))
  }

  function MarkerAt(db: Db, room: string): string {
    if room in db.markers then db.markers[room] else ""
  }

  /** The rows of every room in seq order are the memory log of that room, and
      a missing marker row is the memory store's empty marker. */
  ghost predicate Agree(v: Mem.View, db: Db) {
    forall room :: AgreeOn(v, db, room)
  }

  ghost predicate AgreeOn(v: Mem.View, db: Db, room: string) {
    && Mem.LogAt(v, room).messages == RoomRows(db.rows, room)
    && Mem.LogAt(v, room).marker == MarkerAt(db, room)
  }

  lemma InsertAppendsRow(rows: Table, row: Row, room: string)
    ensures RoomRows(rows + [row], room) == RoomRows(rows, room) + if row.m.room == room then [row.m] else []
  {
    WhereRoomAppend(rows, row, room);
  }

  lemma TrimKeepsNewest(rows: Table, room: string, capacity: nat, other: string)
    requires 0 < capacity && InKeyOrder(rows)
    ensures RoomRows(DeleteOlder(rows, room, NthNewest(rows, room, capacity - 1)), other)
         == if other == room then LastN(RoomRows(rows, room), capacity) else RoomRows(rows, other)
  {
    hide WhereRoom, DeleteOlder, InKeyOrder, NthNewest;
    var bound, mine := NthNewest(rows, room, capacity - 1), WhereRoom(rows, room);
    if other == room && bound.Some? {
      NthNewestSplits(rows, room, capacity);
      DeleteKeepsSuffix(rows, room, bound.value, |mine| - capacity);
      ColumnsSuffix(mine, |mine| - capacity);
    } else if other == room {
      NoneToDelete(rows, room, capacity);
      DeleteKeepsOthers(rows, room, bound, other);
    } else {
      DeleteKeepsOthers(rows, room, bound, other);
    }
  }

  lemma NoneToDelete(rows: Table, room: string, capacity: nat)
    requires 0 < capacity && NthNewest(rows, room, capacity - 1).None?
    ensures |RoomRows(rows, room)| < capacity
  {
    hide WhereRoom;
  }

  lemma NthNewestSplits(rows: Table, room: string, capacity: nat)
    requires 0 < capacity && InKeyOrder(rows) && NthNewest(rows, room, capacity - 1).Some?
    ensures var mine, bound := WhereRoom(rows, room), NthNewest(rows, room, capacity - 1).value;
      && capacity <= |mine|
      && (forall j :: 0 <= j < |mine| - capacity ==> mine[j].key < bound)
      && (forall j :: |mine| - capacity <= j < |mine| ==> mine[j].key >= bound)
  {
    hide WhereRoom;
    WhereRoomKeepsOrder(rows, room);
  }

  lemma ColumnsSuffix(rows: Table, i: nat)
    requires i <= |rows|
    ensures Columns(rows[i..]) == Columns(rows)[i..]
  {
  }

  lemma HeldIffIndexed(ms: seq<Message>, event: string)
    ensures HasEvent(ms, event) <==> Mem.IndexOf(ms, event) < |ms|
  {
  }

  lemma {:induction false} NoKeyNoRow(rows: Table, room: string, event: string)
    requires KeyOf(rows, room, event).None?
    ensures forall i :: 0 <= i < |rows| ==> rows[i].m.room != room || rows[i].m.event != event
  {
    if rows != [] {
      NoKeyNoRow(rows[..|rows| - 1], room, event);
    }
  }

  lemma AppendKeepsValid(capacity: nat, db: Db, m: Message)
    requires 0 < capacity && DbValid(db)
    ensures DbValid(Append(capacity, db, m))
  {
    hide KeyOf, DeleteOlder, NthNewest, DbValid;
    if KeyOf(db.rows, m.room, m.event).None? {
      var inserted := db.(rows := db.rows + [Row(db.lastSeq + 1, m)], lastSeq := db.lastSeq + 1);
      InsertKeepsValid(db, m);
      TrimKeepsValid(inserted, m.room, NthNewest(inserted.rows, m.room, capacity - 1));
    }
  }

  lemma InsertKeepsValid(db: Db, m: Message)
    requires DbValid(db) && KeyOf(db.rows, m.room, m.event).None?
    ensures DbValid(db.(rows := db.rows + [Row(db.lastSeq + 1, m)], lastSeq := db.lastSeq + 1))
  {
    hide KeyOf;
    NoKeyNoRow(db.rows, m.room, m.event);
  }

  lemma TrimKeepsValid(db: Db, room: string, bound: Option<nat>)
    requires DbValid(db)
    ensures DbValid(db.(rows := DeleteOlder(db.rows, room, bound)))
  {
    hide DeleteOlder, InKeyOrder, UniqueEvents;
    var kept := DeleteOlder(db.rows, room, bound);
    DeleteKeepsValid(db.rows, room, bound);
    assert forall i :: 0 <= i < |kept| ==> kept[i] in db.rows;
  }

  lemma AppendRefinesOn(capacity: nat, v: Mem.View, db: Db, m: Message, room: string)
    requires 0 < capacity && DbValid(db)
    requires AgreeOn(v, db, m.room) && AgreeOn(v, db, room)
    ensures AgreeOn(Mem.Append(capacity, v, m), Append(capacity, db, m), room)
  {
    hide KeyOf, DeleteOlder, NthNewest, WhereRoom, Mem.IndexOf, InKeyOrder, UniqueEvents;
    KeyOfIsHeld(db.rows, m.room, m.event);
    HeldIffIndexed(RoomRows(db.rows, m.room), m.event);
    if KeyOf(db.rows, m.room, m.event).None? {
      var row := Row(db.lastSeq + 1, m);
      InsertAppendsRow(db.rows, row, room);
      InsertAppendsRow(db.rows, row, m.room);
      InsertKeepsValid(db, m);
      TrimKeepsNewest(db.rows + [row], m.room, capacity, room);
    }
  }

  lemma AppendRefines(capacity: nat, v: Mem.View, db: Db, m: Message)
    requires 0 < capacity && DbValid(db) && Agree(v, db)
    ensures DbValid(Append(capacity, db, m))
    ensures Agree(Mem.Append(capacity, v, m), Append(capacity, db, m))
  {
    AppendKeepsValid(capacity, db, m);
    assert AgreeOn(v, db, m.room);
    forall room
      ensures AgreeOn(Mem.Append(capacity, v, m), Append(capacity, db, m), room)
    {
      assert AgreeOn(v, db, room);
      AppendRefinesOn(capacity, v, db, m, room);
    }
  }

  lemma SetMarkerRefines(v: Mem.View, db: Db, room: string, event: string)
    requires DbValid(db) && Agree(v, db)
    ensures DbValid(SetMarker(db, room, event))
    ensures Agree(Mem.SetMarker(v, room, event), SetMarker(db, room, event))
  {
    hide WhereRoom;
    assert AgreeOn(v, db, room);
    forall r
      ensures AgreeOn(Mem.SetMarker(v, room, event), SetMarker(db, room, event), r)
    {
      assert AgreeOn(v, db, r);
    }
  }

  lemma RecentIsTail(db: Db, room: string, limit: int)
    ensures Recent(db, room, limit)
         == if limit <= 0 then RoomRows(db.rows, room) else LastN(RoomRows(db.rows, room), limit)
  {
  }

  // ---------- unread ----------

  /** Keys start at 1, so the default for a missing key, 0, is below every row. */
  lemma KeysArePositive(db: Db, room: string)
    requires DbValid(db)
    ensures forall j :: 0 <= j < |WhereRoom(db.rows, room)| ==> 0 < WhereRoom(db.rows, room)[j].key
  {
    var mine := WhereRoom(db.rows, room);
    WhereRoomSelects(db.rows, room);
    forall j | 0 <= j < |mine| ensures 0 < mine[j].key {
      assert mine[j] in mine;
    }
  }

  lemma OrderSplits(rows: Table, i: nat)
    requires InKeyOrder(rows) && i < |rows|
    ensures forall j :: 0 <= j < i + 1 ==> rows[j].key <= rows[i].key
    ensures forall j :: i + 1 <= j < |rows| ==> rows[j].key > rows[i].key
  {
  }

  /** The SQL count, read off the room's listing. */
  lemma UnreadReadsListing(db: Db, room: string)
    requires DbValid(db)
    ensures
      var ms := RoomRows(db.rows, room);
      Unread(db, room) ==
        if room in db.markers && HasEvent(ms, db.markers[room])
        then CountOther(ms[Mem.IndexOf(ms, db.markers[room]) + 1..])
        else CountOther(ms)
  {
    hide KeyOf, WhereRoom, CountUnreadRows, CountOther, Mem.IndexOf;
    var mine, ms := WhereRoom(db.rows, room), RoomRows(db.rows, room);
    if room in db.markers {
      KeyOfIsHeld(db.rows, room, db.markers[room]);
      HeldIffIndexed(ms, db.markers[room]);
    }
    if room in db.markers && HasEvent(ms, db.markers[room]) {
      var i := Mem.IndexOf(ms, db.markers[room]);
      WhereRoomKeepsOrder(db.rows, room);
      OrderSplits(mine, i);
      CountFromIndex(db.rows, room, mine[i].key, i + 1);
      ColumnsSuffix(mine, i + 1);
    } else {
      KeysArePositive(db, room);
      CountFromIndex(db.rows, room, 0, 0);
      assert mine[0..] == mine;
    }
  }

  /** The one situation the stores tell apart: a message with an empty event id
      was marked read by "mark everything". SQLite then has a marker row that
      joins; the memory store reads its empty marker as "none". */
  ghost predicate HiddenByEmptyMarker(db: Db, room: string) {
    var ms := RoomRows(db.rows, room);
    && room in db.markers && db.markers[room] == ""
    && HasEvent(ms, "")
    && 0 < CountOther(ms[..Mem.IndexOf(ms, "") + 1])
  }

  lemma UnreadAgreesIff(v: Mem.View, db: Db, room: string)
    requires DbValid(db) && Agree(v, db)
    ensures Mem.Unread(v, room) == Unread(db, room) <==> !HiddenByEmptyMarker(db, room)
  {
    hide WhereRoom, Unread, CountOther, Mem.IndexOf, DbValid;
    NobodyCounts();
    var ms := RoomRows(db.rows, room);
    assert AgreeOn(v, db, room);
    UnreadReadsListing(db, room);
    HeldIffIndexed(ms, Mem.LogAt(v, room).marker);
    assert ms[0..] == ms;
    if room in db.markers && HasEvent(ms, db.markers[room]) {
      OthersEitherSide(ms, Mem.IndexOf(ms, db.markers[room]) + 1);
    }
  }

  lemma OthersEitherSide(ms: seq<Message>, k: nat)
    requires k <= |ms|
    ensures CountOther(ms) == CountOther(ms[..k]) + CountOther(ms[k..])
  {
    assert ms == ms[..k] + ms[k..];
    CountOtherConcat(ms[..k], ms[k..]);
  }

  lemma NobodyCounts()
    ensures CountOther([]) == 0
  {
  }

  // ---------- whole histories ----------

  datatype Op =
    | AppendOp(m: Message)
    | MarkOp(room: string, event: string)
    | RecentOp(room: string, limit: int)
    | UnreadOp(room: string)

  datatype Answer = Done | Messages(ms: seq<Message>) | Count(n: nat)

  function MemStep(capacity: nat, v: Mem.View, op: Op): Mem.View {
    match op
    case AppendOp(m) => Mem.Append(capacity, v, m)
    case MarkOp(room, event) => Mem.SetMarker(v, room, event)
    case _ => v
  }

  function MemAnswer(v: Mem.View, op: Op): Answer {
    match op
    case RecentOp(room, limit) => Messages(Mem.Recent(v, room, limit))
    case UnreadOp(room) => Count(Mem.Unread(v, room))
    case _ => Done
  }

  function SqlStep(capacity: nat, db: Db, op: Op): Db
    requires 0 < capacity
  {
    match op
    case AppendOp(m) => Append(capacity, db, m)
    case MarkOp(room, event) => SetMarker(db, room, event)
    case _ => db
  }

  function SqlAnswer(db: Db, op: Op): Answer {
    match op
    case RecentOp(room, limit) => Messages(Recent(db, room, limit))
    case UnreadOp(room) => Count(Unread(db, room))
    case _ => Done
  }

  function MemAfter(capacity: nat, ops: seq<Op>): Mem.View {
    if ops == [] then map[]
    else MemStep(capacity, MemAfter(capacity, ops[..|ops| - 1]), ops[|ops| - 1])
  }

  function SqlAfter(capacity: nat, ops: seq<Op>): Db
    requires 0 < capacity
  {
    if ops == [] then EMPTY
    else SqlStep(capacity, SqlAfter(capacity, ops[..|ops| - 1]), ops[|ops| - 1])
  }

  lemma {:induction false} HistoriesAgree(capacity: nat, ops: seq<Op>)
    requires 0 < capacity
    ensures DbValid(SqlAfter(capacity, ops))
    ensures Agree(MemAfter(capacity, ops), SqlAfter(capacity, ops))
  {
    if ops == [] {
    } else {
      HistoriesAgree(capacity, ops[..|ops| - 1]);
      var v, db := MemAfter(capacity, ops[..|ops| - 1]), SqlAfter(capacity, ops[..|ops| - 1]);
      match ops[|ops| - 1]
      case AppendOp(m) =>
        AppendRefines(capacity, v, db, m);
      case MarkOp(room, event) => SetMarkerRefines(v, db, room, event);
      case _ =>
    }
  }

  /** After any history whatever, the next answer is the same unless it is an
      unread count hidden by an empty marker, and then it differs. */
  lemma NextAnswerAgreesIff(capacity: nat, ops: seq<Op>, next: Op)
    requires 0 < capacity
    ensures MemAnswer(MemAfter(capacity, ops), next) == SqlAnswer(SqlAfter(capacity, ops), next)
       <==> !(next.UnreadOp? && HiddenByEmptyMarker(SqlAfter(capacity, ops), next.room))
  {
    var v, db := MemAfter(capacity, ops), SqlAfter(capacity, ops);
    HistoriesAgree(capacity, ops);
    match next
    case RecentOp(room, limit) =>
      RecentIsTail(db, room, limit);
      assert AgreeOn(v, db, room);
    case UnreadOp(room) => UnreadAgreesIff(v, db, room);
    case _ =>
  }

  ghost predicate NamedEvents(ops: seq<Op>) {
    forall i :: 0 <= i < |ops| && ops[i].AppendOp? ==> ops[i].m.event != ""
  }

  lemma {:induction false} NamedEventsHeld(capacity: nat, ops: seq<Op>, room: string)
    requires NamedEvents(ops)
    ensures !HasEvent(Mem.LogAt(MemAfter(capacity, ops), room).messages, "")
  {
    if ops != [] {
      NamedEventsHeld(capacity, ops[..|ops| - 1], room);
    }
  }

  /** Main result: with equal capacities and non-empty event ids, no history of
      calls can tell the two stores apart. */
  lemma StoresIndistinguishable(wanted: int, ops: seq<Op>, next: Op)
    requires NamedEvents(ops)
    ensures
      var capacity := Mem.EffectiveCapacity(wanted);
      MemAnswer(MemAfter(capacity, ops), next) == SqlAnswer(SqlAfter(capacity, ops), next)
  {
    var capacity := Mem.EffectiveCapacity(wanted);
    NextAnswerAgreesIff(capacity, ops, next);
    HistoriesAgree(capacity, ops);
    if next.UnreadOp? {
      NamedEventsHeld(capacity, ops, next.room);
      assert AgreeOn(MemAfter(capacity, ops), SqlAfter(capacity, ops), next.room);
    }
  }

  /** Without the condition they can: one unnamed message, then "mark all". */
  lemma UnnamedEventTellsThemApart(m: Message)
    requires m.event == "" && !m.own
    ensures
      var ops := [AppendOp(m), MarkOp(m.room, "")];
      MemAnswer(MemAfter(500, ops), UnreadOp(m.room)) != SqlAnswer(SqlAfter(500, ops), UnreadOp(m.room))
  {
    hide MemAfter, SqlAfter, MemAnswer, SqlAnswer, HiddenByEmptyMarker;
    var x, y := AppendOp(m), MarkOp(m.room, "");
    var ops := [x, y];
    assert [] + [x] == [x] && [x] + [y] == ops;
    AfterSnoc(500, [], x);
    AfterSnoc(500, [x], y);
    HistoriesAgree(500, [x]);
    HistoriesAgree(500, ops);
    assert [] + [m] == [m];
    assert Mem.LogAt(MemAfter(500, [x]), m.room).messages == [m];
    assert AgreeOn(MemAfter(500, [x]), SqlAfter(500, [x]), m.room);
    MarkedUnnamed(SqlAfter(500, [x]), m);
    NextAnswerAgreesIff(500, ops, UnreadOp(m.room));
  }

  lemma AfterSnoc(capacity: nat, ops: seq<Op>, op: Op)
    requires 0 < capacity
    ensures MemAfter(capacity, ops + [op]) == MemStep(capacity, MemAfter(capacity, ops), op)
    ensures SqlAfter(capacity, ops + [op]) == SqlStep(capacity, SqlAfter(capacity, ops), op)
    ensures MemAfter(capacity, []) == map[] && SqlAfter(capacity, []) == EMPTY
  {
    hide MemStep, SqlStep;
    assert (ops + [op])[..|ops|] == ops;
  }

  /** "Mark all" on a room that holds only an unnamed message. */
  lemma MarkedUnnamed(db: Db, m: Message)
    requires RoomRows(db.rows, m.room) == [m] && m.event == "" && !m.own
    ensures HiddenByEmptyMarker(SetMarker(db, m.room, ""), m.room)
  {
    assert WhereRoom(db.rows, m.room) != [];
    assert [m][..1] == [m] && [m][..0] == [] && [m][0].event == "";
    assert Mem.IndexOf([m], "") == 0 && CountOther([m]) == 1;
  }
}
