/** Tables as SQLite keeps them, and the handful of query forms the store uses. */
module Sql {
  import opened Basics
  import opened Model

  datatype Row = Row(key: nat, m: Message)

  /** The messages table in the order of its INTEGER PRIMARY KEY. */
  type Table = seq<Row>

  /** Both tables, plus the sqlite_sequence counter behind AUTOINCREMENT. */
  datatype Db = Db(rows: Table, lastSeq: nat, markers: map<string, string>)

  const EMPTY := Db([], 0, map[])

  ghost predicate InKeyOrder(rows: Table) {
    forall i, j :: 0 <= i < j < |rows| ==> rows[i].key < rows[j].key
  }

  /** UNIQUE(room, event). */
  ghost predicate UniqueEvents(rows: Table) {
    forall i, j :: 0 <= i < j < |rows| ==> rows[i].m.room != rows[j].m.room || rows[i].m.event != rows[j].m.event
  }

  /** What the schema guarantees: keys were handed out by the counter from 1
      upwards, and no room holds an event twice. */
  ghost predicate DbValid(db: Db) {
    && (forall i :: 0 <= i < |db.rows| ==> 1 <= db.rows[i].key <= db.lastSeq)
    && InKeyOrder(db.rows)
    && UniqueEvents(db.rows)
  }

  /** The rows of one room, oldest first. */
  function WhereRoom(rows: Table, room: string): Table {
    if rows == [] then [] else
      var rest, last := WhereRoom(rows[..|rows| - 1], room), rows[|rows| - 1];
      if last.m.room == room then rest + [last] else rest
  }

  /** The rows of one room, newest first. */
  function Newest(rows: Table, room: string): Table {
    Reverse(WhereRoom(rows, room))
  }

  /** The scalar subquery of the trim: the key of the row that has `offset` newer
      ones in its room. None stands for NULL. */
  function NthNewest(rows: Table, room: string, offset: nat): Option<nat> {
    var found := Newest(rows, room);
    if offset < |found| then Some(found[offset].key) else None
  }

  /** The trim: the room's rows below the bound go. Comparing with NULL selects
      nothing. */
  function DeleteOlder(rows: Table, room: string, bound: Option<nat>): Table {
    if rows == [] then [] else
      var rest, last := DeleteOlder(rows[..|rows| - 1], room, bound), rows[|rows| - 1];
      if last.m.room == room && bound.Some? && last.key < bound.value then rest else rest + [last]
  }

  /** The key of the row holding this event of this room, if any. */
  function KeyOf(rows: Table, room: string, event: string): Option<nat> {
    if rows == [] then None
    else if rows[|rows| - 1].m.room == room && rows[|rows| - 1].m.event == event then Some(rows[|rows| - 1].key)
    else KeyOf(rows[..|rows| - 1], room, event)
  }

  /** INSERT OR IGNORE: the new database and the number of rows affected. */
  function InsertOrIgnore(db: Db, m: Message): (Db, nat) {
    if KeyOf(db.rows, m.room, m.event).Some? then (db, 0)
    else (db.(rows := db.rows + [Row(db.lastSeq + 1, m)], lastSeq := db.lastSeq + 1), 1)
  }

  /** The row the read marker of a room points at: messages JOIN read_markers
      ON room and event, as a scalar. */
  function MarkedKey(db: Db, room: string): Option<nat> {
    if room in db.markers then KeyOf(db.rows, room, db.markers[room]) else None
  }

  function Coalesce(v: Option<nat>, otherwise: nat): nat {
    match v
    case Some(k) => k
    case None => otherwise
  }

  /** How many rows of the room above the key were not sent by the user. */
  function CountUnreadRows(rows: Table, room: string, after: nat): nat {
    if rows == [] then 0 else
      var last := rows[|rows| - 1];
      CountUnreadRows(rows[..|rows| - 1], room, after)
      + if last.m.room == room && !last.m.own && last.key > after then 1 else 0
  }

  function Columns(rows: Table): (ms: seq<Message>)
    ensures |ms| == |rows|
    ensures forall i :: 0 <= i < |rows| ==> ms[i] == rows[i].m
  {
    seq(|rows|, i requires 0 <= i < |rows| => rows[i].m)
  }

  // The four store operations as compositions of statements.

  function Append(capacity: nat, db: Db, m: Message): Db
    requires 0 < capacity
  {
    var (db', affected) := InsertOrIgnore(db, m);
    if affected == 0 then db'
    else db'.(rows := DeleteOlder(db'.rows, m.room, NthNewest(db'.rows, m.room, capacity - 1)))
  }

  /** LIMIT; a negative one means none. */
  function Limit(rows: Table, limit: int): Table {
    if 0 <= limit < |rows| then rows[..limit] else rows
  }

  function Recent(db: Db, room: string, limit: int): seq<Message> {
    Reverse(Columns(Limit(Newest(db.rows, room), if limit <= 0 then -1 else limit)))
  }

  function Unread(db: Db, room: string): nat {
    CountUnreadRows(db.rows, room, Coalesce(MarkedKey(db, room), 0))
  }

  function SetMarker(db: Db, room: string, event: string): Db {
    if event != "" then db.(markers := db.markers[room := event])
    else
      var newest := Limit(Newest(db.rows, room), 1);
      if newest == [] then db
      else db.(markers := db.markers[room := newest[0].m.event])
  }
}
