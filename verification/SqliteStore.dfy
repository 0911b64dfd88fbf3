/** The file-backed store (internal/store/sqlite.go). */
module SqliteStore {
  import opened Basics
  import opened Model
  import opened Sql
  import MemoryStore

  /** The backwards walk of a query result, turned round in place. */
  method ReverseInPlace(a: array<Message>)
    modifies a
    ensures a[..] == Reverse(old(a[..]))
  {
    var i, j := 0, a.Length - 1;
    while i < j
      invariant 0 <= i <= j + 1 <= a.Length && i + j == a.Length - 1
      invariant forall k :: 0 <= k < i || j < k < a.Length ==> a[k] == old(a[a.Length - 1 - k])
      invariant forall k :: i <= k <= j ==> a[k] == old(a[k])
    {
      a[i], a[j] := a[j], a[i];
      i, j := i + 1, j - 1;
    }
  }

  class SQLite {
    const capacity: nat
    var rows: Table
    var lastSeq: nat
    var markers: map<string, string>

    ghost predicate Valid()
      reads this
    {
      0 < capacity
    }

    ghost function Contents(): Db
      reads this
    {
      Db(rows, lastSeq, markers)
    }

    constructor (wanted: int)
      ensures Valid() && capacity == MemoryStore.EffectiveCapacity(wanted) && Contents() == EMPTY
    {
      capacity := MemoryStore.EffectiveCapacity(wanted);
      rows, lastSeq, markers := [], 0, map[];
    }

    method AppendMessage(m: Message)
      requires Valid()
      modifies this
      ensures Valid() && Contents() == Append(capacity, old(Contents()), m)
    {
      var (db, affected) := InsertOrIgnore(Db(rows, lastSeq, markers), m);
      rows, lastSeq := db.rows, db.lastSeq;
      if affected == 0 {
        return; // a duplicate; nothing to trim
      }
      rows := DeleteOlder(rows, m.room, NthNewest(rows, m.room, capacity - 1));
    }

    method RecentMessages(room: string, limit: int) returns (out: seq<Message>)
      requires Valid()
      ensures out == Recent(Contents(), room, limit)
    {
      var max := if limit <= 0 then -1 else limit;
      var found := Columns(Limit(Newest(rows, room), max));
      var buffer := new Message[|found|](i requires 0 <= i < |found| => found[i]);
      assert buffer[..] == found;
      ReverseInPlace(buffer);
      out := buffer[..];
    }

    method UnreadCount(room: string) returns (n: nat)
      requires Valid()
      ensures n == Unread(Contents(), room)
    {
      n := CountUnreadRows(rows, room, Coalesce(MarkedKey(Db(rows, lastSeq, markers), room), 0));
    }

    method SetReadMarker(room: string, event: string)
      requires Valid()
      modifies this`markers
      ensures Valid() && Contents() == SetMarker(old(Contents()), room, event)
    {
      var target := event;
      if event == "" {
        var newest := Limit(Newest(rows, room), 1);
        if newest == [] {
          return;
        }
        target := newest[0].m.event;
      }
      markers := markers[room := target];
    }
  }
}
