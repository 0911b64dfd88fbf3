/** Both stores measured against a log that forgets nothing and remembers how
    far the user has read as a position, not as an event id. */
module UnboundedLog {
  import opened Basics
  import opened Model
  import Mem = MemoryStore
  import Sql
  import opened StoreRefinement

  /** Everything ever accepted in a room, and how much of it has been read. */
  datatype Ideal = Ideal(all: seq<Message>, read: nat)

  type Ideals = map<string, Ideal>

  function At(g: Ideals, room: string): Ideal {
    if room in g then g[room] else Ideal([], 0)
  }

  function IdealStep(g: Ideals, op: Op): Ideals {
    match op
    case AppendOp(m) =>
      var i := At(g, m.room);
      if HasEvent(i.all, m.event) then g else g[m.room := i.(all := i.all + [m])]
    case MarkOp(room, event) =>
      var i := At(g, room);
      g[room := i.(read := if event == "" then |i.all| else MinInt(Mem.IndexOf(i.all, event) + 1, |i.all|))]
    case _ => g
  }

  function IdealAfter(ops: seq<Op>): Ideals {
    if ops == [] then map[]
    else IdealStep(IdealAfter(ops[..|ops| - 1]), ops[|ops| - 1])
  }

  /** Events are named, one that was evicted is never appended again, and
      markers name an event the store holds. */
  ghost predicate Legal(capacity: nat, g: Ideals, op: Op) {
    match op
    case AppendOp(m) =>
      var all := At(g, m.room).all;
      m.event != "" && (HasEvent(all, m.event) ==> HasEvent(LastN(all, capacity), m.event))
    case MarkOp(room, event) =>
      event == "" || HasEvent(LastN(At(g, room).all, capacity), event)
    case _ => true
  }

  ghost predicate LegalRun(capacity: nat, ops: seq<Op>) {
    forall k :: 0 <= k < |ops| ==> Legal(capacity, IdealAfter(ops[..k]), ops[k])
  }

  ghost predicate DistinctNames(ms: seq<Message>) {
    && (forall i, j :: 0 <= i < j < |ms| ==> ms[i].event != ms[j].event)
    && (forall i :: 0 <= i < |ms| ==> ms[i].event != "")
  }

  ghost predicate Tracks(capacity: nat, log: Mem.Log, i: Ideal) {
    && i.read <= |i.all|
    && DistinctNames(i.all)
    && log.messages == LastN(i.all, capacity)
    && log.marker == if i.read == 0 then "" else i.all[i.read - 1].event
  }

  lemma NamedAt(ms: seq<Message>, k: nat)
    requires DistinctNames(ms) && k < |ms|
    ensures Mem.IndexOf(ms, ms[k].event) == k
  {
  }

  lemma SuffixIndex(ms: seq<Message>, cut: nat, event: string)
    requires DistinctNames(ms) && cut <= |ms|
    ensures Mem.IndexOf(ms[cut..], event)
         == if cut <= Mem.IndexOf(ms, event) then Mem.IndexOf(ms, event) - cut else |ms| - cut
  {
    var held, k := ms[cut..], Mem.IndexOf(ms, event);
    if cut <= k < |ms| {
      assert held[k - cut].event == event;
    }
    var h := Mem.IndexOf(held, event);
    if h < |held| {
      assert ms[h + cut].event == event;
      NamedAt(ms, h + cut);
    }
  }

  lemma LastNIsSuffix(ms: seq<Message>, n: nat)
    ensures LastN(ms, n) == ms[MaxInt(0, |ms| - n)..]
  {
  }

  lemma LastNOfLastN(ms: seq<Message>, n: nat, m: Message)
    ensures LastN(LastN(ms, n) + [m], n) == LastN(ms + [m], n)
  {
  }

  lemma AppendTracks(capacity: nat, log: Mem.Log, i: Ideal, m: Message)
    requires 0 < capacity && Tracks(capacity, log, i) && m.event != ""
    requires HasEvent(i.all, m.event) ==> HasEvent(log.messages, m.event)
    ensures HasEvent(i.all, m.event) <==> HasEvent(log.messages, m.event)
    ensures !HasEvent(i.all, m.event) ==>
              Tracks(capacity, log.(messages := LastN(log.messages + [m], capacity)), i.(all := i.all + [m]))
  {
    hide LastN, DistinctNames;
    LastNOfLastN(i.all, capacity, m);
    HeldIsIdeal(capacity, i.all, m.event);
    if !HasEvent(i.all, m.event) {
      FreshStaysDistinct(i.all, m);
    }
  }

  lemma HeldIsIdeal(capacity: nat, all: seq<Message>, event: string)
    ensures HasEvent(LastN(all, capacity), event) ==> HasEvent(all, event)
  {
    LastNIsSuffix(all, capacity);
    if HasEvent(LastN(all, capacity), event) {
      var h :| 0 <= h < |LastN(all, capacity)| && LastN(all, capacity)[h].event == event;
      assert all[h + MaxInt(0, |all| - capacity)].event == event;
    }
  }

  lemma FreshStaysDistinct(all: seq<Message>, m: Message)
    requires DistinctNames(all) && !HasEvent(all, m.event) && m.event != ""
    ensures DistinctNames(all + [m])
  {
  }

  lemma MarkTracks(capacity: nat, log: Mem.Log, i: Ideal, event: string)
    requires 0 < capacity && Tracks(capacity, log, i)
    requires event != "" && HasEvent(log.messages, event)
    ensures Mem.IndexOf(i.all, event) < |i.all|
    ensures Tracks(capacity, log.(marker := event), i.(read := Mem.IndexOf(i.all, event) + 1))
  {
    hide LastN, DistinctNames;
    HeldIsIdeal(capacity, i.all, event);
    HeldIffIndexed(i.all, event);
  }

  lemma MarkAllTracks(capacity: nat, log: Mem.Log, i: Ideal)
    requires 0 < capacity && Tracks(capacity, log, i)
    ensures log.messages == [] <==> i.all == []
    ensures log.messages == [] ==> Tracks(capacity, log, i.(read := |i.all|))
    ensures log.messages != [] ==>
              Tracks(capacity, log.(marker := log.messages[|log.messages| - 1].event), i.(read := |i.all|))
  {
    LastNIsSuffix(i.all, capacity);
  }

  lemma TracksHeld(capacity: nat, log: Mem.Log, i: Ideal)
    requires Tracks(capacity, log, i)
    ensures log.messages == LastN(i.all, capacity)
  {
  }

  lemma StepTracks(capacity: nat, v: Mem.View, g: Ideals, op: Op, room: string)
    requires 0 < capacity && Legal(capacity, g, op)
    requires Tracks(capacity, Mem.LogAt(v, room), At(g, room))
    ensures Tracks(capacity, Mem.LogAt(MemStep(capacity, v, op), room), At(IdealStep(g, op), room))
  {
    hide Tracks, LastN, Mem.IndexOf;
    var log, i := Mem.LogAt(v, room), At(g, room);
    match op
    case AppendOp(m) =>
      if m.room == room {
        TracksHeld(capacity, log, i);
        AppendTracks(capacity, log, i, m);
      }
    case MarkOp(r, event) =>
      if r == room {
        MarkAllTracks(capacity, log, i);
        if event != "" {
          TracksHeld(capacity, log, i);
          MarkTracks(capacity, log, i, event);
        }
      }
    case _ =>
  }

  lemma {:induction false} RunTracks(capacity: nat, ops: seq<Op>, room: string)
    requires 0 < capacity && LegalRun(capacity, ops)
    ensures Tracks(capacity, Mem.LogAt(MemAfter(capacity, ops), room), At(IdealAfter(ops), room))
  {
    if ops != [] {
      var front := ops[..|ops| - 1];
      assert forall k :: 0 <= k < |front| ==> front[..k] == ops[..k];
      RunTracks(capacity, front, room);
      StepTracks(capacity, MemAfter(capacity, front), IdealAfter(front), ops[|ops| - 1], room);
    }
  }

  /** What the unread count should be: the messages not sent by the user, among
      the last `capacity` ever accepted, that come after the read position. */
  function ExpectedUnread(capacity: nat, i: Ideal): nat
    requires i.read <= |i.all|
  {
    CountOther(i.all[MaxInt(i.read, |i.all| - capacity)..])
  }

  lemma TrackedUnread(capacity: nat, log: Mem.Log, i: Ideal)
    requires 0 < capacity && Tracks(capacity, log, i)
    ensures log.messages[Mem.UnreadStart(log)..] == i.all[MaxInt(i.read, |i.all| - capacity)..]
  {
    hide DistinctNames, Mem.IndexOf, LastN;
    var cut := MaxInt(0, |i.all| - capacity);
    LastNIsSuffix(i.all, capacity);
    if i.read > 0 {
      NamesAreNonEmpty(i.all, i.read - 1);
      NamedAt(i.all, i.read - 1);
      SuffixIndex(i.all, cut, log.marker);
    }
  }

  lemma NamesAreNonEmpty(all: seq<Message>, k: nat)
    requires DistinctNames(all) && k < |all|
    ensures all[k].event != ""
  {
  }

  /** Main result: over every legal run both stores count exactly that, even
      once the message the marker points at has been evicted. */
  lemma UnreadIsPositional(capacity: nat, ops: seq<Op>, room: string)
    requires 0 < capacity && LegalRun(capacity, ops)
    ensures At(IdealAfter(ops), room).read <= |At(IdealAfter(ops), room).all|
    ensures Mem.Unread(MemAfter(capacity, ops), room) == ExpectedUnread(capacity, At(IdealAfter(ops), room))
    ensures Sql.Unread(SqlAfter(capacity, ops), room) == ExpectedUnread(capacity, At(IdealAfter(ops), room))
  {
    RunTracks(capacity, ops, room);
    TrackedUnread(capacity, Mem.LogAt(MemAfter(capacity, ops), room), At(IdealAfter(ops), room));
    NextAnswerAgreesIff(capacity, ops, UnreadOp(room));
    NoEmptyMarker(capacity, ops, room);
  }

  lemma NoEmptyMarker(capacity: nat, ops: seq<Op>, room: string)
    requires 0 < capacity && LegalRun(capacity, ops)
    ensures !HiddenByEmptyMarker(SqlAfter(capacity, ops), room)
  {
    RunTracks(capacity, ops, room);
    HistoriesAgree(capacity, ops);
    assert AgreeOn(MemAfter(capacity, ops), SqlAfter(capacity, ops), room);
  }
}
