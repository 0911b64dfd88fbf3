/** The frontend's state told from the events alone: which room is active, what
    each room's history, name, time and unread count are, which messages are new
    and which have been shown. */
module FrontendRuns {
  import opened Basics
  import opened Model
  import opened FrontendState
  import opened FrontendDedup

  /** The room an operation mentions, in the state it meets. */
  function Mentioned(v: View, op: Op): Option<string> {
    match op
    case Arrive(msg) => if Accepts(v, msg) then Some(msg.value.room) else None
    case RoomEvent(of, _, _, _) => of
    case HistoryReply(room, _) => Some(room)
    case _ => None
  }

  predicate ArrivesIn(v: View, op: Op, room: string) {
    op.Arrive? && Accepts(v, op.msg) && op.msg.value.room == room
  }

  // ---------- the order of the rooms ----------

  /** When a room's last accepted message arrived, or -1; a reset starts over. */
  function LastArrival(limit: nat, ops: seq<Op>, pruning: bool, room: string): (k: int)
    ensures -1 <= k < |ops|
  {
    if ops == [] then -1
    else
      var front, op := ops[..|ops| - 1], ops[|ops| - 1];
      if op.Reset? then -1
      else if ArrivesIn(After(limit, front, pruning), op, room) then |front|
      else LastArrival(limit, front, pruning, room)
  }

  /** When a room was first mentioned, or -1. */
  function FirstMention(limit: nat, ops: seq<Op>, pruning: bool, room: string): (k: int)
    ensures -1 <= k < |ops|
  {
    if ops == [] then -1
    else
      var front, op := ops[..|ops| - 1], ops[|ops| - 1];
      var before := FirstMention(limit, front, pruning, room);
      if op.Reset? then -1
      else if before >= 0 then before
      else if Mentioned(After(limit, front, pruning), op) == Some(room) then |front|
      else -1
  }

  predicate Ahead(limit: nat, ops: seq<Op>, pruning: bool, a: string, b: string) {
    var x, y := LastArrival(limit, ops, pruning, a), LastArrival(limit, ops, pruning, b);
    x > y || (x == -1 && y == -1 && FirstMention(limit, ops, pruning, a) < FirstMention(limit, ops, pruning, b))
  }

  ghost predicate Ranked(limit: nat, ops: seq<Op>, pruning: bool, order: seq<string>) {
    forall i, j :: 0 <= i < j < |order| ==> Ahead(limit, ops, pruning, order[i], order[j])
  }

  ghost predicate Known(limit: nat, ops: seq<Op>, pruning: bool, v: View) {
    && (forall r :: r in v.rooms <==> FirstMention(limit, ops, pruning, r) >= 0)
    && (forall r :: LastArrival(limit, ops, pruning, r) >= 0 ==> r in v.rooms)
  }

  lemma Snoc(limit: nat, ops: seq<Op>, op: Op, pruning: bool, room: string)
    ensures var v := After(limit, ops, pruning);
      && After(limit, ops + [op], pruning) == Step(limit, v, op, pruning)
      && LastArrival(limit, ops + [op], pruning, room) ==
           (if op.Reset? then -1
            else if ArrivesIn(v, op, room) then |ops| else LastArrival(limit, ops, pruning, room))
      && FirstMention(limit, ops + [op], pruning, room) ==
           (if op.Reset? then -1
            else if FirstMention(limit, ops, pruning, room) >= 0 then FirstMention(limit, ops, pruning, room)
            else if Mentioned(v, op) == Some(room) then |ops| else -1)
  {
    hide Step, Accepts;
    assert (ops + [op])[..|ops|] == ops;
  }

  /** A step that concerns neither room keeps them as they stand. */
  lemma AheadKept(limit: nat, ops: seq<Op>, op: Op, pruning: bool, a: string, b: string)
    requires Ahead(limit, ops, pruning, a, b) && !op.Reset?
    requires var v := After(limit, ops, pruning); !ArrivesIn(v, op, a) && !ArrivesIn(v, op, b)
    requires FirstMention(limit, ops, pruning, a) >= 0 && FirstMention(limit, ops, pruning, b) >= 0
    ensures Ahead(limit, ops + [op], pruning, a, b)
  {
    hide After, LastArrival, FirstMention, ArrivesIn, Mentioned;
    Snoc(limit, ops, op, pruning, a);
    Snoc(limit, ops, op, pruning, b);
  }

  lemma {:induction false} WithoutRanked(limit: nat, ops: seq<Op>, pruning: bool, order: seq<string>, id: string)
    requires Ranked(limit, ops, pruning, order)
    ensures Ranked(limit, ops, pruning, Without(order, id))
    ensures forall r :: r in Without(order, id) ==> r in order
  {
    hide Ahead;
    if order != [] && order[0] != id {
      var rest := order[1..];
      WithoutRanked(limit, ops, pruning, rest, id);
      var w := Without(rest, id);
      assert Without(order, id) == [order[0]] + w;
      forall j | 0 <= j < |w|
        ensures Ahead(limit, ops, pruning, order[0], w[j])
      {
        assert w[j] in rest;
        var k :| 0 <= k < |rest| && rest[k] == w[j];
        assert order[k + 1] == w[j];
      }
    }
  }

  lemma StepKnown(limit: nat, ops: seq<Op>, op: Op, pruning: bool)
    requires Known(limit, ops, pruning, After(limit, ops, pruning))
    ensures Known(limit, ops + [op], pruning, After(limit, ops + [op], pruning))
  {
    hide LastArrival, FirstMention, After;
    var v, w := After(limit, ops, pruning), After(limit, ops + [op], pruning);
    RoomsGrow(limit, v, op, pruning);
    forall r
      ensures r in w.rooms <==> FirstMention(limit, ops + [op], pruning, r) >= 0
      ensures LastArrival(limit, ops + [op], pruning, r) >= 0 ==> r in w.rooms
    {
      Snoc(limit, ops, op, pruning, r);
    }
  }

  lemma RoomsGrow(limit: nat, v: View, op: Op, pruning: bool)
    ensures var w := Step(limit, v, op, pruning);
      if op.Reset? then w.rooms == map[]
      else w.rooms.Keys == v.rooms.Keys + if Mentioned(v, op).Some? then {Mentioned(v, op).value} else {}
  {
    if op.HistoryReply? {
      RememberAllKeeps(TouchRoom(v, op.room, None, None), op.msgs);
    }
  }

  /** What a step does to the order. */
  lemma OrderStep(limit: nat, v: View, op: Op, pruning: bool)
    ensures var w := Step(limit, v, op, pruning);
      match op
      case Arrive(msg) =>
        if Accepts(v, msg) then w.order == [msg.value.room] + Without(Listed(v, msg.value.room), msg.value.room)
        else w.order == v.order
      case Reset => w.order == []
      case _ => w.order == if Mentioned(v, op).Some? then Listed(v, Mentioned(v, op).value) else v.order
  {
    if op.HistoryReply? {
      RememberAllKeeps(TouchRoom(v, op.room, None, None), op.msgs);
    }
  }

  function Listed(v: View, room: string): seq<string> {
    if room in v.rooms then v.order else v.order + [room]
  }

  /** A room mentioned for the first time goes behind all others. */
  lemma ListedRanked(limit: nat, ops: seq<Op>, op: Op, pruning: bool, room: string)
    requires var v := After(limit, ops, pruning);
      && Known(limit, ops, pruning, v) && Listing(v) && Ranked(limit, ops, pruning, v.order)
      && Mentioned(v, op) == Some(room) && !op.Arrive?
    ensures Ranked(limit, ops + [op], pruning, Listed(After(limit, ops, pruning), room))
  {
    hide After, LastArrival, FirstMention;
    var v := After(limit, ops, pruning);
    var order := Listed(v, room);
    Snoc(limit, ops, op, pruning, room);
    forall i, j | 0 <= i < j < |order|
      ensures Ahead(limit, ops + [op], pruning, order[i], order[j])
    {
      assert order[i] in v.order;
      if j < |v.order| {
        assert order[j] in v.order;
        AheadKept(limit, ops, op, pruning, order[i], order[j]);
      } else {
        Snoc(limit, ops, op, pruning, order[i]);
      }
    }
  }

  /** A room with a new message goes in front of all others. */
  lemma ArrivalRanked(limit: nat, ops: seq<Op>, m: Message, pruning: bool)
    requires var v := After(limit, ops, pruning);
      && Known(limit, ops, pruning, v) && Listing(v) && Ranked(limit, ops, pruning, v.order) && Accepts(v, Some(m))
    ensures var v := After(limit, ops, pruning);
      Ranked(limit, ops + [Arrive(Some(m))], pruning, [m.room] + Without(Listed(v, m.room), m.room))
  {
    hide After, LastArrival, FirstMention, Ahead, Accepts, Known;
    var v := After(limit, ops, pruning);
    var rest := Without(v.order, m.room);
    WithoutRanked(limit, ops, pruning, v.order, m.room);
    WithoutIsShorter(v.order, m.room);
    WithoutNew(v, m.room);
    hide Without, Listing, Ranked;
    forall j | 0 <= j < |rest|
      ensures Ahead(limit, ops + [Arrive(Some(m))], pruning, m.room, rest[j])
    {
      assert rest[j] in rest;
      ArrivalAhead(limit, ops, m, pruning, rest[j]);
    }
    forall i, j | 0 <= i < j < |rest|
      ensures Ahead(limit, ops + [Arrive(Some(m))], pruning, rest[i], rest[j])
    {
      KeptAhead(limit, ops, m, pruning, rest, i, j);
    }
    FrontRanked(limit, ops + [Arrive(Some(m))], pruning, m.room, rest);
  }

  lemma FrontRanked(limit: nat, ops: seq<Op>, pruning: bool, room: string, rest: seq<string>)
    requires forall j :: 0 <= j < |rest| ==> Ahead(limit, ops, pruning, room, rest[j])
    requires forall i, j :: 0 <= i < j < |rest| ==> Ahead(limit, ops, pruning, rest[i], rest[j])
    ensures Ranked(limit, ops, pruning, [room] + rest)
  {
    hide Ahead;
    var order := [room] + rest;
    forall i, j | 0 <= i < j < |order|
      ensures Ahead(limit, ops, pruning, order[i], order[j])
    {
      assert order[j] == rest[j - 1] && order[i] == if i == 0 then room else rest[i - 1];
    }
  }

  lemma ArrivalAhead(limit: nat, ops: seq<Op>, m: Message, pruning: bool, b: string)
    requires Accepts(After(limit, ops, pruning), Some(m)) && b != m.room
    ensures Ahead(limit, ops + [Arrive(Some(m))], pruning, m.room, b)
  {
    hide After, LastArrival, FirstMention;
    Snoc(limit, ops, Arrive(Some(m)), pruning, m.room);
    Snoc(limit, ops, Arrive(Some(m)), pruning, b);
  }

  lemma KeptAhead(limit: nat, ops: seq<Op>, m: Message, pruning: bool, rest: seq<string>, i: nat, j: nat)
    requires var v := After(limit, ops, pruning);
      && Known(limit, ops, pruning, v) && Listing(v) && Accepts(v, Some(m))
      && Ranked(limit, ops, pruning, rest) && (forall r :: r in rest ==> r in v.order && r != m.room)
    requires i < j < |rest|
    ensures Ahead(limit, ops + [Arrive(Some(m))], pruning, rest[i], rest[j])
  {
    hide After, LastArrival, FirstMention;
    assert rest[i] in rest && rest[j] in rest;
    AheadKept(limit, ops, Arrive(Some(m)), pruning, rest[i], rest[j]);
  }

  lemma WithoutNew(v: View, room: string)
    requires Listing(v)
    ensures Without(Listed(v, room), room) == Without(v.order, room)
  {
    if room !in v.rooms {
      WithoutLast(v.order, room);
    }
  }

  lemma {:induction false} WithoutLast(order: seq<string>, id: string)
    requires id !in order
    ensures Without(order + [id], id) == Without(order, id)
  {
    if order == [] {
      assert Without([id], id) == [];
    } else {
      assert order[0] != id && (order + [id])[1..] == order[1..] + [id];
      WithoutLast(order[1..], id);
    }
  }

  lemma OthersRanked(limit: nat, ops: seq<Op>, op: Op, pruning: bool)
    requires var v := After(limit, ops, pruning);
      && Known(limit, ops, pruning, v) && Listing(v) && Ranked(limit, ops, pruning, v.order)
      && Mentioned(v, op).None? && !op.Reset?
    ensures Ranked(limit, ops + [op], pruning, After(limit, ops, pruning).order)
  {
    hide After, LastArrival, FirstMention;
    var v := After(limit, ops, pruning);
    forall i, j | 0 <= i < j < |v.order|
      ensures Ahead(limit, ops + [op], pruning, v.order[i], v.order[j])
    {
      assert v.order[i] in v.order && v.order[j] in v.order;
      AheadKept(limit, ops, op, pruning, v.order[i], v.order[j]);
    }
  }

  lemma {:induction false} RunRanked(limit: nat, ops: seq<Op>, pruning: bool)
    ensures var v := After(limit, ops, pruning);
      Known(limit, ops, pruning, v) && Ranked(limit, ops, pruning, v.order)
  {
    if ops != [] {
      var front, op := ops[..|ops| - 1], ops[|ops| - 1];
      assert ops == front + [op];
      RunRanked(limit, front, pruning);
      RunInv(limit, front, pruning);
      StepKnown(limit, front, op, pruning);
      var v := After(limit, front, pruning);
      OrderStep(limit, v, op, pruning);
      Snoc(limit, front, op, pruning, "");
      hide After, Ranked, Known, Listing, Step, LastArrival, FirstMention, Remembered, Bounded;
      if op.Arrive? && Accepts(v, op.msg) {
        ArrivalRanked(limit, front, op.msg.value, pruning);
      } else if Mentioned(v, op).Some? {
        ListedRanked(limit, front, op, pruning, Mentioned(v, op).value);
      } else if op.Reset? {
        NobodyRanked(limit, ops, pruning);
      } else {
        OthersRanked(limit, front, op, pruning);
      }
    }
  }

  lemma NobodyRanked(limit: nat, ops: seq<Op>, pruning: bool)
    ensures Ranked(limit, ops, pruning, [])
  {
  }

  /** In every run the order lists each known room once: first those with accepted
      messages, by their last one, newest first, and behind them the others in the
      order in which they were first mentioned. */
  lemma OrderIsByActivity(limit: nat, ops: seq<Op>, pruning: bool)
    ensures var v := After(limit, ops, pruning);
      && Distinct(v.order)
      && (forall r :: r in v.order <==> FirstMention(limit, ops, pruning, r) >= 0)
      && (forall i, j :: 0 <= i < j < |v.order| ==> Ahead(limit, ops, pruning, v.order[i], v.order[j]))
  {
    hide After, FirstMention, Ahead;
    RunRanked(limit, ops, pruning);
    RunInv(limit, ops, pruning);
  }

  /** So the room of the message accepted last is the active one. */
  lemma NewestRoomIsActive(limit: nat, ops: seq<Op>, m: Message, pruning: bool)
    requires Accepts(After(limit, ops, pruning), Some(m))
    ensures var v := After(limit, ops + [Arrive(Some(m))], pruning); v.order != [] && v.order[0] == m.room
  {
    OrderStep(limit, After(limit, ops, pruning), Arrive(Some(m)), pruning);
    Snoc(limit, ops, Arrive(Some(m)), pruning, m.room);
  }

  // ---------- histories ----------

  /** The daemon's last copy of the room's history. */
  function LastReply(ops: seq<Op>, room: string): seq<Message> {
    if ops == [] then []
    else
      match ops[|ops| - 1]
      case HistoryReply(r, msgs) => if r == room then msgs else LastReply(ops[..|ops| - 1], room)
      case Reset => []
      case _ => LastReply(ops[..|ops| - 1], room)
  }

  /** The messages accepted in the room after that. */
  function Since(limit: nat, ops: seq<Op>, pruning: bool, room: string): seq<Message> {
    if ops == [] then []
    else
      var front, op := ops[..|ops| - 1], ops[|ops| - 1];
      if op.Reset? || (op.HistoryReply? && op.room == room) then []
      else
        Since(limit, front, pruning, room)
        + if ArrivesIn(After(limit, front, pruning), op, room) then [op.msg.value] else []
  }

  function HistoryTold(base: seq<Message>, since: seq<Message>, limit: nat): seq<Message> {
    if since == [] then base else LastN(base + since, limit)
  }

  lemma ToldNext(base: seq<Message>, since: seq<Message>, m: Message, limit: nat)
    ensures HistoryTold(base, since + [m], limit) == LastN(HistoryTold(base, since, limit) + [m], limit)
  {
    assert base + (since + [m]) == (base + since) + [m];
    if since != [] {
      LastOfLast((base + since) + [m], limit);
      assert ((base + since) + [m])[..|base + since|] == base + since;
    } else {
      assert [] + [m] == [m];
    }
  }

  /** What an accepted message does to the rooms and histories. */
  lemma RecordedParts(limit: nat, v: View, msg: Option<Message>, pruning: bool)
    ensures var w := OnMessage(limit, v, msg, pruning);
      if Accepts(v, msg) then
        && w.rooms == TouchRoom(v, msg.value.room, None, Some(msg.value.ts)).rooms
        && w.messages == v.messages[msg.value.room := LastN(History(v, msg.value.room) + [msg.value], limit)]
      else w == v
  {
    hide Without, Held;
  }

  lemma HistoryStep(limit: nat, v: View, op: Op, pruning: bool, room: string)
    ensures var w := Step(limit, v, op, pruning);
      History(w, room) ==
        if op.Reset? then []
        else if op.HistoryReply? && op.room == room then op.msgs
        else if ArrivesIn(v, op, room) then LastN(History(v, room) + [op.msg.value], limit)
        else History(v, room)
  {
    match op
    case Arrive(msg) => RecordedParts(limit, v, msg, pruning); hide Recorded, MaybePrune;
    case HistoryReply(room, msgs) => RememberAllKeeps(TouchRoom(v, room, None, None), msgs);
    case _ =>
  }

  /** In every run a room's history is the daemon's last copy of it, or, once more
      messages were accepted, the newest of that copy and those. */
  lemma {:induction false} HistoryIsTold(limit: nat, ops: seq<Op>, pruning: bool, room: string)
    ensures History(After(limit, ops, pruning), room)
         == HistoryTold(LastReply(ops, room), Since(limit, ops, pruning, room), limit)
  {
    hide Step, HistoryTold;
    if ops == [] {
      Nothing(limit);
    } else {
      var front, op := ops[..|ops| - 1], ops[|ops| - 1];
      var v := After(limit, front, pruning);
      HistoryIsTold(limit, front, pruning, room);
      HistoryStep(limit, v, op, pruning, room);
      hide Accepts, History;
      if ArrivesIn(v, op, room) {
        ToldNext(LastReply(front, room), Since(limit, front, pruning, room), op.msg.value, limit);
      } else {
        ReplyAlone(LastReply(ops, room), limit);
        assert Since(limit, front, pruning, room) + [] == Since(limit, front, pruning, room);
      }
    }
  }

  lemma Nothing(limit: nat)
    ensures HistoryTold([], [], limit) == []
  {
  }

  lemma ReplyAlone(base: seq<Message>, limit: nat)
    ensures HistoryTold(base, [], limit) == base
  {
  }

  // ---------- new and shown ----------

  /** Every event offered since the last reset, in a message or a history. */
  function Offered(ops: seq<Op>): set<string> {
    if ops == [] then {}
    else
      var before := Offered(ops[..|ops| - 1]);
      match ops[|ops| - 1]
      case Arrive(msg) => if msg.Some? then before + {msg.value.event} else before
      case HistoryReply(_, msgs) => before + Events(msgs)
      case Reset => {}
      case _ => before
  }

  /** Every event the user has seen since then: shown, in a history, or his own. */
  function Displayed(ops: seq<Op>): set<string> {
    if ops == [] then {}
    else
      var front := ops[..|ops| - 1];
      var before := Displayed(front);
      match ops[|ops| - 1]
      case Arrive(msg) =>
        if msg.Some? && msg.value.own && msg.value.event !in Offered(front) then before + {msg.value.event} else before
      case HistoryReply(_, msgs) => before + Events(msgs)
      case Shown(msg) => if msg.Some? then before + {msg.value.event} else before
      case Reset => {}
      case _ => before
  }

  lemma TablesStep(limit: nat, v: View, op: Op)
    ensures var w := Step(limit, v, op, false);
      match op
      case Arrive(msg) =>
        && w.seen == (if msg.Some? then v.seen + {msg.value.event} else v.seen)
        && w.glanced == (if Accepts(v, msg) && msg.value.own then v.glanced + {msg.value.event} else v.glanced)
      case HistoryReply(_, msgs) => w.seen == v.seen + Events(msgs) && w.glanced == v.glanced + Events(msgs)
      case Shown(msg) =>
        w.seen == v.seen && w.glanced == if msg.Some? then v.glanced + {msg.value.event} else v.glanced
      case Reset => w.seen == {} && w.glanced == {}
      case _ => w.seen == v.seen && w.glanced == v.glanced
  {
    hide Events;
    if op.HistoryReply? {
      RememberAllKeeps(TouchRoom(v, op.room, None, None), op.msgs);
    }
  }

  /** In every run of tables that never forget, a message is new exactly if its
      event was never offered before, and one counts as shown exactly if the user
      has seen it. Fair runs of the pruned tables agree. */
  lemma {:induction false} TablesAreTold(limit: nat, ops: seq<Op>)
    ensures var v := After(limit, ops, false); v.seen == Offered(ops) && v.glanced == Displayed(ops)
  {
    hide Step, Events;
    if ops != [] {
      TablesAreTold(limit, ops[..|ops| - 1]);
      TablesStep(limit, After(limit, ops[..|ops| - 1], false), ops[|ops| - 1]);
    }
  }

  /** What may be glanced at next is the newest message of a room's history, as long
      as the user has not seen it. */
  lemma GlancesAreTold(limit: nat, ops: seq<Op>, m: Message)
    ensures var v := After(limit, ops, false);
      m in Candidates(v) <==>
        m.event !in Displayed(ops) && exists r :: r in v.messages && v.messages[r] != [] && v.messages[r][|v.messages[r]| - 1] == m
  {
    hide After, Displayed, Offered;
    TablesAreTold(limit, ops);
  }

  // ---------- rooms ----------

  /** A name and a time offered for a room. */
  datatype Offer = Offer(name: Option<string>, ts: Option<int>)

  function OfferOf(v: View, op: Op, room: string): Option<Offer> {
    if Mentioned(v, op) != Some(room) then None
    else
      match op
      case Arrive(msg) => Some(Offer(None, Some(msg.value.ts)))
      case RoomEvent(_, display, _, lastTs) => Some(Offer(display, lastTs))
      case _ => Some(Offer(None, None))
  }

  /** All offers for the room since the last reset, in order. */
  function Offers(limit: nat, ops: seq<Op>, pruning: bool, room: string): seq<Offer> {
    if ops == [] || ops[|ops| - 1].Reset? then []
    else
      var front := ops[..|ops| - 1];
      var offer := OfferOf(After(limit, front, pruning), ops[|ops| - 1], room);
      Offers(limit, front, pruning, room) + if offer.Some? then [offer.value] else []
  }

  /** The last non-empty name; without one, the id unless the first offer came
      with an empty name. */
  function NameTold(offers: seq<Offer>, room: string): string {
    if offers == [] then room
    else
      var name := offers[|offers| - 1].name;
      if name.Some? && name.value != "" then name.value
      else if |offers| == 1 && name.Some? then ""
      else NameTold(offers[..|offers| - 1], room)
  }

  /** The latest time; a first offer without one counts as 0. */
  function TimeTold(offers: seq<Offer>): int {
    if offers == [] then 0
    else
      var ts := offers[|offers| - 1].ts;
      if |offers| == 1 then (if ts.Some? then ts.value else 0)
      else if ts.Some? then MaxInt(TimeTold(offers[..|offers| - 1]), ts.value)
      else TimeTold(offers[..|offers| - 1])
  }

  /** The unread count the daemon sent last. */
  function UnreadTold(ops: seq<Op>, room: string): int {
    if ops == [] then 0
    else
      match ops[|ops| - 1]
      case RoomEvent(of, _, unread, _) => if of == Some(room) then unread else UnreadTold(ops[..|ops| - 1], room)
      case Reset => 0
      case _ => UnreadTold(ops[..|ops| - 1], room)
  }

  ghost predicate RoomsTold(limit: nat, ops: seq<Op>, pruning: bool, v: View) {
    forall r ::
      var offers := Offers(limit, ops, pruning, r);
      && (r in v.rooms <==> offers != [])
      && (r !in v.rooms ==> UnreadTold(ops, r) == 0)
      && (r in v.rooms ==> v.rooms[r] == RoomInfo(NameTold(offers, r), UnreadTold(ops, r), TimeTold(offers)))
  }

  lemma OneMoreOffer(offers: seq<Offer>, o: Offer, room: string)
    ensures NameTold(offers + [o], room) ==
      (if o.name.Some? && o.name.value != "" then o.name.value
       else if offers == [] && o.name.Some? then "" else NameTold(offers, room))
    ensures TimeTold(offers + [o]) ==
      (if offers == [] then (if o.ts.Some? then o.ts.value else 0)
       else if o.ts.Some? then MaxInt(TimeTold(offers), o.ts.value) else TimeTold(offers))
  {
    assert (offers + [o])[..|offers|] == offers;
  }

  /** What a step does to one room. */
  lemma RoomStep(limit: nat, v: View, op: Op, pruning: bool, r: string)
    requires !op.Reset?
    ensures var w, offer := Step(limit, v, op, pruning), OfferOf(v, op, r);
      && (r in w.rooms <==> r in v.rooms || offer.Some?)
      && (offer.None? && r in v.rooms ==> w.rooms[r] == v.rooms[r])
      && (offer.Some? ==>
            var t := TouchRoom(v, r, offer.value.name, offer.value.ts).rooms[r];
            w.rooms[r] == if op.RoomEvent? then t.(unread := op.unread) else t)
  {
    match op
    case Arrive(msg) => RecordedParts(limit, v, msg, pruning); hide Recorded, MaybePrune;
    case HistoryReply(room, msgs) => RememberAllKeeps(TouchRoom(v, room, None, None), msgs);
    case _ =>
  }

  lemma StepTold(limit: nat, ops: seq<Op>, op: Op, pruning: bool)
    requires RoomsTold(limit, ops, pruning, After(limit, ops, pruning)) && !op.Reset?
    ensures RoomsTold(limit, ops + [op], pruning, After(limit, ops + [op], pruning))
  {
    hide Step, Mentioned, NameTold, TimeTold;
    var v, w := After(limit, ops, pruning), After(limit, ops + [op], pruning);
    assert (ops + [op])[..|ops|] == ops && w == Step(limit, v, op, pruning);
    forall r
      ensures var offers := Offers(limit, ops + [op], pruning, r);
        && (r in w.rooms <==> offers != [])
        && (r !in w.rooms ==> UnreadTold(ops + [op], r) == 0)
        && (r in w.rooms ==> w.rooms[r] == RoomInfo(NameTold(offers, r), UnreadTold(ops + [op], r), TimeTold(offers)))
    {
      RoomStep(limit, v, op, pruning, r);
      UnreadStep(ops, op, v, r);
      var offer, offers := OfferOf(v, op, r), Offers(limit, ops, pruning, r);
      NoOffers(r);
      hide After, OfferOf, UnreadTold;
      if offer.Some? {
        OneMoreOffer(offers, offer.value, r);
      } else {
        assert offers + [] == offers;
      }
    }
  }

  lemma NoOffers(room: string)
    ensures NameTold([], room) == room && TimeTold([]) == 0
  {
  }

  lemma UnreadStep(ops: seq<Op>, op: Op, v: View, r: string)
    requires !op.Reset?
    ensures UnreadTold(ops + [op], r) ==
      if op.RoomEvent? && OfferOf(v, op, r).Some? then op.unread else UnreadTold(ops, r)
  {
    assert (ops + [op])[..|ops|] == ops;
  }

  /** In every run a room is known once it was mentioned, carries the last name it
      was offered, the latest time, and the unread count the daemon sent last. */
  lemma {:induction false} RoomsAreTold(limit: nat, ops: seq<Op>, pruning: bool)
    ensures RoomsTold(limit, ops, pruning, After(limit, ops, pruning))
  {
    if ops != [] {
      var front, op := ops[..|ops| - 1], ops[|ops| - 1];
      assert ops == front + [op];
      if !op.Reset? {
        hide RoomsTold, After;
        RoomsAreTold(limit, front, pruning);
        StepTold(limit, front, op, pruning);
      }
    }
  }
}
