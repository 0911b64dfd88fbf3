/** The frontend's end of the daemon's socket (lua/quietdm/ipc.lua): one record
    of link and request state, changed by the functions of the module and by
    the closures the editor's main loop runs later. */
module IpcClient {
  import opened Basics
  import opened IpcFraming

  const BACKOFF := [1000, 2000, 4000, 8000, 16000, 30000]

  /** A decoded line: its type, the request it answers, and ready's flag. */
  datatype Event = Event(kind: Option<string>, id: Option<string>, connected: bool)

  /** Which of the caller's functions a request is to be answered to. */
  type Callback = nat

  /** What a caller, a reply callback or an event handler may do to the module.
      `encodes` says that the command has a JSON form and its line fits. */
  datatype Action = Send(cb: Option<Callback>, encodes: bool) | Start | Stop

  datatype Call = Call(id: string, cb: Callback, answered: bool)

  /** History of the links, which are numbered from 1: how many were opened, and
      all the bytes of each that were consumed. */
  datatype Past = Past(links: nat, read: map<nat, Bytes>)

  function BytesOf(p: Past, k: nat): Bytes {
    if k in p.read then p.read[k] else []
  }

  /** The socket half; lines is history: every line taken out of the buffer. */
  datatype Link = Link(
    want: bool, pipe: bool, connected: bool, online: bool,
    timer: Option<nat>, attempt: nat, buffer: Bytes, lines: seq<Bytes>, past: Past)

  /** The request half. scheduled holds the error replies the main loop has yet
      to run; asked, calls and abandoned are history. */
  datatype Book = Book(
    lastId: nat, pending: map<string, Callback>, scheduled: map<string, Callback>,
    asked: map<string, Callback>, calls: seq<Call>, abandoned: set<string>)

  datatype View = View(link: Link, book: Book)

  const EMPTY := View(
    Link(false, false, false, false, None, 0, [], [], Past(0, map[])),
    Book(0, map[], map[], map[], [], {}))

  /** tostring of a request number. */
  function Decimal(n: nat): string
  {
    var digit := [('0' as int + n % 10) as char];
    if n < 10 then digit else Decimal(n / 10) + digit
  }

  // ---------- the operations as functions ----------

  function Closed(l: Link): Link {
    l.(pipe := false, buffer := [], connected := false, online := false)
  }

  function Retried(l: Link): Link {
    if !l.want then l
    else
      var attempt := if l.attempt + 1 < |BACKOFF| then l.attempt + 1 else |BACKOFF|;
      l.(attempt := attempt, timer := Some(BACKOFF[attempt - 1]))
  }

  function Connected(l: Link): Link {
    if !l.want || l.pipe then l else l.(pipe := true, past := l.past.(links := l.past.links + 1))
  }

  function AllFailed(b: Book): Book {
    b.(pending := map[], scheduled := b.scheduled + b.pending)
  }

  function Abandoned(b: Book): Book {
    b.(pending := map[], abandoned := b.abandoned + b.pending.Keys)
  }

  function Asked(b: Book, cb: Callback, written: bool): Book {
    var id := Decimal(b.lastId + 1);
    var b1 := b.(lastId := b.lastId + 1, asked := b.asked[id := cb]);
    if written then b1.(pending := b.pending[id := cb]) else b1.(scheduled := b.scheduled[id := cb])
  }

  function Answered(b: Book, id: string): Book
    requires id in b.pending
  {
    b.(pending := b.pending - {id}, calls := b.calls + [Call(id, b.pending[id], true)])
  }

  function FailureRun(b: Book, id: string): Book
    requires id in b.scheduled
  {
    b.(scheduled := b.scheduled - {id}, calls := b.calls + [Call(id, b.scheduled[id], false)])
  }

  predicate Writes(l: Link, encodes: bool) {
    l.pipe && l.connected && encodes
  }

  function Act(v: View, a: Action): (r: View)
    ensures |r.link.buffer| <= |v.link.buffer|
  {
    match a
    case Send(cb, encodes) =>
      if cb.None? then v else View(v.link, Asked(v.book, cb.value, Writes(v.link, encodes)))
    case Start => View(Connected(v.link.(want := true, attempt := 0)), v.book)
    case Stop => View(Closed(v.link.(want := false, timer := None)), Abandoned(v.book))
  }

  function Acts(v: View, actions: seq<Action>): (r: View)
    ensures |r.link.buffer| <= |v.link.buffer|
  {
    if actions == [] then v else Act(Acts(v, actions[..|actions| - 1]), actions[|actions| - 1])
  }

  function Ready(l: Link, ev: Event): Link {
    if ev.kind != Some("ready") then l else l.(connected := true, online := ev.connected, attempt := 0)
  }

  function Replied(b: Book, id: Option<string>): Book {
    if id.Some? && id.value in b.pending then Answered(b, id.value) else b
  }

  /** actions is what the reply callback and the event handlers do in turn. */
  function Dispatched(v: View, ev: Event, actions: seq<Action>): (r: View)
    ensures |r.link.buffer| <= |v.link.buffer|
  {
    if ev.kind.None? then v
    else Acts(View(Ready(v.link, ev), Replied(v.book, ev.id)), actions)
  }

  function Head(reactions: seq<seq<Action>>): seq<Action> {
    if reactions == [] then [] else reactions[0]
  }

  function Rest(reactions: seq<seq<Action>>): seq<seq<Action>> {
    if reactions == [] then [] else reactions[1..]
  }

  /** One turn of consume's loop: the next line is cut off the buffer and, unless
      it is empty or does not decode, dispatched. */
  function OneLine(decode: Bytes -> Option<Event>, v: View, reactions: seq<seq<Action>>): (r: (View, seq<seq<Action>>))
    requires FirstNl(v.link.buffer) < |v.link.buffer|
    ensures |r.0.link.buffer| < |v.link.buffer|
  {
    var n := FirstNl(v.link.buffer);
    var line, rest := v.link.buffer[..n], v.link.buffer[n + 1..];
    if line == [] then (View(v.link.(buffer := rest), v.book), reactions)
    else
      var v1 := View(v.link.(buffer := rest, lines := v.link.lines + [line]), v.book);
      match decode(line)
      case None => (v1, reactions)
      case Some(ev) => (Dispatched(v1, ev, Head(reactions)), Rest(reactions))
  }

  /** The loop of consume. The k-th element of reactions is what dispatching the
      k-th decodable line sets off. */
  function Taken(decode: Bytes -> Option<Event>, v: View, reactions: seq<seq<Action>>): View
    decreases |v.link.buffer|
  {
    if FirstNl(v.link.buffer) == |v.link.buffer| then v
    else Taken(decode, OneLine(decode, v, reactions).0, OneLine(decode, v, reactions).1)
  }

  function Down(v: View): View {
    View(Retried(Closed(v.link)), AllFailed(v.book))
  }

  /** A chunk of the given link is about to be consumed. */
  function FromLink(v: View, from: nat, chunk: Bytes): View {
    var past := v.link.past;
    View(v.link.(past := past.(read := past.read[from := BytesOf(past, from) + chunk])), v.book)
  }

  function Consumed(decode: Bytes -> Option<Event>, v: View, chunk: Bytes, reactions: seq<seq<Action>>): View {
    var v1 := Taken(decode, View(v.link.(buffer := v.link.buffer + chunk), v.book), reactions);
    if |v1.link.buffer| > MAX_LINE then Down(v1) else v1
  }

  // ---------- the module as it is written ----------

  class Client {
    const decode: Bytes -> Option<Event>
    var want: bool
    var pipe: bool
    var connected: bool
    var online: bool
    var timer: Option<nat>
    var attempt: nat
    var buffer: Bytes
    var lastId: nat
    var pending: map<string, Callback>
    var scheduled: map<string, Callback>
    ghost var lines: seq<Bytes>
    ghost var past: Past
    ghost var asked: map<string, Callback>
    ghost var calls: seq<Call>
    ghost var abandoned: set<string>

    ghost function LinkNow(): Link
      reads this
    {
      Link(want, pipe, connected, online, timer, attempt, buffer, lines, past)
    }

    ghost function BookNow(): Book
      reads this
    {
      Book(lastId, pending, scheduled, asked, calls, abandoned)
    }

    ghost function Contents(): View
      reads this
    {
      View(LinkNow(), BookNow())
    }

    constructor (decode: Bytes -> Option<Event>)
      ensures Contents() == EMPTY && this.decode == decode
    {
      this.decode := decode;
      want, pipe, connected, online := false, false, false, false;
      timer, attempt, buffer, lines, past := None, 0, [], [], Past(0, map[]);
      lastId, pending, scheduled, asked, calls, abandoned := 0, map[], map[], map[], [], {};
    }

    method FailPending()
      modifies this
      ensures LinkNow() == old(LinkNow()) && BookNow() == AllFailed(old(BookNow()))
    {
      scheduled := scheduled + pending;
      pending := map[];
    }

    method ClosePipe()
      modifies this
      ensures LinkNow() == Closed(old(LinkNow())) && BookNow() == AllFailed(old(BookNow()))
    {
      if pipe {
        pipe := false;
      }
      buffer := [];
      connected := false;
      online := false;
      FailPending();
    }

    method Retry()
      modifies this
      ensures LinkNow() == Retried(old(LinkNow())) && BookNow() == old(BookNow())
    {
      if !want {
        return;
      }
      timer := None;
      attempt := if attempt + 1 < |BACKOFF| then attempt + 1 else |BACKOFF|;
      timer := Some(BACKOFF[attempt - 1]);
    }

    method Connect()
      modifies this
      ensures LinkNow() == Connected(old(LinkNow())) && BookNow() == old(BookNow())
    {
      if !want || pipe {
        return;
      }
      pipe := true;
      past := past.(links := past.links + 1);
    }

    method Send(cb: Option<Callback>, encodes: bool) returns (written: bool)
      modifies this
      ensures Contents() == Act(old(Contents()), Action.Send(cb, encodes))
      ensures written == Writes(old(LinkNow()), encodes)
    {
      var id := "";
      if cb.Some? {
        lastId := lastId + 1;
        id := Decimal(lastId);
        asked := asked[id := cb.value];
      }
      written := if !pipe then false else if !connected then false else encodes;
      if written {
        if cb.Some? {
          pending := pending[id := cb.value];
        }
        return;
      }
      if cb.Some? {
        scheduled := scheduled[id := cb.value];
      }
    }

    method Start()
      modifies this
      ensures Contents() == Act(old(Contents()), Action.Start)
    {
      want := true;
      attempt := 0;
      if pipe {
        return;
      }
      Connect();
    }

    method Stop()
      modifies this
      ensures Contents() == Act(old(Contents()), Action.Stop)
    {
      want := false;
      timer := None;
      abandoned := abandoned + pending.Keys;
      pending := map[];
      ClosePipe();
      assert scheduled == old(scheduled);
    }

    method Perform(actions: seq<Action>)
      modifies this
      ensures Contents() == Acts(old(Contents()), actions)
    {
      var i := 0;
      while i < |actions|
        invariant i <= |actions|
        invariant Contents() == Acts(old(Contents()), actions[..i])
      {
        assert actions[..i + 1][..i] == actions[..i];
        match actions[i] {
          case Send(cb, encodes) => var _ := Send(cb, encodes);
          case Start => Start();
          case Stop => Stop();
        }
        i := i + 1;
      }
      assert actions[..i] == actions;
    }

    method NoteReady(ev: Event)
      modifies this
      ensures LinkNow() == Ready(old(LinkNow()), ev) && BookNow() == old(BookNow())
    {
      if ev.kind == Some("ready") {
        connected := true;
        online := ev.connected;
        attempt := 0;
      }
    }

    method Reply(id: Option<string>)
      modifies this
      ensures LinkNow() == old(LinkNow()) && BookNow() == Replied(old(BookNow()), id)
    {
      if id.Some? && id.value in pending {
        calls := calls + [Call(id.value, pending[id.value], true)];
        pending := pending - {id.value};
      }
    }

    method Dispatch(ev: Event, actions: seq<Action>)
      modifies this
      ensures Contents() == Dispatched(old(Contents()), ev, actions)
    {
      hide Acts, Ready, Replied;
      if ev.kind.None? {
        return;
      }
      NoteReady(ev);
      Reply(ev.id);
      Perform(actions);
    }

    /** One turn of the loop in Consume. */
    method NextLine(reactions: seq<seq<Action>>) returns (more: seq<seq<Action>>)
      requires FirstNl(buffer) < |buffer|
      modifies this
      ensures (Contents(), more) == OneLine(decode, old(Contents()), reactions)
    {
      hide Dispatched, FirstNl;
      more := reactions;
      var nl := FirstNl(buffer);
      var line := buffer[..nl];
      buffer := buffer[nl + 1..];
      if |line| > 0 {
        lines := lines + [line];
        match decode(line) {
          case Some(ev) =>
            Dispatch(ev, Head(more));
            more := Rest(more);
          case None =>
        }
      }
    }

    method Consume(chunk: Bytes, reactions: seq<seq<Action>>, ghost from: nat)
      modifies this
      ensures Contents() == Consumed(decode, FromLink(old(Contents()), from, chunk), chunk, reactions)
    {
      hide OneLine, FirstNl;
      past := past.(read := past.read[from := BytesOf(past, from) + chunk]);
      buffer := buffer + chunk;
      ghost var start := Contents();
      var todo := reactions;
      while FirstNl(buffer) < |buffer|
        invariant Taken(decode, Contents(), todo) == Taken(decode, start, reactions)
        decreases |buffer|
      {
        ghost var before := Contents();
        todo := NextLine(todo);
        assert |Contents().link.buffer| < |before.link.buffer|;
      }
      if |buffer| > MAX_LINE {
        ClosePipe();
        Retry();
      }
    }

    /** The link failed to connect or its reading end was closed. */
    method LinkDown()
      modifies this
      ensures Contents() == Down(old(Contents()))
    {
      ClosePipe();
      Retry();
    }

    method TimerFires()
      modifies this
      ensures Contents() == View(Connected(old(LinkNow()).(timer := None)), old(BookNow()))
    {
      timer := None;
      Connect();
    }

    /** The main loop runs one of the error replies. */
    method RunFailure(id: string, actions: seq<Action>)
      requires id in scheduled
      modifies this
      ensures Contents() == Acts(View(old(LinkNow()), FailureRun(old(BookNow()), id)), actions)
    {
      calls := calls + [Call(id, scheduled[id], false)];
      scheduled := scheduled - {id};
      Perform(actions);
    }
  }
}
