/** When the client's connected flag can be trusted: links are numbered, the
    bytes consumed from each are remembered, and a chunk that outlived its link
    is stale. */
module IpcFlags {
  import opened Basics
  import opened IpcFraming
  import opened IpcClient
  import opened IpcRequests
  import opened IpcReading

  predicate IsReady(decode: Bytes -> Option<Event>, line: Bytes) {
    decode(line).Some? && decode(line).value.kind == Some("ready")
  }

  predicate HasReady(decode: Bytes -> Option<Event>, lines: seq<Bytes>) {
    exists i :: 0 <= i < |lines| && IsReady(decode, lines[i])
  }

  /** The link's own bytes, read by themselves, hold a ready. */
  predicate Greeted(decode: Bytes -> Option<Event>, p: Past, k: nat) {
    HasReady(decode, NonEmpty(Lines(BytesOf(p, k))))
  }

  /** connected() is true exactly of a present link that acknowledged the hello,
      and nobody is online without a link. */
  predicate Honest(decode: Bytes -> Option<Event>, l: Link) {
    && (l.connected <==> l.pipe && Greeted(decode, l.past, l.past.links))
    && (!l.pipe ==> !l.online)
  }

  /** What is buffered is the unfinished line of the present link. */
  predicate OwnBytes(l: Link) {
    l.buffer == if l.pipe then Remainder(BytesOf(l.past, l.past.links)) else []
  }

  /** Only links that were opened sent anything. */
  ghost predicate LinksNumbered(p: Past) {
    forall k :: k in p.read ==> 1 <= k <= p.links
  }

  ghost predicate Trusted(decode: Bytes -> Option<Event>, l: Link) {
    Honest(decode, l) && OwnBytes(l) && LinksNumbered(l.past)
  }

  predicate Stale(l: Link, from: nat) {
    !l.pipe || from != l.past.links
  }

  // ---------- lines and ready ----------

  lemma HasReadyConcat(decode: Bytes -> Option<Event>, a: seq<Bytes>, b: seq<Bytes>)
    ensures HasReady(decode, a + b) <==> HasReady(decode, a) || HasReady(decode, b)
  {
    hide IsReady;
    var all := a + b;
    if HasReady(decode, a) {
      var i :| 0 <= i < |a| && IsReady(decode, a[i]);
      assert all[i] == a[i];
    }
    if HasReady(decode, b) {
      var i :| 0 <= i < |b| && IsReady(decode, b[i]);
      assert all[|a| + i] == b[i];
    }
    if HasReady(decode, all) {
      var i :| 0 <= i < |all| && IsReady(decode, all[i]);
      assert all[i] == if i < |a| then a[i] else b[i - |a|];
    }
  }

  lemma OneReady(decode: Bytes -> Option<Event>, line: Bytes)
    ensures HasReady(decode, [line]) <==> IsReady(decode, line)
    ensures !HasReady(decode, [])
  {
    hide IsReady;
    assert [line][0] == line;
  }

  /** More bytes of a link continue the line it left unfinished. */
  lemma MoreBytes(decode: Bytes -> Option<Event>, own: Bytes, more: Bytes)
    ensures var s := Remainder(own) + more;
      && Remainder(own + more) == Remainder(s)
      && (HasReady(decode, NonEmpty(Lines(own + more))) <==>
            HasReady(decode, NonEmpty(Lines(own))) || HasReady(decode, NonEmpty(Lines(s))))
  {
    hide HasReady, Lines, Remainder, NonEmpty;
    SplitConcat(own, more);
    NonEmptyConcat(Lines(own), Lines(Remainder(own) + more));
    HasReadyConcat(decode, NonEmpty(Lines(own)), NonEmpty(Lines(Remainder(own) + more)));
  }

  lemma NoBytes(decode: Bytes -> Option<Event>)
    ensures Remainder([]) == [] && NonEmpty(Lines([])) == [] && !HasReady(decode, NonEmpty(Lines([])))
  {
    hide IsReady;
    NoNl([]);
  }

  // ---------- what callbacks do to the link ----------

  /** The link stands as it stood, or was opened where there was none. */
  predicate SameOrOpened(l: Link, m: Link) {
    && m.past.read == l.past.read
    && (if l.pipe || !m.pipe then m.pipe == l.pipe && m.past.links == l.past.links
        else m.past.links == l.past.links + 1)
  }

  /** The client was stopped, and perhaps started again. */
  predicate StartedOver(l: Link, m: Link) {
    && m.past.read == l.past.read && m.buffer == [] && !m.connected && !m.online
    && m.past.links >= l.past.links && (m.pipe ==> m.past.links > l.past.links)
  }

  lemma {:induction false} ActsLink(v: View, actions: seq<Action>)
    ensures var m := Acts(v, actions).link;
      if Stop in actions then StartedOver(v.link, m)
      else SameOrOpened(v.link, m) && m.connected == v.link.connected && m.online == v.link.online
  {
    if actions != [] {
      var front, last := actions[..|actions| - 1], actions[|actions| - 1];
      ActsLink(v, front);
      assert Stop in actions <==> Stop in front || last == Stop;
    }
  }

  /** Lines went by, with or without a ready among them. */
  predicate Passed(l: Link, m: Link, ready: bool) {
    SameOrOpened(l, m) && m.connected == (l.connected || ready) && (!ready ==> m.online == l.online)
  }

  lemma PassedOn(a: Link, b: Link, c: Link, x: bool, y: bool)
    requires Passed(a, b, x)
    ensures Passed(b, c, y) ==> Passed(a, c, x || y)
    ensures StartedOver(b, c) ==> StartedOver(a, c)
  {
  }

  predicate StopsAt(decode: Bytes -> Option<Event>, line: Bytes, reactions: seq<seq<Action>>) {
    line != [] && decode(line).Some? && Stops(decode(line).value, reactions)
  }

  lemma OneLineLink(decode: Bytes -> Option<Event>, v: View, reactions: seq<seq<Action>>)
    requires FirstNl(v.link.buffer) < |v.link.buffer|
    ensures var line := v.link.buffer[..FirstNl(v.link.buffer)];
      var m := OneLine(decode, v, reactions).0.link;
      if StopsAt(decode, line, reactions) then StartedOver(v.link, m)
      else Passed(v.link, m, line != [] && IsReady(decode, line))
  {
    hide FirstNl, Acts;
    var n := FirstNl(v.link.buffer);
    var line, rest := v.link.buffer[..n], v.link.buffer[n + 1..];
    if line != [] && decode(line).Some? {
      var v1 := View(v.link.(buffer := rest, lines := v.link.lines + [line]), v.book);
      var ev := decode(line).value;
      ActsLink(View(Ready(v1.link, ev), Replied(v1.book, ev.id)), Head(reactions));
    }
  }

  /** What the lines of a buffer do to the link, whatever they set off. */
  lemma {:induction false} TakenLink(decode: Bytes -> Option<Event>, v: View, reactions: seq<seq<Action>>)
    ensures var lines := NonEmpty(Lines(v.link.buffer));
      var m := Taken(decode, v, reactions).link;
      if HandedOn(decode, lines, reactions).1 then StartedOver(v.link, m)
      else Passed(v.link, m, HasReady(decode, lines))
    decreases |v.link.buffer|
  {
    hide OneLine, FirstNl, Lines, Remainder, NonEmpty, HandedOn, Stops, HasReady, IsReady, Passed, StartedOver;
    var buffer := v.link.buffer;
    OneReady(decode, []);
    NoLine([]);
    if FirstNl(buffer) == |buffer| {
      NoLine(buffer);
      PassedNothing(v.link);
    } else {
      var n, next := FirstNl(buffer), OneLine(decode, v, reactions);
      var line, later := buffer[..n], NonEmpty(Lines(buffer[n + 1..]));
      FirstLine(buffer);
      OneLineLink(decode, v, reactions);
      OneLineTakes(decode, v, reactions);
      TakenLink(decode, next.0, next.1);
      FirstThenLater(decode, line, later, reactions);
      if StopsAt(decode, line, reactions) {
        NothingBuffered(decode, next.0, next.1, v.link);
      } else {
        PassedOn(v.link, next.0.link, Taken(decode, next.0, next.1).link,
                 line != [] && IsReady(decode, line), HasReady(decode, later));
      }
    }
  }

  lemma PassedNothing(l: Link)
    ensures Passed(l, l, false)
  {
  }

  lemma NothingBuffered(decode: Bytes -> Option<Event>, v: View, reactions: seq<seq<Action>>, before: Link)
    requires StartedOver(before, v.link)
    ensures Taken(decode, v, reactions) == v
  {
    assert FirstNl([]) == 0;
  }

  lemma FirstThenLater(decode: Bytes -> Option<Event>, line: Bytes, later: seq<Bytes>, reactions: seq<seq<Action>>)
    ensures var all := (if line == [] then [] else [line]) + later;
      && (HasReady(decode, all) <==> (line != [] && IsReady(decode, line)) || HasReady(decode, later))
      && (StopsAt(decode, line, reactions) ==> HandedOn(decode, all, reactions).1)
      && (!StopsAt(decode, line, reactions) ==>
            var more := if line != [] && decode(line).Some? then Rest(reactions) else reactions;
            HandedOn(decode, all, reactions).1 == HandedOn(decode, later, more).1)
  {
    hide HandedOn, Stops, HasReady, IsReady;
    OneReady(decode, line);
    if line == [] {
      assert [] + later == later;
    } else {
      HasReadyConcat(decode, [line], later);
      HandedOnCons(decode, line, later, reactions);
    }
  }

  // ---------- each step ----------

  lemma StartedOverTrust(decode: Bytes -> Option<Event>, l: Link, m: Link)
    requires LinksNumbered(l.past) && StartedOver(l, m)
    ensures Trusted(decode, m)
  {
    NoBytes(decode);
    hide Lines, Remainder, NonEmpty, HasReady;
  }

  lemma DownTrust(decode: Bytes -> Option<Event>, v: View)
    requires LinksNumbered(v.link.past)
    ensures Trusted(decode, Down(v).link)
  {
    hide Greeted, Remainder;
  }

  /** Opening a link, or doing nothing to it, where everything was right. */
  lemma OpenedTrust(decode: Bytes -> Option<Event>, l: Link, m: Link)
    requires Trusted(decode, l) && SameOrOpened(l, m)
    requires m.connected == l.connected && m.online == l.online && m.buffer == l.buffer
    ensures Trusted(decode, m)
  {
    NoBytes(decode);
    hide Lines, Remainder, NonEmpty, HasReady;
  }

  lemma ActsTrust(decode: Bytes -> Option<Event>, v: View, actions: seq<Action>)
    requires Trusted(decode, v.link)
    ensures Trusted(decode, Acts(v, actions).link)
  {
    hide Honest, OwnBytes, SameOrOpened, StartedOver, Acts;
    ActsLink(v, actions);
    ActsBuffer(v, actions);
    if Stop in actions {
      StartedOverTrust(decode, v.link, Acts(v, actions).link);
    } else {
      OpenedTrust(decode, v.link, Acts(v, actions).link);
    }
  }

  /** The chunk of a link that is not stale. */
  lemma OwnChunkTrust(decode: Bytes -> Option<Event>, l: Link, bytes: Bytes, m: Link)
    requires Trusted(decode, l) && l.pipe && m.pipe && m.past.links == l.past.links
    requires m.past.read == l.past.read[l.past.links := BytesOf(l.past, l.past.links) + bytes] && 1 <= l.past.links
    requires m.connected == (l.connected || HasReady(decode, NonEmpty(Lines(l.buffer + bytes))))
    requires m.buffer == Remainder(l.buffer + bytes)
    ensures Trusted(decode, m)
  {
    MoreBytes(decode, BytesOf(l.past, l.past.links), bytes);
    hide Lines, Remainder, NonEmpty, HasReady;
  }

  /** A stale chunk adds to another link's bytes, or to nobody's who is there. */
  lemma StaleChunkTrust(decode: Bytes -> Option<Event>, l: Link, from: nat, bytes: Bytes, m: Link, ready: bool)
    requires Trusted(decode, l) && Stale(l, from) && 1 <= from <= l.past.links
    requires m.past.read == l.past.read[from := BytesOf(l.past, from) + bytes]
    requires if l.pipe || !m.pipe then m.pipe == l.pipe && m.past.links == l.past.links
             else m.past.links == l.past.links + 1
    requires m.connected == (l.connected || ready) && (!ready ==> m.online == l.online)
    ensures Trusted(decode, m) <==> m.buffer == l.buffer && (ready ==> l.connected)
  {
    NoBytes(decode);
    hide Lines, Remainder, NonEmpty, HasReady;
  }

  /** Does the chunk leave connected() and the buffer right? A callback may stop
      the client on the way, which starts everything over; or an overlong line
      drops the link; otherwise the bytes must be the present link's own, or
      change neither the flag nor what it has unfinished. */
  predicate Harmless(decode: Bytes -> Option<Event>, v: View, op: Op) {
    op.Chunk? && 1 <= op.from <= v.link.past.links && Stale(v.link, op.from) ==>
      var s := v.link.buffer + op.bytes;
      var lines := NonEmpty(Lines(s));
      || HandedOn(decode, lines, op.reactions).1
      || |Remainder(s)| > MAX_LINE
      || (Remainder(s) == v.link.buffer && (HasReady(decode, lines) ==> v.link.connected))
  }

  lemma ChunkTrustIff(decode: Bytes -> Option<Event>, v: View, from: nat, bytes: Bytes, reactions: seq<seq<Action>>)
    requires Trusted(decode, v.link) && 1 <= from <= v.link.past.links
    ensures Trusted(decode, Step(decode, v, Chunk(from, bytes, reactions)).link)
       <==> Harmless(decode, v, Chunk(from, bytes, reactions))
  {
    hide Taken, Lines, Remainder, NonEmpty, HandedOn, HasReady, Down, Honest, OwnBytes;
    var v0 := FromLink(v, from, bytes);
    var v1 := View(v0.link.(buffer := v0.link.buffer + bytes), v0.book);
    var s, w := v.link.buffer + bytes, Taken(decode, v1, reactions);
    var lines := NonEmpty(Lines(s));
    assert v1.link.buffer == s;
    TakenLink(decode, v1, reactions);
    TakesLines(decode, v1, reactions);
    DownTrust(decode, w);
    if HandedOn(decode, lines, reactions).1 {
      StartedOverTrust(decode, v1.link, w.link);
    } else if Stale(v.link, from) {
      StaleChunkTrust(decode, v.link, from, bytes, w.link, HasReady(decode, lines));
    } else {
      OwnChunkTrust(decode, v.link, bytes, w.link);
    }
  }

  /** From a trusted state every step of anyone, with whatever callbacks, leads to
      one, except exactly a stale chunk that does harm. */
  lemma KeepsTrustIff(decode: Bytes -> Option<Event>, v: View, op: Op)
    requires Trusted(decode, v.link)
    ensures Trusted(decode, Step(decode, v, op).link) <==> Harmless(decode, v, op)
  {
    hide Acts, Act, Down, Trusted, Consumed;
    match op
    case Do(a) =>
      assert [] + [a] == [a];
      ActsTrust(decode, v, [a]);
      OneAct(v, a);
    case Chunk(from, bytes, reactions) =>
      if 1 <= from <= v.link.past.links {
        ChunkTrustIff(decode, v, from, bytes, reactions);
      }
    case LinkDown => WasNumbered(decode, v.link); DownTrust(decode, v);
    case TimerFires => TimerTrust(decode, v);
    case RunFailure(id, actions) =>
      if id in v.book.scheduled {
        ActsTrust(decode, View(v.link, FailureRun(v.book, id)), actions);
      }
  }

  lemma OneAct(v: View, a: Action)
    ensures Acts(v, [a]) == Act(v, a)
  {
    assert [a][..0] == [];
  }

  lemma WasNumbered(decode: Bytes -> Option<Event>, l: Link)
    requires Trusted(decode, l)
    ensures LinksNumbered(l.past)
  {
  }

  lemma TimerTrust(decode: Bytes -> Option<Event>, v: View)
    requires Trusted(decode, v.link)
    ensures Trusted(decode, Connected(v.link.(timer := None)))
  {
    hide Trusted;
    OpenedTrust(decode, v.link, Connected(v.link.(timer := None)));
  }

  // ---------- runs ----------

  lemma EmptyTrust(decode: Bytes -> Option<Event>)
    ensures Trusted(decode, EMPTY.link)
  {
  }

  /** connected() and the buffer are right all along. */
  ghost predicate AlwaysTrusted(decode: Bytes -> Option<Event>, ops: seq<Op>) {
    forall k :: 0 <= k <= |ops| ==> Trusted(decode, Run(decode, EMPTY, ops[..k]).link)
  }

  predicate AlwaysHarmless(decode: Bytes -> Option<Event>, ops: seq<Op>) {
    forall k :: 0 <= k < |ops| ==> Harmless(decode, Run(decode, EMPTY, ops[..k]), ops[k])
  }

  lemma AlwaysTrustedSnoc(decode: Bytes -> Option<Event>, ops: seq<Op>, op: Op)
    ensures AlwaysTrusted(decode, ops + [op])
       <==> AlwaysTrusted(decode, ops) && Trusted(decode, Run(decode, EMPTY, ops + [op]).link)
    ensures AlwaysTrusted(decode, ops) ==> Trusted(decode, Run(decode, EMPTY, ops).link)
  {
    hide Run, Trusted;
    var all := ops + [op];
    assert all[..|all|] == all && ops[..|ops|] == ops;
    forall k | 0 <= k <= |ops|
      ensures all[..k] == ops[..k]
    {
    }
    if AlwaysTrusted(decode, all) {
      assert forall k :: 0 <= k <= |ops| ==> Trusted(decode, Run(decode, EMPTY, all[..k]).link);
    }
  }

  lemma AlwaysHarmlessSnoc(decode: Bytes -> Option<Event>, ops: seq<Op>, op: Op)
    ensures AlwaysHarmless(decode, ops + [op])
       <==> AlwaysHarmless(decode, ops) && Harmless(decode, Run(decode, EMPTY, ops), op)
  {
    hide Run, Harmless;
    var all := ops + [op];
    assert all[|ops|] == op && all[..|ops|] == ops;
    forall k | 0 <= k < |ops|
      ensures all[..k] == ops[..k] && all[k] == ops[k]
    {
    }
    if AlwaysHarmless(decode, all) {
      assert forall k :: 0 <= k < |ops| ==> Harmless(decode, Run(decode, EMPTY, all[..k]), all[k]);
    }
  }

  /** In every run connected() and the buffer are right all along exactly if no
      chunk on the way did harm. */
  lemma {:induction false} AlwaysTrustedIff(decode: Bytes -> Option<Event>, ops: seq<Op>)
    ensures AlwaysTrusted(decode, ops) <==> AlwaysHarmless(decode, ops)
  {
    if ops == [] {
      EmptyTrust(decode);
    } else {
      hide *;
      var front, last := ops[..|ops| - 1], ops[|ops| - 1];
      assert ops == front + [last];
      AlwaysTrustedIff(decode, front);
      AlwaysTrustedSnoc(decode, front, last);
      AlwaysHarmlessSnoc(decode, front, last);
      RunSnoc(decode, front, last);
      if AlwaysTrusted(decode, front) {
        KeepsTrustIff(decode, Run(decode, EMPTY, front), last);
      }
    }
  }

  predicate Timely(v: View, op: Op) {
    op.Chunk? && 1 <= op.from <= v.link.past.links ==> !Stale(v.link, op.from)
  }

  /** As long as no stale chunk is consumed, connected() says exactly that there is
      a link that acknowledged its hello, and the buffer is its unfinished line. */
  lemma TimelyRunsAreTrusted(decode: Bytes -> Option<Event>, ops: seq<Op>)
    requires forall k :: 0 <= k < |ops| ==> Timely(Run(decode, EMPTY, ops[..k]), ops[k])
    ensures Trusted(decode, Run(decode, EMPTY, ops).link)
  {
    hide Run, Trusted, Stale;
    AlwaysTrustedIff(decode, ops);
    assert ops[..|ops|] == ops;
  }

  // ---------- stale chunks that do harm ----------

  lemma RunSnoc(decode: Bytes -> Option<Event>, ops: seq<Op>, op: Op)
    ensures Run(decode, EMPTY, ops + [op]) == Step(decode, Run(decode, EMPTY, ops), op)
    ensures Run(decode, EMPTY, []) == EMPTY
  {
    hide Step;
    assert (ops + [op])[..|ops|] == ops;
  }

  lemma TwoSteps(decode: Bytes -> Option<Event>)
    ensures var v := Run(decode, EMPTY, [Do(Start), Do(Stop)]);
      && !v.link.pipe && !v.link.want && v.link.buffer == [] && v.link.past == Past(1, map[])
      && var w := Step(decode, v, Do(Start));
      && w.link.pipe && !w.link.connected && w.link.buffer == [] && w.link.past == Past(2, map[])
  {
    hide Run;
    assert [] + [Do(Start)] == [Do(Start)] && [Do(Start)] + [Do(Stop)] == [Do(Start), Do(Stop)];
    RunSnoc(decode, [], Do(Start));
    RunSnoc(decode, [Do(Start)], Do(Stop));
  }

  /** What one line, complete or not, does to a link without callbacks. */
  lemma LineArrives(decode: Bytes -> Option<Event>, v: View, from: nat, bytes: Bytes, lines: seq<Bytes>, rest: Bytes)
    requires 1 <= from <= v.link.past.links && |rest| <= MAX_LINE
    requires NonEmpty(Lines(v.link.buffer + bytes)) == lines && Remainder(v.link.buffer + bytes) == rest
    ensures var w := Step(decode, v, Chunk(from, bytes, [])).link;
      && w.connected == (v.link.connected || HasReady(decode, lines))
      && w.buffer == rest && w.pipe == v.link.pipe && w.past.links == v.link.past.links
      && w.past.read == v.link.past.read[from := BytesOf(v.link.past, from) + bytes]
  {
    hide Taken, Lines, Remainder, NonEmpty, HasReady;
    var v0 := FromLink(v, from, bytes);
    var v1 := View(v0.link.(buffer := v0.link.buffer + bytes), v0.book);
    assert v1.link.buffer == v.link.buffer + bytes;
    AllHandedOn(decode, lines, []);
    TakenLink(decode, v1, []);
    TakesLines(decode, v1, []);
    NothingOpened(decode, v1);
  }

  /** With no callbacks at all nothing is opened. */
  lemma {:induction false} NothingOpened(decode: Bytes -> Option<Event>, v: View)
    ensures Taken(decode, v, []).link.pipe == v.link.pipe
    decreases |v.link.buffer|
  {
    hide FirstNl;
    if FirstNl(v.link.buffer) < |v.link.buffer| {
      NothingOpened(decode, OneLine(decode, v, []).0);
    }
  }

  lemma WholeLine(line: Bytes)
    requires line != [] && NL !in line
    ensures NonEmpty(Lines(line + [NL])) == [line] && Remainder(line + [NL]) == []
  {
    hide FirstNl, Lines, Remainder, NonEmpty;
    assert line + [NL] + [] == line + [NL] && [line] + [] == [line];
    LineThenRest(line, []);
    NoNl([]);
    FirstNonEmpty(line, []);
    NoLine([]);
  }

  /** It does happen: a ready read just before a stop and consumed just after
      leaves the client connected to nothing, and consumed after the next start
      it leaves it connected to a link that has sent nothing. */
  lemma StaleReadyLies(decode: Bytes -> Option<Event>, line: Bytes)
    requires line != [] && NL !in line && IsReady(decode, line)
    ensures var v := Run(decode, EMPTY, [Do(Start), Do(Stop), Chunk(1, line + [NL], [])]);
      v.link.connected && !v.link.pipe
    ensures var v := Run(decode, EMPTY, [Do(Start), Do(Stop), Do(Start), Chunk(1, line + [NL], [])]);
      v.link.connected && v.link.pipe && v.link.past.links == 2 && BytesOf(v.link.past, 2) == []
  {
    hide Run, Step, IsReady, HasReady, Lines, Remainder, NonEmpty;
    var late, two := Chunk(1, line + [NL], []), [Do(Start), Do(Stop)];
    TwoSteps(decode);
    assert two + [late] == [Do(Start), Do(Stop), late];
    assert two + [Do(Start)] + [late] == [Do(Start), Do(Stop), Do(Start), late];
    RunSnoc(decode, two, late);
    RunSnoc(decode, two, Do(Start));
    RunSnoc(decode, two + [Do(Start)], late);
    WholeLine(line);
    OneReady(decode, line);
    assert [] + (line + [NL]) == line + [NL];
    LineArrives(decode, Run(decode, EMPTY, two), 1, line + [NL], [line], []);
    LineArrives(decode, Run(decode, EMPTY, two + [Do(Start)]), 1, line + [NL], [line], []);
  }

  /** And: the end of a stale chunk stays in the buffer, and the present link's
      ready, glued to it, is not understood. */
  lemma StaleTailSwallowsReady(decode: Bytes -> Option<Event>, tail: Bytes, line: Bytes)
    requires tail != [] && NL !in tail && |tail| <= MAX_LINE && NL !in line && line != []
    requires IsReady(decode, line) && !IsReady(decode, tail + line)
    ensures var v := Run(decode, EMPTY, [Do(Start), Do(Stop), Do(Start), Chunk(1, tail, []), Chunk(2, line + [NL], [])]);
      && v.link.pipe && v.link.past.links == 2 && !v.link.connected
      && Greeted(decode, v.link.past, 2)
  {
    hide Run, Step, IsReady, HasReady, Lines, Remainder, NonEmpty;
    var two, three := [Do(Start), Do(Stop)], [Do(Start), Do(Stop), Do(Start)];
    var stale, own := Chunk(1, tail, []), Chunk(2, line + [NL], []);
    assert two + [Do(Start)] == three && three + [stale] + [own] == [Do(Start), Do(Stop), Do(Start), stale, own];
    TwoSteps(decode);
    RunSnoc(decode, two, Do(Start));
    RunSnoc(decode, three, stale);
    RunSnoc(decode, three + [stale], own);
    NoNl(tail);
    NoLine(tail);
    assert [] + tail == tail && [] + (line + [NL]) == line + [NL] && tail + (line + [NL]) == (tail + line) + [NL];
    LineArrives(decode, Run(decode, EMPTY, three), 1, tail, [], tail);
    OneReady(decode, line);
    OneReady(decode, tail + line);
    WholeLine(line);
    WholeLine(tail + line);
    LineArrives(decode, Run(decode, EMPTY, three + [stale]), 2, line + [NL], [tail + line], []);
  }
}
