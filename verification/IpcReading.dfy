/** The read side of the frontend's client: what consume hands on. */
module IpcReading {
  import opened Basics
  import opened IpcFraming
  import opened IpcClient
  import opened IpcRequests

  // ---------- lines ----------

  lemma {:induction false} ActsBuffer(v: View, actions: seq<Action>)
    ensures Acts(v, actions).link.lines == v.link.lines
    ensures Acts(v, actions).link.buffer == if Stop in actions then [] else v.link.buffer
  {
    if actions != [] {
      var front, last := actions[..|actions| - 1], actions[|actions| - 1];
      ActsBuffer(v, front);
      assert Stop in actions <==> Stop in front || last == Stop;
    }
  }

  /** Dispatching the event stops the client under the loop. */
  predicate Stops(ev: Event, reactions: seq<seq<Action>>) {
    ev.kind.Some? && Stop in Head(reactions)
  }

  lemma DispatchBuffer(v: View, ev: Event, reactions: seq<seq<Action>>)
    ensures var w := Dispatched(v, ev, Head(reactions));
      && w.link.lines == v.link.lines
      && w.link.buffer == if Stops(ev, reactions) then [] else v.link.buffer
  {
    hide Acts;
    ActsBuffer(View(Ready(v.link, ev), Replied(v.book, ev.id)), Head(reactions));
  }

  /** How many of the lines are handed on: all of them, or those up to the one
      whose callbacks stop the client. */
  function HandedOn(decode: Bytes -> Option<Event>, lines: seq<Bytes>, reactions: seq<seq<Action>>): (r: (nat, bool))
    ensures r.0 <= |lines| && (!r.1 ==> r.0 == |lines|)
  {
    if lines == [] then (0, false)
    else
      match decode(lines[0])
      case None =>
        var more := HandedOn(decode, lines[1..], reactions);
        (more.0 + 1, more.1)
      case Some(ev) =>
        if Stops(ev, reactions) then (1, true)
        else
          var more := HandedOn(decode, lines[1..], Rest(reactions));
          (more.0 + 1, more.1)
  }

  /** Nothing that a dispatched line sets off closes the link under the loop. */
  predicate KeepsLink(reactions: seq<seq<Action>>) {
    forall i :: 0 <= i < |reactions| ==> Stop !in reactions[i]
  }

  lemma {:induction false} AllHandedOn(decode: Bytes -> Option<Event>, lines: seq<Bytes>, reactions: seq<seq<Action>>)
    requires KeepsLink(reactions)
    ensures HandedOn(decode, lines, reactions) == (|lines|, false)
  {
    if lines != [] {
      AllHandedOn(decode, lines[1..], reactions);
      AllHandedOn(decode, lines[1..], Rest(reactions));
    }
  }

  lemma OneLineTakes(decode: Bytes -> Option<Event>, v: View, reactions: seq<seq<Action>>)
    requires FirstNl(v.link.buffer) < |v.link.buffer|
    ensures var n := FirstNl(v.link.buffer);
      var line := v.link.buffer[..n];
      var (w, more) := OneLine(decode, v, reactions);
      && w.link.lines == v.link.lines + (if n == 0 then [] else [line])
      && (n == 0 || decode(line).None? ==> w.link.buffer == v.link.buffer[n + 1..] && more == reactions)
      && (n > 0 && decode(line).Some? ==>
            && w.link.buffer == (if Stops(decode(line).value, reactions) then [] else v.link.buffer[n + 1..])
            && more == Rest(reactions))
  {
    hide FirstNl, Dispatched, Stops;
    var n := FirstNl(v.link.buffer);
    var line, rest := v.link.buffer[..n], v.link.buffer[n + 1..];
    if line != [] && decode(line).Some? {
      DispatchBuffer(View(v.link.(buffer := rest, lines := v.link.lines + [line]), v.book), decode(line).value, reactions);
    }
  }

  lemma FirstLine(s: Bytes)
    requires FirstNl(s) < |s|
    ensures Remainder(s) == Remainder(s[FirstNl(s) + 1..])
    ensures NonEmpty(Lines(s))
         == (if FirstNl(s) == 0 then [] else [s[..FirstNl(s)]]) + NonEmpty(Lines(s[FirstNl(s) + 1..]))
  {
    hide FirstNl, Lines, Remainder, NonEmpty;
    var n := FirstNl(s);
    var line, rest := s[..n], s[n + 1..];
    assert n == 0 <==> line == [];
    CutLine(s, n, line, rest);
    FirstNonEmpty(line, Lines(rest));
  }

  lemma CutLine(s: Bytes, n: nat, line: Bytes, rest: Bytes)
    requires n == FirstNl(s) < |s| && line == s[..n] && rest == s[n + 1..]
    ensures Lines(s) == [line] + Lines(rest) && Remainder(s) == Remainder(rest)
  {
    hide FirstNl;
  }

  lemma FirstNonEmpty(line: Bytes, more: seq<Bytes>)
    ensures NonEmpty([line] + more) == (if line == [] then [] else [line]) + NonEmpty(more)
  {
    assert ([line] + more)[1..] == more;
  }

  lemma HandedOnCons(decode: Bytes -> Option<Event>, line: Bytes, lines: seq<Bytes>, reactions: seq<seq<Action>>)
    ensures var all := HandedOn(decode, [line] + lines, reactions);
      if decode(line).Some? && Stops(decode(line).value, reactions) then all == (1, true)
      else
        var more := HandedOn(decode, lines, if decode(line).Some? then Rest(reactions) else reactions);
        all == (more.0 + 1, more.1)
  {
    hide Stops;
    assert ([line] + lines)[1..] == lines;
  }

  /** The loop takes out exactly the complete lines of the buffer, skipping the
      empty ones, whatever they decode to; if a callback stops the client, up to
      the line that set it off, and the rest is dropped. */
  lemma {:induction false} TakesLines(decode: Bytes -> Option<Event>, v: View, reactions: seq<seq<Action>>)
    ensures var w, lines := Taken(decode, v, reactions), NonEmpty(Lines(v.link.buffer));
      var (n, stopped) := HandedOn(decode, lines, reactions);
      && w.link.lines == v.link.lines + lines[..n]
      && w.link.buffer == if stopped then [] else Remainder(v.link.buffer)
    decreases |v.link.buffer|
  {
    hide OneLine, FirstNl, Lines, Remainder, NonEmpty, HandedOn, Stops;
    var buffer := v.link.buffer;
    NoLine([]);
    if FirstNl(buffer) == |buffer| {
      NoLine(buffer);
    } else {
      var n := FirstNl(buffer);
      var line := buffer[..n];
      var (w, more) := OneLine(decode, v, reactions);
      var later := NonEmpty(Lines(buffer[n + 1..]));
      FirstLine(buffer);
      OneLineTakes(decode, v, reactions);
      TakesLines(decode, w, more);
      if n > 0 {
        HandedOnCons(decode, line, later, reactions);
        TakeCons(v.link.lines, line, later, HandedOn(decode, later, more).0);
      } else {
        assert v.link.lines + [] == v.link.lines && [] + later == later;
      }
    }
  }

  lemma TakeCons(before: seq<Bytes>, line: Bytes, lines: seq<Bytes>, n: nat)
    requires n <= |lines|
    ensures before + ([line] + lines)[..n + 1] == (before + [line]) + lines[..n]
    ensures before + ([line] + lines)[..1] == before + [line]
    ensures (before + [line]) + [] == before + [line]
  {
    assert ([line] + lines)[..n + 1] == [line] + lines[..n];
  }

  lemma NoLine(s: Bytes)
    requires FirstNl(s) == |s|
    ensures NonEmpty(Lines(s)) == [] && Remainder(s) == s
    ensures forall decode: Bytes -> Option<Event>, r :: HandedOn(decode, [], r) == (0, false)
  {
  }

  /** Chunk after chunk; reactions[k] belongs to chunks[k]. */
  function ReadAll(decode: Bytes -> Option<Event>, v: View, chunks: seq<Bytes>, reactions: seq<seq<seq<Action>>>): View
    requires |reactions| == |chunks|
    decreases |chunks|
  {
    if chunks == [] then v
    else ReadAll(decode, Consumed(decode, v, chunks[0], reactions[0]), chunks[1..], reactions[1..])
  }

  /** The stateful reader does what splitting the concatenated stream does. */
  lemma {:induction false} ReadsLikeFeed(
      decode: Bytes -> Option<Event>, v: View, chunks: seq<Bytes>, reactions: seq<seq<seq<Action>>>)
    requires |reactions| == |chunks| && forall k :: 0 <= k < |reactions| ==> KeepsLink(reactions[k])
    requires Feed(v.link.buffer, chunks).Some?
    ensures var v' := ReadAll(decode, v, chunks, reactions);
      && v'.link.lines == v.link.lines + Feed(v.link.buffer, chunks).value.0
      && v'.link.buffer == Feed(v.link.buffer, chunks).value.1
    decreases |chunks|
  {
    hide KeepsLink, Taken, Lines, Remainder, NonEmpty;
    if chunks != [] {
      var v0 := View(v.link.(buffer := v.link.buffer + chunks[0]), v.book);
      TakesLines(decode, v0, reactions[0]);
      AllHandedOn(decode, NonEmpty(Lines(v0.link.buffer)), reactions[0]);
      var v1 := Consumed(decode, v, chunks[0], reactions[0]);
      ReadsLikeFeed(decode, v1, chunks[1..], reactions[1..]);
    }
  }

  /** A link that starts with an empty buffer takes out exactly the lines the
      daemon could encode, in order, however the socket cuts the bytes and
      whatever the callbacks do short of closing the link. */
  lemma ReadsTheDaemon(
      decode: Bytes -> Option<Event>, v: View, events: seq<Bytes>, chunks: seq<Bytes>, reactions: seq<seq<seq<Action>>>)
    requires v.link.buffer == [] && Flatten(chunks) == Stream(events)
    requires forall e :: e in events ==> Json(e)
    requires |reactions| == |chunks| && forall k :: 0 <= k < |reactions| ==> KeepsLink(reactions[k])
    ensures var v' := ReadAll(decode, v, chunks, reactions);
      v'.link.lines == v.link.lines + Sent(events) && v'.link.buffer == []
  {
    ReadsBackWhatWasSent(events, chunks);
    ReadsLikeFeed(decode, v, chunks, reactions);
  }

}
