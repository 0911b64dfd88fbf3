/** Newline-delimited framing as both ends of the socket do it: the daemon's
    encode (internal/ipc/server.go) and the frontend's read buffer
    (lua/quietdm/ipc.lua). */
module IpcFraming {
  import opened Basics

  type Bytes = seq<byte>

  const NL: byte := 10
  const MAX_LINE := 64 * 1024

  /** Position of the first newline, or |s|. */
  function FirstNl(s: Bytes): (n: nat)
    ensures n <= |s|
    ensures n < |s| ==> s[n] == NL
    ensures forall i :: 0 <= i < n ==> s[i] != NL
  {
    if s == [] || s[0] == NL then 0 else 1 + FirstNl(s[1..])
  }

  /** The complete lines of a buffer, without their newlines. */
  function Lines(s: Bytes): seq<Bytes>
    decreases |s|
  {
    if FirstNl(s) == |s| then [] else [s[..FirstNl(s)]] + Lines(s[FirstNl(s) + 1..])
  }

  /** What follows the last newline. */
  function Remainder(s: Bytes): Bytes
    decreases |s|
  {
    if FirstNl(s) == |s| then s else Remainder(s[FirstNl(s) + 1..])
  }

  /** The lines consume hands on: empty ones are skipped. */
  function NonEmpty(lines: seq<Bytes>): seq<Bytes> {
    if lines == [] then []
    else (if lines[0] == [] then [] else [lines[0]]) + NonEmpty(lines[1..])
  }

  function Flatten(chunks: seq<Bytes>): Bytes {
    if chunks == [] then [] else chunks[0] + Flatten(chunks[1..])
  }

  /** Every line of the stream, the unfinished last one included, is within the limit. */
  predicate Fits(s: Bytes) {
    (forall line :: line in Lines(s) ==> |line| <= MAX_LINE) && |Remainder(s)| <= MAX_LINE
  }

  /** What the chunks make of a buffer: the lines handed on and the remainder;
      None once a remainder exceeded the limit and the link was dropped. */
  function Feed(buffer: Bytes, chunks: seq<Bytes>): Option<(seq<Bytes>, Bytes)>
    decreases |chunks|
  {
    if chunks == [] then Some(([], buffer))
    else
      var s := buffer + chunks[0];
      if |Remainder(s)| > MAX_LINE then None
      else
        match Feed(Remainder(s), chunks[1..])
        case None => None
        case Some(more) => Some((NonEmpty(Lines(s)) + more.0, more.1))
  }

  // ---------- splitting ----------

  lemma FirstNlConcat(a: Bytes, b: Bytes)
    ensures FirstNl(a) < |a| ==> FirstNl(a + b) == FirstNl(a)
    ensures FirstNl(a) == |a| ==> FirstNl(a + b) == |a| + FirstNl(b)
  {
    if a == [] {
      assert a + b == b;
    } else if a[0] != NL {
      assert (a + b)[1..] == a[1..] + b;
      FirstNlConcat(a[1..], b);
    }
  }

  /** Splitting what has arrived and then the rest is splitting the whole. */
  lemma {:induction false} SplitConcat(a: Bytes, b: Bytes)
    ensures Lines(a + b) == Lines(a) + Lines(Remainder(a) + b)
    ensures Remainder(a + b) == Remainder(Remainder(a) + b)
    decreases |a|
  {
    hide FirstNl, Lines, Remainder;
    if FirstNl(a) < |a| {
      SplitConcat(a[FirstNl(a) + 1..], b);
      FirstLineFirst(a, b);
    } else {
      NothingYet(a);
    }
  }

  lemma NothingYet(s: Bytes)
    requires FirstNl(s) == |s|
    ensures Lines(s) == [] && Remainder(s) == s
  {
  }

  /** A line complete in the first part is the first line of the whole. */
  lemma FirstLineFirst(a: Bytes, b: Bytes)
    requires FirstNl(a) < |a|
    ensures var n := FirstNl(a);
      && Lines(a) == [a[..n]] + Lines(a[n + 1..]) && Remainder(a) == Remainder(a[n + 1..])
      && Lines(a + b) == [a[..n]] + Lines(a[n + 1..] + b) && Remainder(a + b) == Remainder(a[n + 1..] + b)
  {
    hide FirstNl;
    FirstNlConcat(a, b);
    var n := FirstNl(a);
    assert (a + b)[..n] == a[..n] && (a + b)[n + 1..] == a[n + 1..] + b;
  }

  lemma {:induction false} RemainderHasNoNl(s: Bytes)
    ensures NL !in Remainder(s) && Lines(Remainder(s)) == [] && |Remainder(s)| <= |s|
    decreases |s|
  {
    var n := FirstNl(s);
    if n < |s| {
      RemainderHasNoNl(s[n + 1..]);
    }
  }

  lemma {:induction false} NonEmptyConcat(a: seq<Bytes>, b: seq<Bytes>)
    ensures NonEmpty(a + b) == NonEmpty(a) + NonEmpty(b)
  {
    if a == [] {
      assert a + b == b;
    } else {
      assert (a + b)[1..] == a[1..] + b;
      NonEmptyConcat(a[1..], b);
    }
  }

  /** A prefix of a stream within the limit is within it. */
  lemma FitsPrefix(a: Bytes, b: Bytes)
    requires Fits(a + b)
    ensures Fits(a)
  {
    SplitConcat(a, b);
    RemainderHasNoNl(a);
    var r := Remainder(a);
    FirstNlConcat(r, b);
    if FirstNl(b) < |b| {
      assert Lines(r + b)[0] == (r + b)[..FirstNl(r + b)];
      assert Lines(r + b)[0] in Lines(a + b);
    } else {
      assert Remainder(r + b) == r + b;
    }
  }

  lemma FitsSuffix(a: Bytes, b: Bytes)
    requires Fits(a + b)
    ensures Fits(Remainder(a) + b)
  {
    SplitConcat(a, b);
  }

  lemma LineThenRest(json: Bytes, rest: Bytes)
    requires NL !in json
    ensures Lines(json + [NL] + rest) == [json] + Lines(rest)
    ensures Remainder(json + [NL] + rest) == Remainder(rest)
  {
    var s := json + [NL] + rest;
    FirstNlConcat(json, [NL] + rest);
    assert FirstNl(json) == |json|;
    assert json + ([NL] + rest) == s;
    assert s[..|json|] == json && s[|json| + 1..] == rest;
  }

  // ---------- chunks ----------

  /** However the stream is cut, the same lines come out in the same order and
      the same bytes are left over, as long as its lines fit. */
  lemma {:induction false} ChunksDoNotMatter(buffer: Bytes, chunks: seq<Bytes>)
    requires NL !in buffer && Fits(buffer + Flatten(chunks))
    ensures Feed(buffer, chunks)
         == Some((NonEmpty(Lines(buffer + Flatten(chunks))), Remainder(buffer + Flatten(chunks))))
    decreases |chunks|
  {
    FirstNlConcat(buffer, []);
    assert FirstNl(buffer) == |buffer|;
    if chunks == [] {
      assert buffer + [] == buffer;
    } else {
      var s, rest := buffer + chunks[0], Flatten(chunks[1..]);
      assert buffer + Flatten(chunks) == s + rest;
      FitsPrefix(s, rest);
      FitsSuffix(s, rest);
      RemainderHasNoNl(s);
      SplitConcat(s, rest);
      ChunksDoNotMatter(Remainder(s), chunks[1..]);
      NonEmptyConcat(Lines(s), Lines(Remainder(s) + rest));
    }
  }

  lemma ShortLineFits(s: Bytes, n: nat)
    requires n == FirstNl(s) < |s| && n <= MAX_LINE && Fits(s[n + 1..])
    ensures Fits(s)
  {
    hide FirstNl;
    var first, more := s[..n], Lines(s[n + 1..]);
    assert Lines(s) == [first] + more && Remainder(s) == Remainder(s[n + 1..]);
    hide Lines, Remainder;
    forall line | line in Lines(s)
      ensures |line| <= MAX_LINE
    {
      assert line == first || line in more;
    }
  }

  lemma {:induction false} WhereItOverflows(s: Bytes) returns (k: nat)
    requires !Fits(s)
    ensures k <= |s| && |Remainder(s[..k])| > MAX_LINE
    decreases |s|
  {
    var n := FirstNl(s);
    if n == |s| {
      k := n;
      assert s[..k] == s;
    } else if n > MAX_LINE {
      k := n;
      NoNl(s[..n]);
    } else {
      var rest := s[n + 1..];
      if Fits(rest) {
        ShortLineFits(s, n);
      }
      var j := WhereItOverflows(rest);
      k := n + 1 + j;
      assert s[..k] == s[..n] + [NL] + rest[..j];
      LineThenRest(s[..n], rest[..j]);
    }
  }

  lemma NoNl(s: Bytes)
    requires NL !in s
    ensures FirstNl(s) == |s| && Lines(s) == [] && Remainder(s) == s
  {
  }

  ghost predicate NeverDropped(s: Bytes) {
    forall chunks: seq<Bytes> :: Flatten(chunks) == s ==> Feed([], chunks).Some?
  }

  lemma TwoChunks(a: Bytes, b: Bytes)
    requires |Remainder(a)| > MAX_LINE
    ensures Feed([], [a, b]) == None && Flatten([a, b]) == a + b
  {
    hide Remainder;
    assert [a, b][1..] == [b] && [b][1..] == [];
    assert Flatten([b]) == b + [];
    assert [] + a == a;
  }

  /** The limit is what the cut depends on: a stream survives every way of
      cutting it exactly when all its lines fit. A longer line passes if it
      arrives whole and drops the link if it is cut before its newline. */
  lemma SurvivesIffFits(s: Bytes)
    ensures NeverDropped(s) <==> Fits(s)
  {
    hide Fits, Feed, Flatten, Lines, Remainder;
    if Fits(s) {
      forall chunks: seq<Bytes> | Flatten(chunks) == s
        ensures Feed([], chunks).Some?
      {
        assert [] + s == s;
        ChunksDoNotMatter([], chunks);
      }
    } else {
      var k := WhereItOverflows(s);
      TwoChunks(s[..k], s[k..]);
      assert s[..k] + s[k..] == s;
    }
  }

  // ---------- the daemon's side ----------

  /** encode: one encoded event and its newline, unless that is too long. The
      JSON text of an event is a non-empty string without a newline. */
  function Encode(json: Bytes): (line: Result<Bytes, string>) {
    if |json| + 1 > MAX_LINE then Err("event exceeds the line limit") else Ok(json + [NL])
  }

  predicate Json(json: Bytes) {
    json != [] && NL !in json
  }

  /** The bytes of the events that fit, in order. */
  function Stream(events: seq<Bytes>): Bytes {
    if events == [] then []
    else (if Encode(events[0]).Ok? then Encode(events[0]).value else []) + Stream(events[1..])
  }

  function Sent(events: seq<Bytes>): seq<Bytes> {
    if events == [] then []
    else (if Encode(events[0]).Ok? then [events[0]] else []) + Sent(events[1..])
  }

  lemma {:induction false} StreamSplits(events: seq<Bytes>)
    requires forall e :: e in events ==> Json(e)
    ensures Lines(Stream(events)) == Sent(events) && Remainder(Stream(events)) == []
    ensures NonEmpty(Sent(events)) == Sent(events)
    ensures Fits(Stream(events))
  {
    if events != [] {
      var e := events[0];
      assert e in events;
      StreamSplits(events[1..]);
      if Encode(e).Ok? {
        LineThenRest(e, Stream(events[1..]));
        assert Sent(events)[1..] == Sent(events[1..]);
      } else {
        assert [] + Stream(events[1..]) == Stream(events[1..]);
        assert [] + Sent(events[1..]) == Sent(events[1..]);
      }
    }
  }

  /** The frontend reads back exactly the events the daemon could encode, in
      order, however the socket cuts the bytes; nothing is left over. */
  lemma ReadsBackWhatWasSent(events: seq<Bytes>, chunks: seq<Bytes>)
    requires forall e :: e in events ==> Json(e)
    requires Flatten(chunks) == Stream(events)
    ensures Feed([], chunks) == Some((Sent(events), []))
  {
    StreamSplits(events);
    assert [] + Flatten(chunks) == Stream(events);
    ChunksDoNotMatter([], chunks);
  }
}
