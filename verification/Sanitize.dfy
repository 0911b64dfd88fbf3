/** internal/sanitize/sanitize.go: chat text made fit to sit in a code buffer.
    Text comes in as bytes of any kind and leaves as well-formed UTF-8. */
module Sanitize {
  import opened Basics
  import opened Model
  import opened Utf8

  type Text = seq<Rune>

  const SPACE: Rune := 0x20
  const DEFAULT_MAX_BODY := 8192

  // ---------- the alphabet ----------

  /** The ASCII ancestor of the emoji people actually send; empty if there is none. */
  function Kaomoji(r: Rune): (k: string)
    ensures forall c :: c in k ==> ' ' < c < 128 as char
  {
    match r
    case 0x1F600 => ":)" case 0x1F601 => ":D" case 0x1F602 => ":D" case 0x1F603 => ":)"
    case 0x1F604 => ":)" case 0x1F605 => ":')" case 0x1F606 => ":D" case 0x1F609 => ";)"
    case 0x1F60A => ":)" case 0x1F60D => "<3" case 0x1F614 => ":(" case 0x1F622 => ":'("
    case 0x1F62D => ":'(" case 0x1F621 => ">:(" case 0x1F643 => ":)" case 0x1F644 => ":|"
    case 0x1F60E => "B)" case 0x1F914 => ":?" case 0x1F44D => "+1" case 0x1F44E => "-1"
    case 0x1F64F => "thx" case 0x1F525 => "!" case 0x2764 => "<3" case 0x2665 => "<3"
    case 0x2B50 => "*" case 0x2705 => "ok" case 0x274C => "x"
    case _ => ""
  }

  predicate IsEmoji(r: Rune) {
    || r == 0x200D || r == 0xFE0E || r == 0xFE0F || r == 0x20E3
    || 0x1F3FB <= r <= 0x1F3FF
    || 0x1F1E6 <= r <= 0x1F1FF
    || 0x2190 <= r <= 0x21FF
    || 0x2300 <= r <= 0x23FF
    || 0x2600 <= r <= 0x27BF
    || 0x2B00 <= r <= 0x2BFF
    || 0x1F000 <= r <= 0x1FAFF
    || 0x1FB00 <= r <= 0x1FBFF
  }

  /** unicode.IsControl: category Cc. */
  predicate IsControl(r: Rune) {
    r < 0x20 || 0x7F <= r <= 0x9F
  }

  predicate Blank(r: Rune) {
    r == SPACE || IsControl(r)
  }

  function Ascii(k: string): (t: Text)
    requires forall c :: c in k ==> ' ' < c < 128 as char
    ensures |t| == |k| && forall i :: 0 <= i < |t| ==> SPACE < t[i] < 128
  {
    if k == "" then []
    else
      assert k[0] in k && forall c :: c in k[1..] ==> c in k;
      [k[0] as int] + Ascii(k[1..])
  }

  /** What stripEmoji writes for one rune. */
  function Fold(r: Rune): Text {
    if Kaomoji(r) != "" then Ascii(Kaomoji(r)) else if IsEmoji(r) then [] else [r]
  }

  function Stripped(rs: Text): Text {
    if rs == [] then [] else Fold(rs[0]) + Stripped(rs[1..])
  }

  // ---------- words ----------

  /** Length of the run of non-blank runes at the front. */
  function WordLen(rs: Text): (n: nat)
    ensures n <= |rs|
    ensures forall i :: 0 <= i < n ==> !Blank(rs[i])
    ensures n < |rs| ==> Blank(rs[n])
  {
    if rs == [] || Blank(rs[0]) then 0 else 1 + WordLen(rs[1..])
  }

  /** The maximal runs of non-blank runes. */
  function Words(rs: Text): seq<Text>
    decreases |rs|
  {
    if rs == [] then []
    else if Blank(rs[0]) then Words(rs[1..])
    else [rs[..WordLen(rs)]] + Words(rs[WordLen(rs)..])
  }

  function Join(ws: seq<Text>): Text
    decreases |ws|, 0
  {
    if ws == [] then [] else ws[0] + After(ws[1..])
  }

  /** The words that follow another one, each with its space. */
  function After(ws: seq<Text>): Text
    decreases |ws|, 1
  {
    if ws == [] then [] else [SPACE] + Join(ws)
  }

  /** A line: no control rune, no leading space, no two spaces in a row. */
  predicate Tidy(rs: Text) {
    && (forall r :: r in rs ==> !IsControl(r))
    && (rs != [] ==> rs[0] != SPACE)
    && (forall i :: 0 <= i < |rs| - 1 ==> !(rs[i] == SPACE && rs[i + 1] == SPACE))
  }

  predicate NoEmoji(rs: Text) {
    forall r :: r in rs ==> !IsEmoji(r)
  }

  predicate EndsInSpace(rs: Text) {
    rs != [] && rs[|rs| - 1] == SPACE
  }

  /** At most one trailing space removed. */
  function Trimmed(rs: Text): Text {
    if EndsInSpace(rs) then rs[..|rs| - 1] else rs
  }

  // ---------- truncation ----------

  /** The length of the longest rune-aligned prefix of at most max bytes. */
  function Fits(s: Bytes, max: nat): (n: nat)
    ensures n <= max && n <= |s|
    decreases |s|
  {
    if s == [] || FrontLen(s) == 0 || FrontLen(s) > max then 0
    else FrontLen(s) + Fits(s[FrontLen(s)..], max - FrontLen(s))
  }

  function Cap(maxBody: int): int {
    if maxBody == 0 then DEFAULT_MAX_BODY else maxBody
  }

  predicate Overlong(s: Bytes, maxBody: int) {
    0 < Cap(maxBody) < |s|
  }

  // ---------- the whole pipeline ----------

  function Line(s: Bytes, strip: bool): Text {
    Join(Words(if strip then Stripped(Runes(s)) else Runes(s)))
  }

  function Cleaned(s: Bytes, strip: bool, maxBody: int): Bytes {
    var line := Encode(Line(s, strip));
    if Overlong(line, maxBody) then line[..Fits(line, Cap(maxBody))] else line
  }

  // ---------- the loops ----------

  /** One turn of a range loop. */
  lemma RunesStep(s: Bytes, i: nat)
    requires i < |s|
    ensures Runes(s[i..]) == [DecodeRune(s[i..]).0] + Runes(s[i + DecodeRune(s[i..]).1..])
  {
    hide FrontLen, DecodeRune;
    assert s[i..][DecodeRune(s[i..]).1..] == s[i + DecodeRune(s[i..]).1..];
  }

  lemma StripStep(r: Rune, rest: Text, done: Text)
    ensures done + Stripped([r] + rest) == (done + Fold(r)) + Stripped(rest)
    ensures Encode(done + Fold(r)) == Encode(done) + Encode(Fold(r))
  {
    hide Fold;
    assert ([r] + rest)[1..] == rest;
    EncodeConcat(done, Fold(r));
  }

  lemma EncodeNothing()
    ensures Encode([]) == [] && Stripped([]) == []
  {
  }

  lemma EncodeOne(r: Rune)
    ensures Encode([r]) == EncodeRune(r)
  {
    hide EncodeRune;
    assert [r][1..] == [];
    assert Encode([r]) == EncodeRune(r) + Encode([]);
  }

  method StripEmoji(s: Bytes) returns (b: Bytes)
    ensures b == Encode(Stripped(Runes(s)))
  {
    hide FrontLen, DecodeRune, EncodeRune, Encode, Kaomoji, IsEmoji, Ascii;
    b := [];
    var i := 0;
    ghost var done: Text := [];
    EncodeNothing();
    assert s[0..] == s;
    while i < |s|
      invariant i <= |s|
      invariant b == Encode(done)
      invariant Stripped(Runes(s)) == done + Stripped(Runes(s[i..]))
    {
      var r := DecodeRune(s[i..]).0;
      RunesStep(s, i);
      i := i + DecodeRune(s[i..]).1;
      StripStep(r, Runes(s[i..]), done);
      done := done + Fold(r);
      if Kaomoji(r) != "" {
        b := b + Encode(Ascii(Kaomoji(r)));
        continue;
      }
      EncodeOne(r);
      if IsEmoji(r) {
        assert Fold(r) == [];
        continue;
      }
      b := b + EncodeRune(r);
    }
    assert done + [] == done;
  }

  /** What collapse still writes, given that it has already written something
      and whether a blank came last. */
  function Rest(rs: Text, space: bool): Text {
    if space then After(Words(rs))
    else rs[..WordLen(rs)] + After(Words(rs[WordLen(rs)..]))
  }

  lemma BlankStep(r: Rune, rest: Text, space: bool)
    requires Blank(r)
    ensures Words([r] + rest) == Words(rest)
    ensures Rest([r] + rest, space) == Rest(rest, true)
  {
    var rs := [r] + rest;
    assert rs[1..] == rest;
    assert rs[0..] == rs && rs[..0] == [];
  }

  lemma FirstWord(r: Rune, rest: Text)
    requires !Blank(r)
    ensures WordLen([r] + rest) == WordLen(rest) + 1
    ensures Words([r] + rest) == [[r] + rest[..WordLen(rest)]] + Words(rest[WordLen(rest)..])
  {
    hide IsControl;
    var rs := [r] + rest;
    var n := WordLen(rest);
    assert rs[1..] == rest;
    assert rs[..n + 1] == [r] + rest[..n] && rs[n + 1..] == rest[n..];
  }

  lemma JoinFirstWord(w: Text, ws: seq<Text>)
    ensures Join([w] + ws) == w + After(ws) && After([w] + ws) == [SPACE] + w + After(ws)
  {
    assert ([w] + ws)[1..] == ws;
    assert [SPACE] + (w + After(ws)) == [SPACE] + w + After(ws);
  }

  lemma RestIs(rs: Text, n: nat, w: Text, tail: Text)
    requires n == WordLen(rs) && w == rs[..n] && tail == rs[n..]
    ensures Rest(rs, false) == w + After(Words(tail)) && Rest(rs, true) == After(Words(rs))
  {
    hide IsControl, Words, WordLen, After;
  }

  lemma Regroup(r: Rune, w: Text, tail: Text)
    ensures ([r] + w) + tail == [r] + (w + tail)
    ensures [SPACE] + ([r] + w) + tail == [SPACE] + [r] + (w + tail)
    ensures [] + [r] + (w + tail) == [r] + (w + tail)
  {
  }

  lemma WordStep(r: Rune, rest: Text, space: bool)
    requires !Blank(r)
    ensures Rest([r] + rest, space) == (if space then [SPACE] else []) + [r] + Rest(rest, false)
    ensures Join(Words([r] + rest)) == [r] + Rest(rest, false)
  {
    hide IsControl, Words, WordLen, Join, After, Rest;
    FirstWord(r, rest);
    var n := WordLen(rest);
    var w, tail := rest[..n], rest[n..];
    assert ([r] + rest)[..n + 1] == [r] + w && ([r] + rest)[n + 1..] == tail;
    RestIs(rest, n, w, tail);
    RestIs([r] + rest, n + 1, [r] + w, tail);
    JoinFirstWord([r] + w, Words(tail));
    Regroup(r, w, After(Words(tail)));
  }

  method Collapse(s: Bytes) returns (b: Bytes)
    ensures b == Encode(Join(Words(Runes(s))))
  {
    hide FrontLen, DecodeRune, EncodeRune, Words, Rest, Join;
    b := [];
    var space := false;
    var i := 0;
    ghost var done: Text := [];
    assert s[0..] == s;
    while i < |s|
      invariant i <= |s|
      invariant b == Encode(done) && (b == [] <==> done == [])
      invariant Join(Words(Runes(s))) ==
                if done == [] then Join(Words(Runes(s[i..]))) else done + Rest(Runes(s[i..]), space)
    {
      var r := DecodeRune(s[i..]).0;
      RunesStep(s, i);
      i := i + DecodeRune(s[i..]).1;
      if r == 0x0A || r == 0x0D || r == 0x09 || (IsControl(r) && r != SPACE) {
        BlankStep(r, Runes(s[i..]), space);
        space := true;
        continue;
      }
      if r == SPACE {
        BlankStep(r, Runes(s[i..]), space);
        space := true;
        continue;
      }
      WordStep(r, Runes(s[i..]), space);
      Written(done, space && |b| > 0, r);
      done := done + (if space && |b| > 0 then [SPACE] else []) + [r];
      if space && |b| > 0 {
        b := b + EncodeRune(SPACE);
      }
      space := false;
      b := b + EncodeRune(r);
    }
    NothingLeft(space);
    assert done + [] == done;
  }

  lemma NothingLeft(space: bool)
    ensures Words([]) == [] && Join(Words([])) == [] && Rest([], space) == []
  {
  }

  lemma Written(done: Text, space: bool, r: Rune)
    ensures Encode(done + (if space then [SPACE] else []) + [r])
         == Encode(done) + (if space then EncodeRune(SPACE) else []) + EncodeRune(r)
  {
    hide EncodeRune;
    EncodeOne(r);
    EncodeOne(SPACE);
    EncodeConcat(done, [SPACE]);
    EncodeConcat(done + (if space then [SPACE] else []), [r]);
    if !space {
      assert done + [] == done && Encode(done) + [] == Encode(done);
    }
  }

  lemma RuneThenStart(s: Bytes)
    requires Valid(s) && s != []
    ensures FrontLen(s) <= |s| && (FrontLen(s) < |s| ==> Utf8Start(s[FrontLen(s)]))
  {
    var n := FrontLen(s);
    if n < |s| {
      StartsAreBoundaries(s, n);
      assert s[..n][n..] == [] && FrontLen(s[..n]) == n;
    }
  }

  /** Where the backward scan stops. On well-formed text that is the end of the
      longest rune-aligned prefix. */
  lemma {:induction false} ScanFindsFit(s: Bytes, max: nat, cut: nat)
    requires Valid(s) && cut <= max < |s|
    requires cut == 0 || Utf8Start(s[cut])
    requires forall k :: cut < k <= max ==> !Utf8Start(s[k])
    ensures cut == Fits(s, max)
    decreases |s|
  {
    var n := FrontLen(s);
    if n > max {
      if cut > 0 {
        StartsAreBoundaries(s, cut);
        FrontLenPrefix(s, cut);
      }
    } else {
      RuneThenStart(s);
      hide FrontLen, Utf8Start;
      assert n <= cut;
      assert cut == n || s[n..][cut - n] == s[cut];
      forall k | cut - n < k <= max - n
        ensures !Utf8Start(s[n..][k])
      {
        assert s[n..][k] == s[n + k];
      }
      ScanFindsFit(s[n..], max - n, cut - n);
    }
  }

  method TruncateBytes(s: Bytes, max: nat) returns (t: Bytes)
    ensures t <= s && (|s| <= max ==> t == s)
    ensures |t| <= max
    ensures |s| > max && t != [] ==> Utf8Start(s[|t|])
    ensures |s| > max ==> forall k :: |t| < k <= max ==> !Utf8Start(s[k])
    ensures Valid(s) && |s| > max ==> t == s[..Fits(s, max)]
  {
    if |s| <= max {
      return s;
    }
    var cut := max;
    while cut > 0 && !Utf8Start(s[cut])
      invariant 0 <= cut <= max
      invariant forall k :: cut < k <= max ==> !Utf8Start(s[k])
    {
      cut := cut - 1;
    }
    if Valid(s) {
      ScanFindsFit(s, max, cut);
    }
    return s[..cut];
  }

  method CleanText(s: Bytes, strip: bool, maxBody: int) returns (t: Bytes)
    ensures t == Cleaned(s, strip, maxBody)
  {
    t := s;
    if strip {
      t := StripEmoji(t);
      EncodeIsValid(Stripped(Runes(s)));
    }
    t := Collapse(t);
    var max := maxBody;
    if max == 0 {
      max := DEFAULT_MAX_BODY;
    }
    if max > 0 && |t| > max {
      EncodeIsValid(Line(s, strip));
      t := TruncateBytes(t, max);
    }
  }

  // ---------- messages ----------

  /** What stands in for a body that cannot be disguised as code. */
  function Placeholder(kind: string): Option<Text> {
    if kind == KIND_IMAGE then Some([0x5B, 0x5716, 0x7247, 0x5D])
    else if kind == KIND_AUDIO then Some([0x5B, 0x8A9E, 0x97F3, 0x5D])
    else if kind == KIND_STICKER then Some([0x5B, 0x8CBC, 0x5716, 0x5D])
    else if kind == KIND_OTHER then Some([0x5B, 0x9644, 0x4EF6, 0x5D])
    else None
  }

  function CleanedMessage(m: Message, strip: bool, maxBody: int): Message {
    match Placeholder(m.kind)
    case Some(p) => m.(body := Encode(p))
    case None => m.(body := Cleaned(m.body, strip, maxBody))
  }

  method CleanMessage(m: Message, strip: bool, maxBody: int) returns (clean: Message)
    ensures clean == CleanedMessage(m, strip, maxBody)
  {
    match Placeholder(m.kind)
    case Some(p) =>
      clean := m.(body := Encode(p));
    case None =>
      var body := CleanText(m.body, strip, maxBody);
      clean := m.(body := body);
  }
}
