/** What the sanitiser promises for every input, and how far it is from being
    idempotent. */
module SanitizeLaws {
  import opened Basics
  import opened Model
  import opened Utf8
  import opened Sanitize

  // ---------- truncation ----------

  /** The kept prefix is well-formed, no longer one within the budget is, and at
      most three bytes of the budget go unused. */
  lemma {:induction false} FitsIsLongest(s: Bytes, max: nat)
    requires Valid(s)
    ensures Valid(s[..Fits(s, max)]) && Valid(s[Fits(s, max)..])
    ensures forall k :: Fits(s, max) < k <= max && k <= |s| ==> !Valid(s[..k])
    ensures |s| > max ==> max - Fits(s, max) <= 3
    decreases |s|
  {
    var n := FrontLen(s);
    if s != [] && n > max {
      NothingFits(s, max);
    } else if s != [] {
      FitsIsLongest(s[n..], max - n);
      FirstFits(s, max);
    }
  }

  /** With the first rune out of the way the rest decides. */
  lemma FirstFits(s: Bytes, max: nat)
    requires Valid(s) && s != [] && FrontLen(s) <= max
    requires var rest, f := s[FrontLen(s)..], Fits(s[FrontLen(s)..], max - FrontLen(s));
      && Valid(rest[..f]) && Valid(rest[f..])
      && (forall k :: f < k <= max - FrontLen(s) && k <= |rest| ==> !Valid(rest[..k]))
    ensures Valid(s[..Fits(s, max)]) && Valid(s[Fits(s, max)..])
    ensures forall k :: Fits(s, max) < k <= max && k <= |s| ==> !Valid(s[..k])
    ensures Fits(s, max) == FrontLen(s) + Fits(s[FrontLen(s)..], max - FrontLen(s))
  {
    var n, f := FrontLen(s), Fits(s[FrontLen(s)..], max - FrontLen(s));
    assert Fits(s, max) == n + f;
    hide FrontLen, Fits, Valid;
    assert s[n + f..] == s[n..][f..];
    ValidPrefix(s, n + f);
    forall k | n + f < k <= max && k <= |s|
      ensures !Valid(s[..k])
    {
      ValidPrefix(s, k);
    }
  }

  /** A prefix that holds the first rune is well formed when its rest is. */
  lemma ValidPrefix(s: Bytes, k: nat)
    requires s != [] && Valid(s) && FrontLen(s) <= k <= |s|
    ensures Valid(s[..k]) <==> Valid(s[FrontLen(s)..][..k - FrontLen(s)])
  {
    hide FrontLen;
    FrontLenPrefix(s, k);
    assert s[..k][FrontLen(s)..] == s[FrontLen(s)..][..k - FrontLen(s)];
  }

  lemma NothingFits(s: Bytes, max: nat)
    requires Valid(s) && s != [] && FrontLen(s) > max
    ensures s[Fits(s, max)..] == s
    ensures forall k :: 0 < k <= max && k <= |s| ==> !Valid(s[..k])
  {
    hide FrontLen;
    forall k | 0 < k <= max && k <= |s|
      ensures !Valid(s[..k])
    {
      FrontLenPrefix(s, k);
    }
    assert s[0..] == s;
  }

  /** Cutting bytes on a rune boundary is cutting runes. */
  lemma FitsCutsRunes(rs: Text, max: nat) returns (k: nat)
    ensures k <= |rs| && Encode(rs)[..Fits(Encode(rs), max)] == Encode(rs[..k])
  {
    hide FrontLen, EncodeRune, DecodeRune, Encode, Valid, Fits;
    var s := Encode(rs);
    var n := Fits(s, max);
    EncodeIsValid(rs);
    FitsIsLongest(s, max);
    RunesConcat(s[..n], s[n..]);
    assert s[..n] + s[n..] == s;
    ValidIsEncoded(s[..n]);
    k := |Runes(s[..n])|;
    assert rs[..k] == Runes(s[..n]);
  }

  // ---------- stripping ----------

  lemma {:induction false} StrippedHasNoEmoji(rs: Text)
    ensures NoEmoji(Stripped(rs))
  {
    if rs != [] {
      StrippedHasNoEmoji(rs[1..]);
      FoldHasNoEmoji(rs[0]);
      hide Fold, IsEmoji;
    }
  }

  lemma FoldHasNoEmoji(r: Rune)
    ensures NoEmoji(Fold(r))
  {
    hide Kaomoji;
  }

  lemma {:induction false} StrippingNothing(rs: Text)
    requires NoEmoji(rs)
    ensures Stripped(rs) == rs
  {
    if rs != [] {
      assert rs[0] in rs && forall r :: r in rs[1..] ==> r in rs;
      NoKaomoji(rs[0]);
      StrippingNothing(rs[1..]);
    }
  }

  /** Every emoji with an ASCII ancestor lies in a stripped range. */
  lemma NoKaomoji(r: Rune)
    ensures Kaomoji(r) != "" ==> IsEmoji(r)
  {
  }

  // ---------- collapsing ----------

  lemma {:induction false} JoinKeeps(rs: Text)
    ensures forall r :: r in Join(Words(rs)) ==> r == SPACE || (r in rs && !IsControl(r))
    decreases |rs|
  {
    if rs != [] {
      if Blank(rs[0]) {
        JoinKeeps(rs[1..]);
      } else {
        var n := WordLen(rs);
        JoinKeeps(rs[n..]);
        assert Words(rs)[1..] == Words(rs[n..]);
        assert Join(Words(rs)) == rs[..n] + After(Words(rs[n..]));
        assert forall r :: r in rs[n..] ==> r in rs;
      }
    }
  }

  /** Joined words make a line that does not end in a space either. */
  lemma {:induction false} JoinIsTidy(rs: Text)
    ensures Tidy(Join(Words(rs))) && !EndsInSpace(Join(Words(rs)))
    ensures Join(Words(rs)) == [] <==> Words(rs) == []
    decreases |rs|
  {
    JoinKeeps(rs);
    if rs != [] {
      if Blank(rs[0]) {
        JoinIsTidy(rs[1..]);
      } else {
        var n := WordLen(rs);
        JoinIsTidy(rs[n..]);
        assert Words(rs)[1..] == Words(rs[n..]);
        var tail := Join(Words(rs[n..]));
        assert Join(Words(rs)) == rs[..n] + After(Words(rs[n..]));
        if Words(rs[n..]) != [] {
          assert Join(Words(rs)) == rs[..n] + [SPACE] + tail;
        } else {
          assert Join(Words(rs)) == rs[..n];
        }
      }
    }
  }

  lemma TidyTail(rs: Text, n: nat)
    requires Tidy(rs) && n < |rs| && Blank(rs[n])
    ensures rs[n] == SPACE && Tidy(rs[n + 1..])
    ensures rs[n + 1..] != [] ==> Words(rs[n + 1..]) != []
  {
    assert rs[n] in rs;
    var tail := rs[n + 1..];
    assert forall r :: r in tail ==> r in rs;
    forall i | 0 <= i < |tail| - 1
      ensures !(tail[i] == SPACE && tail[i + 1] == SPACE)
    {
      assert rs[n + 1 + i] == tail[i] && rs[n + 1 + (i + 1)] == tail[i + 1];
    }
    if tail != [] {
      assert tail[0] in tail;
    }
  }

  lemma WordLenAt(rs: Text, n: nat)
    requires n < |rs| && Blank(rs[n]) && forall i :: 0 <= i < n ==> !Blank(rs[i])
    ensures WordLen(rs) == n
  {
  }

  lemma WordThenSpace(w: Text, tail: Text)
    requires w != [] && forall r :: r in w ==> !Blank(r)
    ensures Words(w + [SPACE] + tail) == [w] + Words(tail)
  {
    hide IsControl, WordLen;
    var rs := w + [SPACE] + tail;
    forall i | 0 <= i < |w|
      ensures !Blank(rs[i])
    {
      assert rs[i] == w[i] && w[i] in w;
    }
    WordLenAt(rs, |w|);
    assert rs[..|w|] == w && rs[|w|..] == [SPACE] + tail;
    BlankStep(SPACE, tail, false);
  }

  lemma TrimmedTail(w: Text, tail: Text)
    ensures Trimmed(w + [SPACE] + tail) == if tail == [] then w else w + ([SPACE] + Trimmed(tail))
  {
    var rs := w + [SPACE] + tail;
    if tail == [] {
      assert rs[..|rs| - 1] == w;
    } else {
      assert rs[|rs| - 1] == tail[|tail| - 1];
      assert rs[..|rs| - 1] == w + [SPACE] + tail[..|tail| - 1];
    }
  }

  lemma JoinTail(w: Text, ws: seq<Text>)
    ensures Join([w] + ws) == w + if ws == [] then [] else [SPACE] + Join(ws)
  {
    assert ([w] + ws)[1..] == ws;
  }

  lemma OneWord(rs: Text)
    requires rs != [] && WordLen(rs) == |rs|
    ensures Join(Words(rs)) == rs
  {
    hide IsControl;
    assert rs[..|rs|] == rs && rs[|rs|..] == [];
    assert Words(rs) == [rs];
    assert Words(rs)[1..] == [];
  }

  /** On a line, joining the words only takes a trailing space away. */
  lemma {:induction false} TidyIsJoined(rs: Text)
    requires Tidy(rs)
    ensures Join(Words(rs)) == Trimmed(rs)
    decreases |rs|
  {
    hide IsControl, Join, Words;
    NothingLeft(true);
    if rs != [] {
      assert rs[0] in rs;
      var n := WordLen(rs);
      if n == |rs| {
        OneWord(rs);
      } else {
        TidyTail(rs, n);
        hide Tidy, Trimmed, WordLen;
        TidyIsJoined(rs[n + 1..]);
        WordThenSpace(rs[..n], rs[n + 1..]);
        TrimmedTail(rs[..n], rs[n + 1..]);
        JoinTail(rs[..n], Words(rs[n + 1..]));
        assert rs == rs[..n] + [SPACE] + rs[n + 1..];
      }
    }
  }

  /** Collapsing keeps every word, in order. */
  lemma {:induction false} WordsKept(rs: Text)
    ensures Words(Join(Words(rs))) == Words(rs)
    decreases |rs|
  {
    if rs != [] {
      if Blank(rs[0]) {
        WordsKept(rs[1..]);
      } else {
        var n := WordLen(rs);
        var w, more := rs[..n], Words(rs[n..]);
        WordsKept(rs[n..]);
        assert Words(rs)[1..] == more;
        WordThenMore(w, more);
      }
    }
  }

  lemma WordThenMore(w: Text, more: seq<Text>)
    requires w != [] && (forall r :: r in w ==> !Blank(r)) && Words(Join(more)) == more
    ensures Words(w + After(more)) == [w] + more
  {
    var rs := w + After(more);
    assert rs[0] == w[0] && w[0] in w;
    var n := WordLen(rs);
    assert forall i :: 0 <= i < |w| ==> rs[i] == w[i] && w[i] in w;
    assert n >= |w|;
    if more == [] {
      assert rs == w;
    } else {
      assert rs[|w|] == SPACE;
      assert n == |w|;
      assert rs[n..] == [SPACE] + Join(more) && rs[n..][1..] == Join(more);
    }
    assert rs[..n] == w;
  }

  // ---------- the promises ----------

  lemma TidyPrefix(rs: Text, k: nat)
    requires Tidy(rs) && k <= |rs|
    ensures Tidy(rs[..k])
    ensures NoEmoji(rs) ==> NoEmoji(rs[..k])
  {
    assert forall r :: r in rs[..k] ==> r in rs;
    forall i | 0 <= i < k - 1
      ensures !(rs[..k][i] == SPACE && rs[..k][i + 1] == SPACE)
    {
      assert rs[..k][i] == rs[i] && rs[..k][i + 1] == rs[i + 1];
    }
  }

  lemma LineIsTidy(s: Bytes, strip: bool)
    ensures Tidy(Line(s, strip)) && !EndsInSpace(Line(s, strip))
    ensures strip ==> NoEmoji(Line(s, strip))
  {
    hide IsControl, IsEmoji, Words, Join;
    var rs := if strip then Stripped(Runes(s)) else Runes(s);
    JoinIsTidy(rs);
    JoinKeeps(rs);
    if strip {
      StrippedHasNoEmoji(Runes(s));
      SpaceIsNoEmoji();
    }
  }

  lemma SpaceIsNoEmoji()
    ensures !IsEmoji(SPACE)
  {
  }

  /** The output is a rune-aligned piece of the collapsed line. */
  lemma CleanedIsPrefix(s: Bytes, strip: bool, maxBody: int) returns (k: nat)
    ensures k <= |Line(s, strip)| && Cleaned(s, strip, maxBody) == Encode(Line(s, strip)[..k])
    ensures !Overlong(Encode(Line(s, strip)), maxBody) ==> k == |Line(s, strip)|
  {
    var line := Line(s, strip);
    if Overlong(Encode(line), maxBody) {
      k := FitsCutsRunes(line, Cap(maxBody));
    } else {
      k := |line|;
      assert line[..k] == line;
    }
  }

  /** What leaves the sanitiser, whatever came in: well-formed UTF-8 within the
      cap, one line with no control rune, no leading space and no two adjacent
      ones, and no emoji when stripping is on. */
  lemma TextIsSafe(s: Bytes, strip: bool, maxBody: int)
    ensures var t := Cleaned(s, strip, maxBody);
      && Valid(t)
      && (Cap(maxBody) > 0 ==> |t| <= Cap(maxBody))
      && Tidy(Runes(t))
      && (strip ==> NoEmoji(Runes(t)))
  {
    hide IsControl, IsEmoji, Encode, Valid, Runes, Line, Tidy, Fits;
    var k := CleanedIsPrefix(s, strip, maxBody);
    LineIsTidy(s, strip);
    TidyPrefix(Line(s, strip), k);
    EncodeIsValid(Line(s, strip)[..k]);
  }

  lemma TrimmedNoLonger(rs: Text)
    ensures |Encode(Trimmed(rs))| <= |Encode(rs)|
    ensures EndsInSpace(rs) ==> Encode(rs) == Encode(Trimmed(rs)) + [0x20]
  {
    if EndsInSpace(rs) {
      assert rs == Trimmed(rs) + [SPACE];
      EncodeConcat(Trimmed(rs), [SPACE]);
      EncodeOne(SPACE);
    }
  }

  /** On a line that is already safe, sanitising only trims. */
  lemma SafeAgain(rs: Text, strip: bool, maxBody: int)
    requires Tidy(rs) && (strip ==> NoEmoji(rs)) && !Overlong(Encode(rs), maxBody)
    ensures Cleaned(Encode(rs), strip, maxBody) == Encode(Trimmed(rs))
  {
    hide IsControl, IsEmoji, Encode, Valid, Runes, Tidy, Fits, Words, Join, Stripped;
    EncodeIsValid(rs);
    if strip {
      StrippingNothing(rs);
    }
    TidyIsJoined(rs);
    TrimmedNoLonger(rs);
  }

  lemma TrimmedIsSafe(rs: Text, strip: bool)
    requires Tidy(rs) && (strip ==> NoEmoji(rs))
    ensures Tidy(Trimmed(rs)) && (strip ==> NoEmoji(Trimmed(rs))) && !EndsInSpace(Trimmed(rs))
  {
    hide IsControl, IsEmoji;
    if EndsInSpace(rs) {
      TidyPrefix(rs, |rs| - 1);
    }
  }

  /** Sanitising the output again takes away at most one trailing space, and a
      third application changes nothing. */
  lemma TextTwice(s: Bytes, strip: bool, maxBody: int)
    ensures var once := Cleaned(s, strip, maxBody);
      var twice := Cleaned(once, strip, maxBody);
      && twice == Encode(Trimmed(Runes(once)))
      && (twice == once || once == twice + [0x20])
      && Cleaned(twice, strip, maxBody) == twice
  {
    hide IsControl, IsEmoji, Encode, Valid, Runes, Tidy, Cleaned, Trimmed;
    var once := Cleaned(s, strip, maxBody);
    TextIsSafe(s, strip, maxBody);
    var rs := Runes(once);
    ValidIsEncoded(once);
    SafeAgain(rs, strip, maxBody);
    TrimmedNoLonger(rs);
    TrimmedOr(rs);
    TrimmedIsSafe(rs, strip);
    TrimmedOr(Trimmed(rs));
    SafeAgain(Trimmed(rs), strip, maxBody);
  }

  lemma TrimmedOr(rs: Text)
    ensures !EndsInSpace(rs) ==> Trimmed(rs) == rs
    ensures EndsInSpace(rs) ==> |Trimmed(rs)| == |rs| - 1
  {
  }

  /** Sanitising is idempotent exactly when the cap does not cut the collapsed
      line right after a space. */
  lemma IdempotentIff(s: Bytes, strip: bool, maxBody: int)
    ensures var line := Encode(Line(s, strip));
      var once := Cleaned(s, strip, maxBody);
      Cleaned(once, strip, maxBody) == once
      <==> !(Overlong(line, maxBody) && Fits(line, Cap(maxBody)) > 0 && line[Fits(line, Cap(maxBody)) - 1] == 0x20)
  {
    hide IsControl, IsEmoji, Encode, Valid, Runes, Tidy, Fits, Line;
    var line := Line(s, strip);
    var once := Cleaned(s, strip, maxBody);
    TextTwice(s, strip, maxBody);
    TextIsSafe(s, strip, maxBody);
    LineIsTidy(s, strip);
    ValidIsEncoded(once);
    TrimmedNoLonger(Runes(once));
    SpaceByteIff(Runes(once));
    if !Overlong(Encode(line), maxBody) {
      EncodeIsValid(line);
    }
  }

  /** The last byte of an encoding is 0x20 exactly when the last rune is a space. */
  lemma SpaceByteIff(rs: Text)
    ensures EndsInSpace(rs) <==> Encode(rs) != [] && Encode(rs)[|Encode(rs)| - 1] == 0x20
    ensures !EndsInSpace(rs) <==> Encode(Trimmed(rs)) == Encode(rs)
  {
    hide Encode, EncodeRune;
    TrimmedNoLonger(rs);
    if rs == [] {
      EncodeNothing();
    } else {
      var r := rs[|rs| - 1];
      assert rs == rs[..|rs| - 1] + [r];
      EncodeConcat(rs[..|rs| - 1], [r]);
      EncodeOne(r);
      LastByte(r);
    }
  }

  lemma LastByte(r: Rune)
    ensures EncodeRune(r)[|EncodeRune(r)| - 1] == 0x20 <==> r == SPACE
  {
  }

  lemma LineOfSafe(rs: Text, strip: bool)
    requires Tidy(rs) && NoEmoji(rs) && !EndsInSpace(rs)
    ensures Line(Encode(rs), strip) == rs
  {
    EncodeIsValid(rs);
    StrippingNothing(rs);
    TidyIsJoined(rs);
  }

  /** The cap does bite: "a b" cut to two bytes keeps the space, and a second
      pass takes it away. */
  lemma NotIdempotent(strip: bool)
    ensures var once := Cleaned([0x61, 0x20, 0x62], strip, 2);
      Cleaned(once, strip, 2) != once
  {
    var rs: Text := [0x61, 0x20, 0x62];
    var line: Bytes := [0x61, 0x20, 0x62];
    ThreeBytes();
    LineOfSafe(rs, strip);
    hide Cleaned, Encode, Fits, Line;
    IdempotentIff(line, strip, 2);
  }

  lemma ThreeBytes()
    ensures Encode([0x61, 0x20, 0x62]) == [0x61, 0x20, 0x62]
    ensures Fits([0x61, 0x20, 0x62], 2) == 2
  {
    var rs: Text := [0x61, 0x20, 0x62];
    var line: Bytes := [0x61, 0x20, 0x62];
    assert rs[1..] == [0x20, 0x62] && rs[1..][1..] == [0x62] && rs[1..][1..][1..] == [];
    assert line[1..] == [0x20, 0x62] && line[1..][1..] == [0x62];
    assert Fits([0x62], 0) == 0;
    assert Fits([0x20, 0x62], 1) == 1;
  }

  lemma PlaceholderIsLine(p: Text)
    requires |p| == 4 && p[0] == 0x5B && p[3] == 0x5D
    requires 0x4E00 <= p[1] < 0xA000 && 0x4E00 <= p[2] < 0xA000
    ensures Tidy(p) && NoEmoji(p) && |Encode(p)| == 8
  {
    hide EncodeRune;
    assert forall r :: r in p ==> r == p[0] || r == p[1] || r == p[2] || r == p[3];
    var q := p[1..];
    assert q[1..] == [p[2], p[3]] && q[1..][1..] == [p[3]];
    EncodeOne(p[3]);
    Widths(p[0], p[1]);
    Widths(p[3], p[2]);
    assert Encode(q[1..]) == EncodeRune(p[2]) + EncodeRune(p[3]);
    assert Encode(q) == EncodeRune(p[1]) + Encode(q[1..]);
  }

  lemma Widths(a: Rune, c: Rune)
    requires a < 0x80 && 0x800 <= c < 0x10000
    ensures |EncodeRune(a)| == 1 && |EncodeRune(c)| == 3
  {
  }

  /** A message's body is always one safe line: its cleaned text, or the
      placeholder of its kind; nothing else in the message changes. */
  lemma BodyIsSafe(m: Message, strip: bool, maxBody: int)
    ensures var c := CleanedMessage(m, strip, maxBody);
      && Valid(c.body) && Tidy(Runes(c.body)) && (strip ==> NoEmoji(Runes(c.body)))
      && (Cap(maxBody) > 0 ==> |c.body| <= MaxInt(Cap(maxBody), 8))
      && c == m.(body := c.body)
  {
    hide IsControl, IsEmoji, Encode, Valid, Runes, Tidy, NoEmoji, Cleaned;
    match Placeholder(m.kind)
    case Some(p) =>
      EncodeIsValid(p);
      PlaceholderIsLine(p);
    case None =>
      TextIsSafe(m.body, strip, maxBody);
  }

  /** Without a cap of one's own 8192 bytes get through, and at most three fewer of a
      longer text; a negative cap lets everything through, and a positive one is
      used as it is. */
  lemma CapAsConfigured(s: Bytes, strip: bool, maxBody: int)
    ensures var line := Encode(Line(s, strip));
      var t := Cleaned(s, strip, maxBody);
      && (maxBody < 0 ==> t == line)
      && (maxBody == 0 && |line| <= 8192 ==> t == line)
      && (maxBody == 0 && |line| > 8192 ==> 8189 <= |t| <= 8192 && t == line[..|t|])
      && (maxBody > 0 && |line| <= maxBody ==> t == line)
      && (maxBody > 0 && |line| > maxBody ==> maxBody - 3 <= |t| <= maxBody && t == line[..|t|])
  {
    hide Encode, Line, Fits, Valid;
    var line := Encode(Line(s, strip));
    EncodeIsValid(Line(s, strip));
    if Overlong(line, maxBody) {
      FitsIsLongest(line, Cap(maxBody));
    }
  }

  // ---------- what stands in for what ----------

  /** The faces people send read as their ASCII ancestors. */
  lemma FacesReadAs()
    ensures forall r :: r in {0x1F600, 0x1F603, 0x1F604, 0x1F60A, 0x1F643} ==> Kaomoji(r) == ":)"
    ensures forall r :: r in {0x1F601, 0x1F602, 0x1F606} ==> Kaomoji(r) == ":D"
    ensures forall r :: r in {0x1F622, 0x1F62D} ==> Kaomoji(r) == ":'("
    ensures Kaomoji(0x1F605) == ":')" && Kaomoji(0x1F609) == ";)" && Kaomoji(0x1F614) == ":(" && Kaomoji(0x1F621) == ">:("
    ensures Kaomoji(0x1F644) == ":|" && Kaomoji(0x1F60E) == "B)" && Kaomoji(0x1F914) == ":?"
  {
  }

  /** And so do the signs. */
  lemma SignsReadAs()
    ensures forall r :: r in {0x1F60D, 0x2764, 0x2665} ==> Kaomoji(r) == "<3"
    ensures Kaomoji(0x1F44D) == "+1" && Kaomoji(0x1F44E) == "-1" && Kaomoji(0x1F64F) == "thx" && Kaomoji(0x1F525) == "!"
    ensures Kaomoji(0x2B50) == "*" && Kaomoji(0x2705) == "ok" && Kaomoji(0x274C) == "x"
  {
  }

  /** An emoji or modifier without an ancestor goes. */
  lemma StrippedTwo(r: Rune, m: Rune)
    requires Kaomoji(m) == "" && IsEmoji(m)
    ensures Stripped([r, m]) == Fold(r)
  {
    assert Fold(m) == [];
    hide Fold, Kaomoji, IsEmoji;
    assert [r, m][1..] == [m] && [m][1..] == [] && Stripped([]) == [];
    assert Stripped([m]) == Fold(m) + [] && Stripped([r, m]) == Fold(r) + Stripped([m]);
  }

  /** A heart comes with a variation selector and a thumb with a skin tone: the
      sign stays and what modifies it goes. */
  lemma ModifiersGo()
    ensures Stripped([0x2764, 0xFE0F]) == [0x3C, 0x33]
    ensures Stripped([0x1F44D, 0x1F3FD]) == [0x2B, 0x31]
    ensures Stripped([0x1F468, 0x200D]) == []
  {
    SignsReadAs();
    NoAncestor();
    AsciiOfTwo();
    hide Kaomoji, Stripped;
    StrippedTwo(0x2764, 0xFE0F);
    StrippedTwo(0x1F44D, 0x1F3FD);
    StrippedTwo(0x1F468, 0x200D);
  }

  lemma NoAncestor()
    ensures Kaomoji(0xFE0F) == "" && Kaomoji(0x1F3FD) == "" && Kaomoji(0x200D) == "" && Kaomoji(0x1F468) == ""
  {
  }

  lemma AsciiOfTwo()
    ensures Ascii("<3") == [0x3C, 0x33] && Ascii("+1") == [0x2B, 0x31]
  {
    assert "<3"[1..] == "3" && "+1"[1..] == "1" && "3"[1..] == "" && "1"[1..] == "";
  }

  /** A picture, a voice message, a sticker and any other attachment each have their
      own placeholder in brackets; here as its bytes. */
  lemma PictureReads()
    ensures Placeholder(KIND_IMAGE).Some? && Encode(Placeholder(KIND_IMAGE).value) == [0x5B, 0xE5, 0x9C, 0x96, 0xE7, 0x89, 0x87, 0x5D]
  {
    Bracketed(0x5716, 0x7247);
    hide Encode;
  }

  /** A voice message. */
  lemma VoiceReads()
    ensures Placeholder(KIND_AUDIO).Some? && Encode(Placeholder(KIND_AUDIO).value) == [0x5B, 0xE8, 0xAA, 0x9E, 0xE9, 0x9F, 0xB3, 0x5D]
  {
    Bracketed(0x8A9E, 0x97F3);
    hide Encode;
  }

  /** A sticker. */
  lemma StickerReads()
    ensures Placeholder(KIND_STICKER).Some? && Encode(Placeholder(KIND_STICKER).value) == [0x5B, 0xE8, 0xB2, 0xBC, 0xE5, 0x9C, 0x96, 0x5D]
  {
    Bracketed(0x8CBC, 0x5716);
    hide Encode;
  }

  /** Any other attachment. */
  lemma AttachmentReads()
    ensures Placeholder(KIND_OTHER).Some? && Encode(Placeholder(KIND_OTHER).value) == [0x5B, 0xE9, 0x99, 0x84, 0xE4, 0xBB, 0xB6, 0x5D]
  {
    Bracketed(0x9644, 0x4EF6);
    hide Encode;
  }

  /** Two characters of the basic plane between brackets. */
  lemma Bracketed(a: Rune, b: Rune)
    requires 0x1000 <= a < 0xD800 && 0x1000 <= b < 0xD800
    ensures Encode([0x5B, a, b, 0x5D]) ==
      [0x5B, InThree(a)[0], InThree(a)[1], InThree(a)[2],
       InThree(b)[0], InThree(b)[1], InThree(b)[2], 0x5D]
  {
    var rs: Text := [0x5B, a, b, 0x5D];
    assert rs[1..] == [a, b, 0x5D] && [a, b, 0x5D][1..] == [b, 0x5D] && [b, 0x5D][1..] == [0x5D] && [0x5D][1..] == [];
    assert EncodeRune(0x5B) == [0x5B] && EncodeRune(0x5D) == [0x5D];
    assert EncodeRune(a) == InThree(a) && EncodeRune(b) == InThree(b);
    hide EncodeRune, InThree;
    assert Encode([0x5D]) == EncodeRune(0x5D) + Encode([]);
    assert Encode([b, 0x5D]) == EncodeRune(b) + Encode([0x5D]);
    assert Encode([a, b, 0x5D]) == EncodeRune(a) + Encode([b, 0x5D]);
    assert Encode(rs) == EncodeRune(0x5B) + Encode([a, b, 0x5D]);
  }

  /** The three-byte form of RFC 3629, section 3. */
  function InThree(r: Rune): (b: Bytes)
    requires 0x1000 <= r < 0xD800
    ensures |b| == 3
  {
    [(0xE0 + r / 4096) as byte, (0x80 + r / 64 % 64) as byte, (0x80 + r % 64) as byte]
  }
}
