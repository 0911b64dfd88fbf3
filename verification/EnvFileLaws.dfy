/** What editing a variable into the .env file does to that variable, to the
    others and to itself when repeated. */
module EnvFileLaws {
  import opened Basics
  import opened EnvFile

  // ---------- splitting and joining ----------

  lemma {:induction false} LineLenAt(s: string, n: nat)
    requires n <= |s| && NL !in s[..n] && (n < |s| ==> s[n] == NL)
    ensures LineLen(s) == n
  {
    if n > 0 {
      assert s[0] == s[..n][0] && s[..n][0] in s[..n];
      assert s[1..][..n - 1] == s[..n][1..];
      LineLenAt(s[1..], n - 1);
    }
  }

  lemma FirstLine(s: string)
    requires LineLen(s) < |s|
    ensures Split(s) == [s[..LineLen(s)]] + Split(s[LineLen(s) + 1..])
    ensures s == s[..LineLen(s)] + [NL] + s[LineLen(s) + 1..]
  {
    hide LineLen;
    var n := LineLen(s);
    Reassemble(s, n);
    var rest := s[n + 1..];
    assert Split(s) == [s[..n]] + Split(rest);
  }

  lemma Reassemble(s: string, n: nat)
    requires n < |s| && s[n] == NL
    ensures s == s[..n] + [NL] + s[n + 1..]
  {
  }

  lemma JoinCons(first: string, rest: seq<string>)
    requires rest != []
    ensures Join([first] + rest) == first + [NL] + Join(rest)
  {
    assert ([first] + rest)[1..] == rest;
  }

  lemma {:induction false} JoinSplit(s: string)
    ensures Join(Split(s)) == s
    ensures forall line :: line in Split(s) ==> NL !in line
    decreases |s|
  {
    hide LineLen, Join;
    var n := LineLen(s);
    if n == |s| {
      assert s[..n] == s;
      JoinOne(s);
    } else {
      FirstLine(s);
      JoinSplit(s[n + 1..]);
      JoinCons(s[..n], Split(s[n + 1..]));
    }
  }

  lemma JoinOne(s: string)
    ensures Join([s]) == s
  {
  }

  lemma {:induction false} SplitAppend(s: string, t: string)
    ensures Split(s + [NL] + t) == Split(s) + Split(t)
    decreases |s|
  {
    hide LineLen, Split;
    var n := LineLen(s);
    var whole := s + [NL] + t;
    assert whole[..n] == s[..n];
    LineLenAt(whole, n);
    FirstLine(whole);
    if n == |s| {
      assert whole[n + 1..] == t;
      assert s[..n] == s;
      SplitOne(s);
    } else {
      FirstLine(s);
      SplitAppend(s[n + 1..], t);
      assert whole[n + 1..] == s[n + 1..] + [NL] + t;
    }
  }

  lemma SplitOne(s: string)
    requires NL !in s
    ensures Split(s) == [s]
  {
    assert s[..|s|] == s;
    LineLenAt(s, |s|);
  }

  lemma {:induction false} SplitJoin(lines: seq<string>)
    requires lines != [] && forall line :: line in lines ==> NL !in line
    ensures Split(Join(lines)) == lines
  {
    var first := lines[0];
    assert first in lines;
    assert first[..|first|] == first;
    LineLenAt(first, |first|);
    if |lines| > 1 {
      assert forall line :: line in lines[1..] ==> line in lines;
      SplitJoin(lines[1..]);
      SplitAppend(first, Join(lines[1..]));
    }
  }

  // ---------- trimming ----------

  /** Text that a line can end in without losing anything to the trim. */
  predicate Solid(s: string) {
    NL !in s && (s != "" ==> !Space(s[|s| - 1]))
  }

  predicate GoodKey(key: string) {
    '=' !in key && NL !in key && (key != "" ==> !Space(key[0]))
  }

  /** A line just written trims to itself, so it assigns what was written. */
  lemma WrittenAssigns(key: string, value: string)
    requires (key != "" ==> !Space(key[0])) && Solid(value)
    ensures Assigned(key + "=" + value, key) == Some(value)
    ensures NL !in key ==> NL !in key + "=" + value
  {
    var line := key + "=" + value;
    assert !Space('=');
    assert line[0] == if key == "" then '=' else key[0];
    assert line[|line| - 1] == if value == "" then '=' else value[|value| - 1];
    assert key + "=" <= line && line[|key| + 1..] == value;
  }

  function FirstEq(t: string): (n: nat)
    ensures n <= |t|
  {
    if t == "" || t[0] == '=' then 0 else 1 + FirstEq(t[1..])
  }

  lemma {:induction false} KeyOf(t: string, key: string)
    requires '=' !in key
    ensures key + "=" <= t ==> t[..FirstEq(t)] == key
  {
    if key + "=" <= t && key != "" {
      assert key[0] == (key + "=")[0] == t[0];
      assert key[0] in key;
      assert key[1..] + "=" == (key + "=")[1..] <= t[1..];
      KeyOf(t[1..], key[1..]);
      assert t[..FirstEq(t)] == [t[0]] + t[1..][..FirstEq(t[1..])];
      assert key == [key[0]] + key[1..];
    } else if key + "=" <= t {
      assert t[0] == (key + "=")[0] == '=';
    }
  }

  /** One line assigns at most one '='-free key. */
  lemma OneKeyPerLine(line: string, key: string, other: string)
    requires '=' !in key && '=' !in other && key != other
    requires Assigned(line, key).Some?
    ensures Assigned(line, other).None?
  {
    KeyOf(Trim(line), key);
    KeyOf(Trim(line), other);
  }

  lemma BlankAssignsNothing(key: string)
    ensures Assigned("", key).None?
  {
    assert Trim("") == "";
  }

  // ---------- lookups over lines ----------

  lemma LookUpConcat(a: seq<string>, b: seq<string>, key: string)
    ensures LookUp(a + b, key) == if LookUp(a, key).Some? then LookUp(a, key) else LookUp(b, key)
  {
    hide Assigned;
    var n := FirstAssignment(a, key);
    var m := FirstAssignment(b, key);
    if n < |a| {
      assert (a + b)[n] == a[n];
      FirstIs(a + b, key, n);
    } else if m < |b| {
      assert (a + b)[|a| + m] == b[m];
      forall j | 0 <= j < |a| + m
        ensures Assigned((a + b)[j], key).None?
      {
        assert (a + b)[j] == if j < |a| then a[j] else b[j - |a|];
      }
      FirstIs(a + b, key, |a| + m);
    } else {
      NoneIs(a + b, key);
    }
  }

  lemma NoneIs(lines: seq<string>, key: string)
    requires forall line :: line in lines ==> Assigned(line, key).None?
    ensures LookUp(lines, key).None?
  {
    hide Assigned;
    var n := FirstAssignment(lines, key);
    if n < |lines| {
      assert lines[n] in lines;
    }
  }

  lemma LookUpOne(line: string, key: string)
    ensures LookUp([line], key) == Assigned(line, key)
    ensures Count([line], key) == if Assigned(line, key).Some? then 1 else 0
  {
    hide Assigned;
    assert Count([line][..0], key) == 0;
    if Assigned(line, key).Some? {
      FirstIs([line], key, 0);
    }
  }

  lemma {:induction false} CountConcat(a: seq<string>, b: seq<string>, key: string)
    ensures Count(a + b, key) == Count(a, key) + Count(b, key)
  {
    if b == [] {
      assert a + b == a;
    } else {
      assert (a + b)[..|a + b| - 1] == a + b[..|b| - 1];
      CountConcat(a, b[..|b| - 1], key);
    }
  }

  lemma {:induction false} CountNone(lines: seq<string>, key: string)
    ensures Count(lines, key) == 0 <==> LookUp(lines, key).None?
  {
    if lines != [] {
      var init, last := lines[..|lines| - 1], lines[|lines| - 1];
      CountNone(init, key);
      LookUpConcat(init, [last], key);
      LookUpOne(last, key);
      assert init + [last] == lines;
    }
  }

  // ---------- what the edit does to the lines ----------

  /** The lines before the last, if that is blank; a file that ends in a newline
      splits into its lines and a blank one. */
  function Body(lines: seq<string>): seq<string>
    requires lines != []
  {
    if lines[|lines| - 1] == "" then lines[..|lines| - 1] else lines
  }

  /** An edited file keeps every line but at most one, where an empty assignment
      is filled in, or gains one at the end. */
  lemma EditedLines(content: string, key: string, value: string)
    requires NL !in key && NL !in value
    ensures var lines := Split(content);
      var n := FirstAssignment(lines, key);
      var line := key + "=" + value;
      Split(Ensured(content, key, value)) ==
        if n == |lines| then Body(lines) + [line, ""]
        else if Assigned(lines[n], key).value != "" then lines
        else lines[..n] + [line] + lines[n + 1..]
  {
    hide Assigned, FirstAssignment, Split, Join, Body;
    var lines := Split(content);
    var n := FirstAssignment(lines, key);
    var line := key + "=" + value;
    JoinSplit(content);
    if n == |lines| {
      assert Terminated(content) + line + [NL] == Terminated(content) + key + "=" + value + [NL];
      AppendedLines(content, line);
    } else if Assigned(lines[n], key).value == "" {
      ReplacedLine(lines, n, line);
    }
  }

  lemma ReplacedLine(lines: seq<string>, n: nat, line: string)
    requires n < |lines| && NL !in line && forall l :: l in lines ==> NL !in l
    ensures Split(Join(lines[n := line])) == lines[..n] + [line] + lines[n + 1..]
  {
    hide Split, Join;
    assert lines[n := line] == lines[..n] + [line] + lines[n + 1..];
    forall l | l in lines[n := line]
      ensures NL !in l
    {
      assert l == line || l in lines;
    }
    SplitJoin(lines[n := line]);
  }

  lemma AppendedLines(content: string, line: string)
    requires NL !in line
    ensures Split(Terminated(content) + line + [NL]) == Body(Split(content)) + [line, ""]
  {
    hide Split;
    SplitOne("");
    SplitOne(line);
    SplitAppend(line, "");
    assert line + [NL] + "" == line + [NL];
    if content == "" {
      assert Terminated(content) + line + [NL] == line + [NL];
    } else if content[|content| - 1] == NL {
      AfterNewline(content[..|content| - 1], line);
      assert content == content[..|content| - 1] + [NL];
    } else {
      SplitAppend(content, line + [NL]);
      assert content + [NL] + line + [NL] == content + [NL] + (line + [NL]);
      NoBlankEnd(content);
    }
  }

  lemma AfterNewline(init: string, line: string)
    requires Split(line + [NL]) == [line, ""]
    ensures Split(init + [NL] + line + [NL]) == Body(Split(init + [NL])) + [line, ""]
  {
    hide Split;
    SplitOne("");
    SplitAppend(init, "");
    assert init + [NL] + "" == init + [NL];
    SplitAppend(init, line + [NL]);
    assert init + [NL] + line + [NL] == init + [NL] + (line + [NL]);
  }

  lemma {:induction false} NoBlankEnd(s: string)
    requires s != "" && s[|s| - 1] != NL
    ensures Split(s)[|Split(s)| - 1] != ""
    decreases |s|
  {
    var n := LineLen(s);
    if n < |s| {
      NoBlankEnd(s[n + 1..]);
    }
  }

  lemma LookUpBody(lines: seq<string>, key: string)
    requires lines != []
    ensures LookUp(Body(lines), key) == LookUp(lines, key) && Count(Body(lines), key) == Count(lines, key)
  {
    if lines[|lines| - 1] == "" {
      var init := lines[..|lines| - 1];
      assert init + [""] == lines;
      BlankAssignsNothing(key);
      LookUpConcat(init, [""], key);
      LookUpOne("", key);
    }
  }

  lemma LookUpThree(a: seq<string>, line: string, b: seq<string>, key: string)
    ensures LookUp(a + [line] + b, key) ==
      if LookUp(a, key).Some? then LookUp(a, key)
      else if Assigned(line, key).Some? then Assigned(line, key)
      else LookUp(b, key)
    ensures Count(a + [line] + b, key) ==
      Count(a, key) + (if Assigned(line, key).Some? then 1 else 0) + Count(b, key)
  {
    hide Assigned, LookUp, Count;
    LookUpConcat(a + [line], b, key);
    LookUpConcat(a, [line], key);
    LookUpOne(line, key);
    CountConcat(a + [line], b, key);
    CountConcat(a, [line], key);
  }

  /** The lines around the first assignment. */
  lemma AroundFirst(lines: seq<string>, key: string)
    requires FirstAssignment(lines, key) < |lines|
    ensures var n := FirstAssignment(lines, key);
      lines == lines[..n] + [lines[n]] + lines[n + 1..] && LookUp(lines[..n], key).None?
  {
    hide Assigned;
    var n := FirstAssignment(lines, key);
    forall l | l in lines[..n]
      ensures Assigned(l, key).None?
    {
    }
    NoneIs(lines[..n], key);
  }

  // ---------- the laws ----------

  /** An earlier non-empty value wins; otherwise the new value is the one read. */
  lemma ReadsBack(content: string, key: string, value: string)
    requires NL !in key && (key != "" ==> !Space(key[0])) && Solid(value)
    ensures var before := Parsed(content, key);
      Parsed(Ensured(content, key, value), key)
      == Some(if before.Some? && before.value != "" then before.value else value)
  {
    hide Assigned, FirstAssignment, Split, Ensured, Count;
    var lines := Split(content);
    var n := FirstAssignment(lines, key);
    var line := key + "=" + value;
    EditedLines(content, key, value);
    WrittenAssigns(key, value);
    if n == |lines| {
      LookUpBody(lines, key);
      assert Body(lines) + [line, ""] == Body(lines) + [line] + [""];
      LookUpThree(Body(lines), line, [""], key);
    } else {
      AroundFirst(lines, key);
      LookUpThree(lines[..n], line, lines[n + 1..], key);
    }
  }

  /** No other variable changes. */
  lemma OthersKept(content: string, key: string, value: string, other: string)
    requires GoodKey(key) && Solid(value) && '=' !in other && other != key
    ensures Parsed(Ensured(content, key, value), other) == Parsed(content, other)
  {
    hide Assigned, FirstAssignment, Split, Ensured, Count, LookUp;
    var lines := Split(content);
    var n := FirstAssignment(lines, key);
    var line := key + "=" + value;
    EditedLines(content, key, value);
    WrittenAssigns(key, value);
    OneKeyPerLine(line, key, other);
    if n == |lines| {
      LookUpBody(lines, other);
      assert Body(lines) + [line, ""] == Body(lines) + [line] + [""];
      LookUpThree(Body(lines), line, [""], other);
      BlankAssignsNothing(other);
      LookUpOne("", other);
    } else {
      OneKeyPerLine(lines[n], key, other);
      AroundFirst(lines, key);
      LookUpThree(lines[..n], line, lines[n + 1..], other);
      LookUpThree(lines[..n], lines[n], lines[n + 1..], other);
    }
  }

  /** The file has as many assignments of the key as before, and at least one. */
  lemma CountGrowsToOne(content: string, key: string, value: string)
    requires NL !in key && (key != "" ==> !Space(key[0])) && Solid(value)
    ensures Count(Split(Ensured(content, key, value)), key) == MaxInt(1, Count(Split(content), key))
  {
    hide Assigned, FirstAssignment, Split, Ensured, Count;
    var lines := Split(content);
    var n := FirstAssignment(lines, key);
    var line := key + "=" + value;
    EditedLines(content, key, value);
    WrittenAssigns(key, value);
    CountNone(lines, key);
    if n == |lines| {
      LookUpBody(lines, key);
      assert Body(lines) + [line, ""] == Body(lines) + [line] + [""];
      LookUpThree(Body(lines), line, [""], key);
      BlankAssignsNothing(key);
      LookUpOne("", key);
    } else {
      AroundFirst(lines, key);
      LookUpThree(lines[..n], line, lines[n + 1..], key);
      LookUpThree(lines[..n], lines[n], lines[n + 1..], key);
    }
  }

  /** Once a variable has a non-empty value, editing it in again does nothing. */
  lemma NonEmptyIsFinal(content: string, key: string, value: string)
    requires Parsed(content, key).Some? && Parsed(content, key).value != ""
    ensures Ensured(content, key, value) == content
  {
  }

  lemma EnsureIdempotent(content: string, key: string, value: string)
    requires NL !in key && (key != "" ==> !Space(key[0])) && Solid(value)
    ensures var once := Ensured(content, key, value);
      Ensured(once, key, value) == once
  {
    hide Split, LookUp;
    var once := Ensured(content, key, value);
    ReadsBack(content, key, value);
    if Parsed(once, key).value != "" {
      NonEmptyIsFinal(once, key, value);
    } else {
      EmptyStays(content, key);
    }
  }

  /** The empty value is the one case where the second edit writes again. */
  lemma EmptyStays(content: string, key: string)
    requires NL !in key && (key != "" ==> !Space(key[0]))
    requires Parsed(Ensured(content, key, ""), key) == Some("")
    ensures var once := Ensured(content, key, "");
      Ensured(once, key, "") == once
  {
    var once := Ensured(content, key, "");
    var lines := Split(content);
    var n := FirstAssignment(lines, key);
    EditedLines(content, key, "");
    WrittenAssigns(key, "");
    JoinSplit(once);
    hide Assigned, Split, Join, FirstAssignment, Ensured;
    var line := key + "=" + "";
    if n == |lines| {
      AppendedFirst(Body(lines), line, key, lines);
    } else {
      AroundFirst(lines, key);
      ReplacedFirst(lines, line, key);
    }
    WritesSame(once, key);
  }

  lemma AppendedFirst(body: seq<string>, line: string, key: string, lines: seq<string>)
    requires lines != [] && body == Body(lines) && FirstAssignment(lines, key) == |lines|
    requires Assigned(line, key).Some?
    ensures FirstAssignment(body + [line, ""], key) == |body| && (body + [line, ""])[|body|] == line
  {
    hide Assigned, FirstAssignment;
    var all := body + [line, ""];
    forall j | 0 <= j < |body|
      ensures Assigned(all[j], key).None?
    {
      assert all[j] == lines[j];
    }
    FirstIs(all, key, |body|);
  }

  lemma ReplacedFirst(lines: seq<string>, line: string, key: string)
    requires FirstAssignment(lines, key) < |lines| && Assigned(line, key).Some?
    ensures var n := FirstAssignment(lines, key);
      FirstAssignment(lines[..n] + [line] + lines[n + 1..], key) == n
  {
    hide Assigned, FirstAssignment;
    var n := FirstAssignment(lines, key);
    var all := lines[..n] + [line] + lines[n + 1..];
    forall j | 0 <= j < n
      ensures Assigned(all[j], key).None?
    {
      assert all[j] == lines[j];
    }
    FirstIs(all, key, n);
  }

  lemma WritesSame(content: string, key: string)
    requires var lines := Split(content);
      var n := FirstAssignment(lines, key);
      n < |lines| && lines[n] == key + "=" + ""
    ensures Ensured(content, key, "") == content
  {
    hide Assigned, Split, Join, FirstAssignment;
    JoinSplit(content);
    var lines := Split(content);
    var n := FirstAssignment(lines, key);
    assert lines[n := key + "=" + ""] == lines;
  }

  // ---------- running setup again ----------

  lemma KeysAreGood()
    ensures GoodKey(PASSWORD) && GoodKey(UID) && GoodKey(GID)
    ensures PASSWORD != UID && PASSWORD != GID && UID != GID
  {
    assert PASSWORD[0] == 'P' && UID[0] == 'Q' && GID[0] == 'Q';
    assert UID[8] == 'U' && GID[8] == 'G';
  }

  predicate GoodValue(v: string) {
    v != "" && Solid(v)
  }

  predicate HasValue(content: string, key: string) {
    Parsed(content, key).Some? && Parsed(content, key).value != ""
  }

  lemma EnsureGivesValue(content: string, key: string, value: string)
    requires GoodKey(key) && GoodValue(value)
    ensures HasValue(Ensured(content, key, value), key)
  {
    hide Parsed, Ensured;
    ReadsBack(content, key, value);
  }

  /** After one run every variable has its value, and the password is the one
      the run returned. */
  lemma OneRun(existing: string, random: string, uid: string, gid: string)
    requires GoodValue(random) && GoodValue(uid) && GoodValue(gid)
    ensures var m := Materialized(existing, random, uid, gid);
      && m.1 != "" && Parsed(m.0, PASSWORD) == Some(m.1)
      && HasValue(m.0, UID) && HasValue(m.0, GID)
  {
    hide Parsed, Ensured, Solid, GoodKey;
    KeysAreGood();
    var m := Materialized(existing, random, uid, gid);
    var c1 := if HasValue(existing, PASSWORD) then existing else Ensured(existing, PASSWORD, random);
    var c2 := Ensured(c1, UID, uid);
    GoodKeyParts(PASSWORD);
    GoodKeyParts(UID);
    ReadsBack(existing, PASSWORD, random);
    OthersKept(c1, UID, uid, PASSWORD);
    OthersKept(c2, GID, gid, PASSWORD);
    EnsureGivesValue(c1, UID, uid);
    OthersKept(c2, GID, gid, UID);
    EnsureGivesValue(c2, GID, gid);
  }

  /** What a variable reads as after it was ensured. */
  function Kept(before: Option<string>, value: string): string {
    if before.Some? && before.value != "" then before.value else value
  }

  /** After one run the password, user and group each read as what the file already
      said, and otherwise as the new password and the invoking user's own ids. */
  lemma EachReadsAsItsOwn(existing: string, random: string, uid: string, gid: string)
    requires GoodValue(random) && GoodValue(uid) && GoodValue(gid)
    ensures var m := Materialized(existing, random, uid, gid);
      && m.1 == Kept(Parsed(existing, PASSWORD), random) && Parsed(m.0, PASSWORD) == Some(m.1)
      && Parsed(m.0, UID) == Some(Kept(Parsed(existing, UID), uid))
      && Parsed(m.0, GID) == Some(Kept(Parsed(existing, GID), gid))
  {
    hide Parsed, Ensured, Solid, GoodKey;
    KeysAreGood();
    OneRun(existing, random, uid, gid);
    var c1 := if HasValue(existing, PASSWORD) then existing else Ensured(existing, PASSWORD, random);
    var c2 := Ensured(c1, UID, uid);
    GoodKeyParts(PASSWORD);
    GoodKeyParts(UID);
    GoodKeyParts(GID);
    OthersKept(existing, PASSWORD, random, UID);
    OthersKept(existing, PASSWORD, random, GID);
    ReadsBack(c1, UID, uid);
    OthersKept(c1, UID, uid, GID);
    OthersKept(c2, GID, gid, UID);
    ReadsBack(c2, GID, gid);
  }

  lemma GoodKeyParts(key: string)
    requires GoodKey(key)
    ensures '=' !in key && NL !in key && (key != "" ==> !Space(key[0]))
  {
  }

  /** Whatever random number and user a later run has, it returns the same
      password and leaves the file alone: the database is not orphaned. */
  lemma SecondRunChangesNothing(
      existing: string, random: string, uid: string, gid: string, random2: string, uid2: string, gid2: string)
    requires GoodValue(random) && GoodValue(uid) && GoodValue(gid)
    ensures var m := Materialized(existing, random, uid, gid);
      Materialized(m.0, random2, uid2, gid2) == m
  {
    hide Parsed, Ensured, Solid;
    var m := Materialized(existing, random, uid, gid);
    OneRun(existing, random, uid, gid);
    NonEmptyIsFinal(m.0, UID, uid2);
    NonEmptyIsFinal(m.0, GID, gid2);
  }
}
