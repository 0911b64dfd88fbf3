/** The text a reply typed as a commit message goes out as
    (lua/quietdm/composers/gitcommit.lua). */
module CommitMessage {

  /** White space as Lua patterns have it. */
  predicate White(c: char) {
    c == ' ' || 9 <= c as int <= 13
  }

  function TrimLeft(s: string): (t: string)
    ensures |t| <= |s|
    ensures t != "" ==> !White(t[0])
    ensures t == "" <==> forall c :: c in s ==> White(c)
    ensures forall c :: c in t ==> c in s
  {
    if s == "" then ""
    else if White(s[0]) then
      assert forall c :: c in s <==> c == s[0] || c in s[1..];
      TrimLeft(s[1..])
    else assert s[0] in s; s
  }

  function TrimRight(s: string): (t: string)
    ensures t <= s
    ensures t != "" ==> !White(t[|t| - 1])
    ensures s != "" && !White(s[0]) ==> t != ""
  {
    if s != "" && White(s[|s| - 1]) then TrimRight(s[..|s| - 1]) else s
  }

  /** vim.trim. */
  function Trim(s: string): string {
    TrimRight(TrimLeft(s))
  }

  /** The lines that are not blank, trimmed. */
  function Kept(lines: seq<string>): seq<string> {
    if lines == [] then []
    else
      var last := Trim(lines[|lines| - 1]);
      Kept(lines[..|lines| - 1]) + if last != "" then [last] else []
  }

  function JoinSpaced(parts: seq<string>): string {
    if parts == [] then ""
    else if |parts| == 1 then parts[0]
    else JoinSpaced(parts[..|parts| - 1]) + " " + parts[|parts| - 1]
  }

  function Body(lines: seq<string>): string {
    JoinSpaced(Kept(lines))
  }

  lemma {:induction false} KeptIsTrimmed(lines: seq<string>)
    ensures forall p :: p in Kept(lines) ==> p != "" && !White(p[0]) && !White(p[|p| - 1])
    ensures Kept(lines) == [] <==> AllBlank(lines)
  {
    if lines != [] {
      var before, last := lines[..|lines| - 1], lines[|lines| - 1];
      hide Trim, White, AllBlank;
      KeptIsTrimmed(before);
      TrimFacts(last);
      BlankSplit(before, last);
      assert lines == before + [last];
    }
  }

  predicate AllBlank(lines: seq<string>) {
    forall i, c :: 0 <= i < |lines| && c in lines[i] ==> White(c)
  }

  lemma BlankSplit(before: seq<string>, last: string)
    ensures AllBlank(before + [last]) <==> AllBlank(before) && forall c :: c in last ==> White(c)
    ensures AllBlank([])
  {
    hide White;
    var lines := before + [last];
    assert forall i :: 0 <= i < |before| ==> lines[i] == before[i];
    assert lines[|before|] == last;
  }

  predicate SomeLineHas(lines: seq<string>, c: char) {
    exists i :: 0 <= i < |lines| && c in lines[i]
  }

  lemma {:induction false} KeptFrom(lines: seq<string>, p: string, c: char)
    requires p in Kept(lines) && c in p
    ensures SomeLineHas(lines, c)
  {
    hide Trim;
    var before, last := lines[..|lines| - 1], lines[|lines| - 1];
    if p in Kept(before) {
      KeptFrom(before, p, c);
      var i :| 0 <= i < |before| && c in before[i];
      assert c in lines[i];
    } else {
      TrimFacts(last);
      assert c in lines[|lines| - 1];
    }
  }

  lemma TrimFacts(s: string)
    ensures Trim(s) != "" ==> !White(Trim(s)[0]) && !White(Trim(s)[|Trim(s)| - 1])
    ensures Trim(s) == "" <==> forall c :: c in s ==> White(c)
    ensures forall c :: c in Trim(s) ==> c in s
  {
    var t := TrimLeft(s);
    var u := TrimRight(t);
    assert forall c :: c in u ==> c in t;
    if t != "" {
      assert t[0] in t;
    }
  }

  lemma {:induction false} JoinedEnds(parts: seq<string>)
    requires forall p :: p in parts ==> p != "" && !White(p[0]) && !White(p[|p| - 1])
    ensures JoinSpaced(parts) == "" <==> parts == []
    ensures parts != [] ==> !White(JoinSpaced(parts)[0]) && !White(JoinSpaced(parts)[|JoinSpaced(parts)| - 1])
    ensures forall c :: c in JoinSpaced(parts) ==> c == ' ' || exists p :: p in parts && c in p
  {
    if parts != [] {
      var before, last := parts[..|parts| - 1], parts[|parts| - 1];
      assert last in parts && forall p :: p in before ==> p in parts;
      JoinedEnds(before);
    }
  }

  /** A reply typed over many lines goes out as one: no newline, nothing white
      at either end, and empty exactly when every line was blank. */
  lemma BodyIsOneLine(lines: seq<string>)
    requires !SomeLineHas(lines, '\n')
    ensures '\n' !in Body(lines)
    ensures Body(lines) == "" <==> AllBlank(lines)
    ensures Body(lines) != "" ==> !White(Body(lines)[0]) && !White(Body(lines)[|Body(lines)| - 1])
  {
    hide Kept, JoinSpaced, White;
    KeptIsTrimmed(lines);
    JoinedEnds(Kept(lines));
    if '\n' in Body(lines) {
      var p :| p in Kept(lines) && '\n' in p;
      KeptFrom(lines, p, '\n');
    }
  }

  // ---------- the words of a reply ----------

  /** Length of the run of characters at the front that are not white. */
  function WordLen(s: string): (n: nat)
    ensures n <= |s|
    ensures forall i :: 0 <= i < n ==> !White(s[i])
    ensures n < |s| ==> White(s[n])
  {
    if s == "" || White(s[0]) then 0 else 1 + WordLen(s[1..])
  }

  function Words(s: string): seq<string>
    decreases |s|
  {
    if s == "" then []
    else if White(s[0]) then Words(s[1..])
    else [s[..WordLen(s)]] + Words(s[WordLen(s)..])
  }

  function WordsOf(lines: seq<string>): seq<string> {
    if lines == [] then [] else WordsOf(lines[..|lines| - 1]) + Words(lines[|lines| - 1])
  }

  lemma {:induction false} WordLenBefore(a: string, c: char, b: string)
    requires White(c)
    ensures WordLen(a + [c] + b) == WordLen(a)
  {
    var s := a + [c] + b;
    if a == "" {
      assert s[0] == c;
    } else if !White(a[0]) {
      assert s[1..] == a[1..] + [c] + b;
      WordLenBefore(a[1..], c, b);
    }
  }

  /** White space ends a word. */
  lemma {:induction false} WordsApart(a: string, c: char, b: string)
    requires White(c)
    ensures Words(a + [c] + b) == Words(a) + Words(b)
    decreases |a|
  {
    hide White, WordLen;
    var s := a + [c] + b;
    if a == "" {
      assert s[0] == c && s[1..] == b;
    } else if White(a[0]) {
      assert s[1..] == a[1..] + [c] + b;
      WordsApart(a[1..], c, b);
    } else {
      var n := WordLen(a);
      WordLenBefore(a, c, b);
      assert n > 0 by { FirstLetter(a); }
      assert s[..n] == a[..n] && s[n..] == a[n..] + [c] + b;
      WordsApart(a[n..], c, b);
      assert ([a[..n]] + Words(a[n..])) + Words(b) == [a[..n]] + (Words(a[n..]) + Words(b));
    }
  }

  lemma FirstLetter(s: string)
    requires s != "" && !White(s[0])
    ensures WordLen(s) > 0
  {
  }

  lemma {:induction false} TrimLeftWords(s: string)
    ensures Words(TrimLeft(s)) == Words(s)
  {
    if s != "" && White(s[0]) {
      TrimLeftWords(s[1..]);
    }
  }

  lemma {:induction false} TrimRightWords(s: string)
    ensures Words(TrimRight(s)) == Words(s)
  {
    if s != "" && White(s[|s| - 1]) {
      var front, c := s[..|s| - 1], s[|s| - 1];
      TrimRightWords(front);
      WordsApart(front, c, "");
      assert front + [c] + "" == s && Words(front) + Words("") == Words(front);
    }
  }

  lemma {:induction false} KeptWords(lines: seq<string>)
    ensures WordsOf(Kept(lines)) == WordsOf(lines)
  {
    if lines != [] {
      var before, last := lines[..|lines| - 1], lines[|lines| - 1];
      KeptWords(before);
      TrimLeftWords(last);
      TrimRightWords(TrimLeft(last));
      hide TrimLeft, TrimRight, Words;
      if Trim(last) != "" {
        assert Kept(lines)[..|Kept(before)|] == Kept(before);
      } else {
        NoWords();
        assert Kept(lines) == Kept(before) && WordsOf(before) + [] == WordsOf(before);
      }
    }
  }

  lemma NoWords()
    ensures Words("") == []
  {
  }

  lemma {:induction false} JoinedWords(parts: seq<string>)
    ensures Words(JoinSpaced(parts)) == WordsOf(parts)
  {
    hide Words;
    NoWords();
    if |parts| == 1 {
      assert parts[..0] == [] && WordsOf([]) == [];
      assert [] + Words(parts[0]) == Words(parts[0]);
    } else if parts != [] {
      var before, last := parts[..|parts| - 1], parts[|parts| - 1];
      JoinedWords(before);
      WordsApart(JoinSpaced(before), ' ', last);
      assert JoinSpaced(before) + [' '] + last == JoinSpaced(before) + " " + last;
    }
  }

  function Total(parts: seq<string>): nat {
    if parts == [] then 0 else Total(parts[..|parts| - 1]) + |parts[|parts| - 1]|
  }

  lemma {:induction false} JoinedLength(parts: seq<string>)
    ensures |JoinSpaced(parts)| == Total(parts) + if parts == [] then 0 else |parts| - 1
  {
    if |parts| == 1 {
      assert parts[..0] == [] && Total([]) == 0;
    } else if parts != [] {
      JoinedLength(parts[..|parts| - 1]);
    }
  }

  /** No word of the reply is lost, cut, joined to another or moved, and the lines
      that were kept stand one space apart. */
  lemma BodyKeepsWords(lines: seq<string>)
    ensures Words(Body(lines)) == WordsOf(lines)
    ensures |Body(lines)| == Total(Kept(lines)) + if AllBlank(lines) then 0 else |Kept(lines)| - 1
  {
    hide Words, White, Kept, JoinSpaced, Total;
    KeptWords(lines);
    JoinedWords(Kept(lines));
    JoinedLength(Kept(lines));
    KeptIsTrimmed(lines);
  }

  method ComposeBody(lines: seq<string>) returns (body: string)
    ensures body == Body(lines)
  {
    var kept: seq<string> := [];
    var i := 0;
    while i < |lines|
      invariant i <= |lines| && kept == Kept(lines[..i])
    {
      assert lines[..i + 1][..i] == lines[..i];
      var line := Trim(lines[i]);
      if line != "" {
        kept := kept + [line];
      }
      i := i + 1;
    }
    assert lines[..i] == lines;
    body := JoinSpaced(kept);
  }
}
