/** Strings written into the generated configuration (internal/setup/writeconfig.go
    and its template) and how a TOML reader gets them back. */
module Toml {
  import opened Basics

  const QUOTE := '\"'
  const BACKSLASH := '\\'

  /** strings.ReplaceAll for a one-character pattern. */
  function ReplaceAll(s: string, c: char, with: string): string {
    if s == "" then "" else (if s[0] == c then with else [s[0]]) + ReplaceAll(s[1..], c, with)
  }

  /** tomlEscape. */
  function Escape(s: string): string {
    ReplaceAll(ReplaceAll(s, BACKSLASH, [BACKSLASH, BACKSLASH]), QUOTE, [BACKSLASH, QUOTE])
  }

  // ---------- the reader: TOML v1.0.0, section "String" ----------

  /** Control characters other than tab may not appear in a basic string. */
  predicate Forbidden(c: char) {
    (c as int < 0x20 && c != '\t') || c as int == 0x7F
  }

  predicate Clean(s: string) {
    forall c :: c in s ==> !Forbidden(c)
  }

  /** What a one-letter escape stands for. */
  function Unescaped(c: char): Option<char> {
    if c == QUOTE || c == BACKSLASH then Some(c)
    else if c == 'b' then Some(8 as char)
    else if c == 't' then Some('\t')
    else if c == 'n' then Some('\n')
    else if c == 'f' then Some(12 as char)
    else if c == 'r' then Some('\r')
    else None
  }

  /** A basic string whose opening quote has been read: its value and what
      follows its closing quote. */
  function ReadBasic(s: string): Option<(string, string)> {
    if s == "" then None
    else if s[0] == QUOTE then Some(("", s[1..]))
    else if s[0] == BACKSLASH then
      if |s| < 2 || Unescaped(s[1]).None? then None
      else
        match ReadBasic(s[2..])
        case None => None
        case Some(more) => Some(([Unescaped(s[1]).value] + more.0, more.1))
    else if Forbidden(s[0]) then None
    else
      match ReadBasic(s[1..])
      case None => None
      case Some(more) => Some(([s[0]] + more.0, more.1))
  }

  type Pair = (string, string)

  const SEPARATOR: string := [QUOTE] + " = " + [QUOTE]

  /** Lines of the form "key" = "value", up to the first that does not begin
      with a quote. */
  function ReadPairs(s: string): Option<(seq<Pair>, string)>
    decreases |s|
  {
    if s == "" || s[0] != QUOTE then Some(([], s))
    else
      match ReadBasic(s[1..])
      case None => None
      case Some(key) =>
        if |key.1| >= |s| || !(" = " + [QUOTE] <= key.1) then None
        else
          match ReadBasic(key.1[4..])
          case None => None
          case Some(value) =>
            if |value.1| >= |s| || !("\n" <= value.1) then None
            else
              match ReadPairs(value.1[1..])
              case None => None
              case Some(more) => Some(([(key.0, value.0)] + more.0, more.1))
  }

  // ---------- the writer ----------

  /** One turn of the template's range over the aliases. */
  function Line(key: string, value: string): string {
    [QUOTE] + key + SEPARATOR + value + [QUOTE] + "\n"
  }

  /** The template visits the keys of the map in some order, each once. */
  function Rendered(m: map<string, string>, order: seq<string>): string
    requires forall k :: k in order ==> k in m
  {
    if order == [] then "" else Line(order[0], m[order[0]]) + Rendered(m, order[1..])
  }

  predicate Lists(order: seq<string>, keys: set<string>) {
    && (forall k :: k in order ==> k in keys) && (forall k :: k in keys ==> k in order)
    && (forall i, j :: 0 <= i < j < |order| ==> order[i] != order[j])
  }

  // ---------- escaping ----------

  function EscapedChar(c: char): string {
    if c == BACKSLASH then [BACKSLASH, BACKSLASH] else if c == QUOTE then [BACKSLASH, QUOTE] else [c]
  }

  lemma ReplaceCons(x: char, s: string, c: char, with: string)
    ensures ReplaceAll([x] + s, c, with) == (if x == c then with else [x]) + ReplaceAll(s, c, with)
  {
    assert ([x] + s)[1..] == s;
  }

  lemma EscapeCons(c: char, s: string)
    ensures Escape([c] + s) == EscapedChar(c) + Escape(s)
    ensures Escape("") == ""
  {
    var doubled := [BACKSLASH, BACKSLASH];
    var once := ReplaceAll(s, BACKSLASH, doubled);
    ReplaceCons(c, s, BACKSLASH, doubled);
    if c == BACKSLASH {
      assert doubled + once == [BACKSLASH] + ([BACKSLASH] + once);
      ReplaceCons(BACKSLASH, [BACKSLASH] + once, QUOTE, [BACKSLASH, QUOTE]);
      ReplaceCons(BACKSLASH, once, QUOTE, [BACKSLASH, QUOTE]);
    } else {
      ReplaceCons(c, once, QUOTE, [BACKSLASH, QUOTE]);
    }
  }

  /** Reading back what was escaped gives the original, up to the closing quote
      that was written after it, exactly when it has no control character other
      than a tab; with one it is not a string at all. */
  lemma {:induction false} ReadsBack(s: string, rest: string)
    ensures ReadBasic(Escape(s) + [QUOTE] + rest) == if Clean(s) then Some((s, rest)) else None
  {
    hide Escape, ReadBasic;
    if s == "" {
      EscapeCons('a', "");
      assert Escape(s) + [QUOTE] + rest == [QUOTE] + rest;
      ReadQuote(rest);
    } else {
      var c, tail := s[0], s[1..];
      assert s == [c] + tail;
      EscapeCons(c, tail);
      ReadsBack(tail, rest);
      var more := Escape(tail) + [QUOTE] + rest;
      assert Escape(s) + [QUOTE] + rest == EscapedChar(c) + more;
      ReadEscaped(c, more);
      assert Clean(s) <==> !Forbidden(c) && Clean(tail) by {
        assert c in s && forall d :: d in tail ==> d in s;
      }
    }
  }

  lemma ReadQuote(rest: string)
    ensures ReadBasic([QUOTE] + rest) == Some(("", rest))
  {
    assert ([QUOTE] + rest)[1..] == rest;
  }

  lemma ReadEscaped(c: char, more: string)
    ensures ReadBasic(EscapedChar(c) + more) ==
      if Forbidden(c) || ReadBasic(more).None? then None
      else Some(([c] + ReadBasic(more).value.0, ReadBasic(more).value.1))
  {
    var s := EscapedChar(c) + more;
    if c == BACKSLASH || c == QUOTE {
      assert s[2..] == more && s[0] == BACKSLASH && s[1] == c;
    } else {
      assert s[1..] == more && s[0] == c;
    }
  }

  /** Undoing the escapes, whatever the characters. */
  function Undone(s: string): string {
    if s == "" then ""
    else if s[0] == BACKSLASH && |s| >= 2 then [s[1]] + Undone(s[2..])
    else [s[0]] + Undone(s[1..])
  }

  lemma {:induction false} UndoneEscape(s: string)
    ensures Undone(Escape(s)) == s
  {
    if s == "" {
      EscapeCons('a', "");
    } else {
      var c, tail := s[0], s[1..];
      assert s == [c] + tail;
      EscapeCons(c, tail);
      UndoneEscape(tail);
      UndoneChar(c, Escape(tail));
    }
  }

  lemma UndoneChar(c: char, more: string)
    ensures Undone(EscapedChar(c) + more) == [c] + Undone(more)
  {
    var s := EscapedChar(c) + more;
    if c == BACKSLASH || c == QUOTE {
      assert s[2..] == more;
    } else {
      assert s[1..] == more;
    }
  }

  lemma EscapeInjective(s: string, t: string)
    requires Escape(s) == Escape(t)
    ensures s == t
  {
    UndoneEscape(s);
    UndoneEscape(t);
  }

  // ---------- the alias map ----------

  predicate EscapedMap(m: map<string, string>, aliases: map<string, string>) {
    && (forall k :: k in aliases ==> Escape(k) in m && m[Escape(k)] == Escape(aliases[k]))
    && (forall e :: e in m ==> Undone(e) in aliases && e == Escape(Undone(e)))
  }

  /** The loop of renderConfig: every alias keeps an entry of its own. */
  method EscapeAliases(aliases: map<string, string>) returns (escaped: map<string, string>)
    ensures EscapedMap(escaped, aliases)
    ensures |escaped| == |aliases|
  {
    hide Escape, Undone, EscapedMap;
    escaped := map[];
    var todo := aliases.Keys;
    NoEntries(aliases);
    while todo != {}
      invariant todo <= aliases.Keys
      invariant EscapedMap(escaped, aliases - todo) && |escaped| == |aliases - todo|
      decreases |todo|
    {
      var k :| k in todo;
      NewEntry(escaped, aliases - todo, k, aliases[k]);
      assert aliases - (todo - {k}) == (aliases - todo)[k := aliases[k]];
      escaped := escaped[Escape(k) := Escape(aliases[k])];
      todo := todo - {k};
    }
    assert aliases - {} == aliases;
  }

  lemma NoEntries(aliases: map<string, string>)
    ensures aliases - aliases.Keys == map[] && EscapedMap(map[], map[])
  {
  }

  lemma NewEntry(m: map<string, string>, done: map<string, string>, k: string, v: string)
    requires EscapedMap(m, done) && k !in done
    ensures EscapedMap(m[Escape(k) := Escape(v)], done[k := v])
    ensures |m[Escape(k) := Escape(v)]| == |m| + 1 && |done[k := v]| == |done| + 1
  {
    UndoneEscape(k);
    hide Escape, Undone;
    forall j | j in done
      ensures Escape(j) != Escape(k)
    {
      if Escape(j) == Escape(k) {
        EscapeInjective(j, k);
      }
    }
    assert Escape(k) !in m;
  }

  // ---------- the rendered table ----------

  lemma ReadLine(key: string, value: string, rest: string)
    ensures ReadPairs(Line(Escape(key), Escape(value)) + rest) ==
      if !Clean(key) || !Clean(value) || ReadPairs(rest).None? then None
      else Some(([(key, value)] + ReadPairs(rest).value.0, ReadPairs(rest).value.1))
  {
    hide Escape, ReadBasic, Clean;
    var s := Line(Escape(key), Escape(value)) + rest;
    var afterValue := "\n" + rest;
    var afterKey := " = " + [QUOTE] + (Escape(value) + [QUOTE] + afterValue);
    assert s[1..] == Escape(key) + [QUOTE] + afterKey;
    ReadsBack(key, afterKey);
    assert afterKey[4..] == Escape(value) + [QUOTE] + afterValue;
    ReadsBack(value, afterValue);
    assert afterValue[1..] == rest;
  }

  predicate AllClean(m: map<string, string>) {
    forall k :: k in m ==> Clean(k) && Clean(m[k])
  }

  /** The aliases behind the rendered lines, in their order. */
  function PairsOf(aliases: map<string, string>, order: seq<string>): seq<Pair>
    requires forall e :: e in order ==> Undone(e) in aliases
  {
    if order == [] then [] else [(Undone(order[0]), aliases[Undone(order[0])])] + PairsOf(aliases, order[1..])
  }

  predicate CleanPairs(pairs: seq<Pair>) {
    forall p :: p in pairs ==> Clean(p.0) && Clean(p.1)
  }

  lemma {:induction false} ReadRendered(escaped: map<string, string>, aliases: map<string, string>, order: seq<string>, rest: string)
    requires EscapedMap(escaped, aliases) && forall e :: e in order ==> e in escaped
    requires rest == "" || rest[0] != QUOTE
    ensures ReadPairs(Rendered(escaped, order) + rest) ==
      if CleanPairs(PairsOf(aliases, order)) then Some((PairsOf(aliases, order), rest)) else None
  {
    hide Escape, Undone, Clean, Line, ReadPairs;
    if order == [] {
      assert Rendered(escaped, order) + rest == rest;
      ReadNone(rest);
    } else {
      var e, more := order[0], order[1..];
      assert e in order && forall f :: f in more ==> f in order;
      var k := Undone(e);
      assert Rendered(escaped, order) + rest == Line(e, escaped[e]) + (Rendered(escaped, more) + rest);
      ReadLine(k, aliases[k], Rendered(escaped, more) + rest);
      ReadRendered(escaped, aliases, more, rest);
      PairsSplit((k, aliases[k]), PairsOf(aliases, more));
    }
  }

  lemma PairsSplit(p: Pair, more: seq<Pair>)
    ensures CleanPairs([p] + more) <==> Clean(p.0) && Clean(p.1) && CleanPairs(more)
  {
    hide Clean;
    assert p in [p] + more && forall q :: q in more ==> q in [p] + more;
  }

  lemma ReadNone(rest: string)
    requires rest == "" || rest[0] != QUOTE
    ensures ReadPairs(rest) == Some(([], rest))
  {
  }

  lemma {:induction false} PairsAre(aliases: map<string, string>, order: seq<string>)
    requires forall e :: e in order ==> Undone(e) in aliases
    ensures |PairsOf(aliases, order)| == |order|
    ensures forall i :: 0 <= i < |order| ==> PairsOf(aliases, order)[i] == (Undone(order[i]), aliases[Undone(order[i])])
  {
    hide Undone;
    if order != [] {
      assert order[0] in order && forall f :: f in order[1..] ==> f in order;
      PairsAre(aliases, order[1..]);
    }
  }

  /** The table a reader gets from its pairs; a repeated key is an error. */
  ghost predicate Table(pairs: seq<Pair>, m: map<string, string>) {
    && (forall i, j :: 0 <= i < j < |pairs| ==> pairs[i].0 != pairs[j].0)
    && (forall i :: 0 <= i < |pairs| ==> pairs[i].0 in m && m[pairs[i].0] == pairs[i].1)
    && (forall k :: k in m ==> exists i :: 0 <= i < |pairs| && pairs[i].0 == k)
  }

  lemma AliasAt(escaped: map<string, string>, aliases: map<string, string>, order: seq<string>, k: string) returns (i: nat)
    requires EscapedMap(escaped, aliases) && Lists(order, escaped.Keys) && k in aliases
    ensures i < |PairsOf(aliases, order)| && PairsOf(aliases, order)[i] == (k, aliases[k])
  {
    hide Escape, Undone;
    UndoneEscape(k);
    PairsAre(aliases, order);
    assert Escape(k) in order;
    i :| 0 <= i < |order| && order[i] == Escape(k);
  }

  lemma RenderedTable(escaped: map<string, string>, aliases: map<string, string>, order: seq<string>)
    requires EscapedMap(escaped, aliases) && Lists(order, escaped.Keys)
    ensures Table(PairsOf(aliases, order), aliases)
  {
    hide Escape, Undone, PairsOf;
    var pairs := PairsOf(aliases, order);
    PairsAre(aliases, order);
    forall k | k in aliases
      ensures exists i :: 0 <= i < |pairs| && pairs[i].0 == k
    {
      var i := AliasAt(escaped, aliases, order, k);
    }
    forall i, j | 0 <= i < j < |pairs|
      ensures pairs[i].0 != pairs[j].0
    {
      assert order[i] in escaped && order[j] in escaped;
    }
    forall i | 0 <= i < |pairs|
      ensures pairs[i].0 in aliases && aliases[pairs[i].0] == pairs[i].1
    {
      assert order[i] in escaped;
    }
  }

  lemma RenderedClean(escaped: map<string, string>, aliases: map<string, string>, order: seq<string>)
    requires EscapedMap(escaped, aliases) && Lists(order, escaped.Keys)
    ensures CleanPairs(PairsOf(aliases, order)) <==> AllClean(aliases)
  {
    hide Escape, Undone, Clean, PairsOf;
    var pairs := PairsOf(aliases, order);
    RenderedTable(escaped, aliases, order);
    forall k | k in aliases
      ensures (k, aliases[k]) in pairs
    {
      var i := AliasAt(escaped, aliases, order, k);
    }
    forall p | p in pairs
      ensures p.0 in aliases && aliases[p.0] == p.1
    {
    }
  }

  /** A reader of the generated [aliases] table gets every alias back, and no
      other, exactly when no id or display name holds a control character other
      than a tab; otherwise the file does not parse. The template may visit the
      entries in any order. */
  lemma AliasesSurvive(aliases: map<string, string>, escaped: map<string, string>, order: seq<string>, rest: string)
    requires EscapedMap(escaped, aliases) && Lists(order, escaped.Keys)
    requires rest == "" || rest[0] != QUOTE
    ensures var read := ReadPairs(Rendered(escaped, order) + rest);
      && (read.Some? <==> AllClean(aliases))
      && (read.Some? ==> Table(read.value.0, aliases) && read.value.1 == rest)
  {
    hide Escape, Undone, ReadPairs, Rendered, Table, CleanPairs, AllClean;
    ReadRendered(escaped, aliases, order, rest);
    RenderedTable(escaped, aliases, order);
    RenderedClean(escaped, aliases, order);
  }
}
