/** The .env part of the setup wizard (internal/setup/synapse.go): a text file
    read for one variable and edited line by line. */
module EnvFile {
  import opened Basics

  const NL := '\n'

  /** unicode.IsSpace. */
  predicate Space(c: char) {
    var u := c as int;
    || 9 <= u <= 13 || u == 0x20 || u == 0x85 || u == 0xA0 || u == 0x1680
    || 0x2000 <= u <= 0x200A || u == 0x2028 || u == 0x2029 || u == 0x202F || u == 0x205F || u == 0x3000
  }

  // ---------- strings ----------

  function LineLen(s: string): (n: nat)
    ensures n <= |s| && NL !in s[..n]
    ensures n < |s| ==> s[n] == NL
  {
    if s == "" || s[0] == NL then 0
    else
      assert s[..1 + LineLen(s[1..])] == [s[0]] + s[1..][..LineLen(s[1..])];
      1 + LineLen(s[1..])
  }

  /** strings.Split(s, "\n"). */
  function Split(s: string): (lines: seq<string>)
    ensures lines != []
    decreases |s|
  {
    if LineLen(s) == |s| then [s] else [s[..LineLen(s)]] + Split(s[LineLen(s) + 1..])
  }

  /** strings.Join(lines, "\n"). */
  function Join(lines: seq<string>): string {
    if lines == [] then ""
    else if |lines| == 1 then lines[0]
    else lines[0] + [NL] + Join(lines[1..])
  }

  function TrimLeft(s: string): (t: string)
    ensures |t| <= |s|
  {
    if s != "" && Space(s[0]) then TrimLeft(s[1..]) else s
  }

  function TrimRight(s: string): (t: string)
    ensures t <= s
  {
    if s != "" && Space(s[|s| - 1]) then TrimRight(s[..|s| - 1]) else s
  }

  /** strings.TrimSpace. */
  function Trim(s: string): string {
    TrimRight(TrimLeft(s))
  }

  function CutPrefix(s: string, prefix: string): Option<string> {
    if prefix <= s then Some(s[|prefix|..]) else None
  }

  // ---------- assignments ----------

  /** The value the line assigns to key, if it does. */
  function Assigned(line: string, key: string): Option<string> {
    CutPrefix(Trim(line), key + "=")
  }

  /** Index of the first line that assigns key, or |lines|. */
  function FirstAssignment(lines: seq<string>, key: string): (n: nat)
    ensures n <= |lines|
    ensures n < |lines| ==> Assigned(lines[n], key).Some?
    ensures forall i :: 0 <= i < n ==> Assigned(lines[i], key).None?
  {
    if lines == [] || Assigned(lines[0], key).Some? then 0 else 1 + FirstAssignment(lines[1..], key)
  }

  function Count(lines: seq<string>, key: string): nat {
    if lines == [] then 0
    else Count(lines[..|lines| - 1], key) + if Assigned(lines[|lines| - 1], key).Some? then 1 else 0
  }

  function LookUp(lines: seq<string>, key: string): Option<string> {
    var n := FirstAssignment(lines, key);
    if n == |lines| then None else Assigned(lines[n], key)
  }

  function Parsed(content: string, key: string): Option<string> {
    LookUp(Split(content), key)
  }

  function Terminated(content: string): string {
    if content != "" && content[|content| - 1] != NL then content + [NL] else content
  }

  function Ensured(content: string, key: string, value: string): string {
    var lines := Split(content);
    var n := FirstAssignment(lines, key);
    if n == |lines| then Terminated(content) + key + "=" + value + [NL]
    else if Assigned(lines[n], key).value != "" then content
    else Join(lines[n := key + "=" + value])
  }

  // ---------- the loops ----------

  method ParseEnvVar(content: string, key: string) returns (value: string, ok: bool)
    ensures ok == Parsed(content, key).Some?
    ensures value == if ok then Parsed(content, key).value else ""
  {
    hide Assigned, Split;
    var lines := Split(content);
    var i := 0;
    while i < |lines|
      invariant i <= |lines|
      invariant forall j :: 0 <= j < i ==> Assigned(lines[j], key).None?
    {
      var v := Assigned(lines[i], key);
      if v.Some? {
        FirstIs(lines, key, i);
        return v.value, true;
      }
      i := i + 1;
    }
    return "", false;
  }

  lemma FirstIs(lines: seq<string>, key: string, i: nat)
    requires i < |lines| && Assigned(lines[i], key).Some?
    requires forall j :: 0 <= j < i ==> Assigned(lines[j], key).None?
    ensures FirstAssignment(lines, key) == i
  {
    hide Assigned, FirstAssignment;
  }

  method EnsureEnvVar(content: string, key: string, value: string) returns (updated: string)
    ensures updated == Ensured(content, key, value)
  {
    hide Assigned, Split, Join, FirstAssignment;
    var assignment := key + "=" + value;
    var lines := Split(content);
    var i := 0;
    while i < |lines|
      invariant i <= |lines| && lines == Split(content)
      invariant forall j :: 0 <= j < i ==> Assigned(lines[j], key).None?
    {
      var v := Assigned(lines[i], key);
      if v.None? {
        i := i + 1;
        continue;
      }
      FirstIs(lines, key, i);
      if v.value != "" {
        return content;
      }
      lines := lines[i := assignment];
      return Join(lines);
    }
    updated := content;
    if updated != "" && updated[|updated| - 1] != NL {
      updated := updated + [NL];
    }
    updated := updated + assignment + [NL];
    assert Terminated(content) + assignment + [NL] == Terminated(content) + key + "=" + value + [NL];
  }

  const PASSWORD := "POSTGRES_PASSWORD"
  const UID := "QUIETDM_UID"
  const GID := "QUIETDM_GID"

  /** The file and the password after one run of the step; a missing file reads as empty. */
  function Materialized(existing: string, random: string, uid: string, gid: string): (string, string) {
    var p := Parsed(existing, PASSWORD);
    var keep := p.Some? && p.value != "";
    var withPassword := if keep then existing else Ensured(existing, PASSWORD, random);
    (Ensured(Ensured(withPassword, UID, uid), GID, gid), if keep then p.value else random)
  }

  /** random is what randomHex would return now, uid and gid the invoking user's. */
  method MaterializeEnv(file: Option<string>, random: string, uid: string, gid: string)
      returns (file': Option<string>, password: string)
    requires random != ""
    ensures var existing := if file.Some? then file.value else "";
      var m := Materialized(existing, random, uid, gid);
      && file' == (if m.0 == existing then file else Some(m.0))
      && password == m.1
  {
    hide Parsed, Ensured;
    var existing := "";
    password := "";
    if file.Some? {
      existing := file.value;
      var pw, ok := ParseEnvVar(existing, PASSWORD);
      if ok && pw != "" {
        password := pw;
      }
    }
    EmptyHasNone();
    var updated := existing;
    if password == "" {
      password := random;
      updated := EnsureEnvVar(updated, PASSWORD, password);
    }
    updated := EnsureEnvVar(updated, UID, uid);
    updated := EnsureEnvVar(updated, GID, gid);
    file' := file;
    if updated != existing {
      file' := Some(updated);
    }
  }

  lemma EmptyHasNone()
    ensures Parsed("", PASSWORD).None?
  {
    assert Split("") == [""];
    assert Trim("") == "";
  }
}
