/** What the two configurations say once the setup wizard has patched them. */
module YamlSettings {
  import opened Basics
  import opened YamlTree
  import opened YamlNode
  import opened YamlPatch

  /** The text of the scalar at the end of the path. */
  function Setting<I>(t: Tree<I>, path: Path): Option<string> {
    match Find(t, path)
    case None => None
    case Some(n) => if n.kind == ScalarNode then Some(n.value) else None
  }

  lemma {:induction false} FindThrough<I>(t: Tree<I>, p: Path, q: Path)
    requires Find(t, p).Some?
    ensures Find(t, p + q) == Find(Find(t, p).value, q)
    decreases |p|
  {
    if p == [] {
      assert p + q == q;
    } else {
      assert (p + q)[1..] == p[1..] + q;
      FindThrough(t.kids[Pair(t, p[0]).value + 1], p[1..], q);
    }
  }

  /** Every edit of a script that succeeded can be read off the result. */
  lemma ScriptSays<I>(script: seq<(Path, Tree<()>)>, run: seq<Tree<I>>, edits: seq<Edit<I>>, j: nat)
    requires Independent(script) && Ran(script, true, run, edits) && j < |script|
    ensures Find(Erase(run[|edits|]), script[j].0) == Some(script[j].1)
  {
    hide Find, Erase, SetAt, WellFormed;
    EditsStick(run, edits, j, |edits|);
    FindErase(run[|edits|], edits[j].path);
    assert Script(edits)[j] == script[j];
  }

  lemma {:induction false} PairPlace(pairs: seq<(string, Tree<()>)>, j: nat)
    requires DistinctKeys(pairs) && j < |pairs|
    ensures Pair(PairsTree(pairs), pairs[j].0).Some? && Pair(PairsTree(pairs), pairs[j].0).value == 2 * j
    ensures PairsTree(pairs).kids[2 * j + 1] == pairs[j].1
  {
    var front, n := pairs[..|pairs| - 1], |pairs| - 1;
    var kids := PairsTree(front).kids;
    var last := PairsTree(pairs).kids[|kids|..];
    assert PairsTree(pairs).kids == kids + last;
    PairFromAppend(kids, last, pairs[j].0, 0);
    if j < n {
      PairPlace(front, j);
    } else {
      PairsLookup(front, pairs[j].0);
      assert last[0] == StrTree(pairs[j].0);
    }
  }

  lemma FindOne<I>(t: Tree<I>, key: string)
    requires t.kind == MappingNode && Pair(t, key).Some?
    ensures Find(t, [key]) == Some(t.kids[Pair(t, key).value + 1])
  {
    hide Pair;
    var v := t.kids[Pair(t, key).value + 1];
    assert [key][1..] == [] && Find(v, []) == Some(v);
  }

  lemma PairSays(pairs: seq<(string, Tree<()>)>, j: nat)
    requires DistinctKeys(pairs) && j < |pairs|
    ensures Find(PairsTree(pairs), [pairs[j].0]) == Some(pairs[j].1)
  {
    hide Find, Pair, PairsTree;
    PairPlace(pairs, j);
    PairsAreMapping(pairs);
    FindOne(PairsTree(pairs), pairs[j].0);
  }

  lemma PairsAreMapping(pairs: seq<(string, Tree<()>)>)
    ensures PairsTree(pairs).kind == MappingNode
  {
  }

  /** After the step the homeserver uses the wizard's Postgres database with the
      password of the .env file, knows the bridge, and is closed to registration. */
  lemma SynapseSettled<I>(dbPassword: string, run: seq<Tree<I>>, edits: seq<Edit<I>>)
    requires Ran(SynapseScript(dbPassword), true, run, edits)
    ensures var t := Erase(run[|edits|]);
      && Setting(t, ["database", "name"]) == Some("psycopg2")
      && Setting(t, ["enable_registration"]) == Some("false")
      && Find(t, ["app_service_config_files"]).Some?
      && Find(t, ["app_service_config_files"]).value.kind == SequenceNode
      && |Find(t, ["app_service_config_files"]).value.kids| == 1
      && Find(t, ["app_service_config_files"]).value.kids[0].value == "/appservices/registration.yaml"
  {
    hide Find, Erase, Ran, Independent;
    SynapseIndependent(dbPassword);
    var script := SynapseScript(dbPassword);
    ScriptSays(script, run, edits, 0);
    ScriptSays(script, run, edits, 2);
    ScriptSays(script, run, edits, 3);
  }

  lemma DatabaseSettled<I>(dbPassword: string, run: seq<Tree<I>>, edits: seq<Edit<I>>)
    requires Ran(SynapseScript(dbPassword), true, run, edits)
    ensures var t := Erase(run[|edits|]);
      && Setting(t, ["database", "args", "user"]) == Some("synapse")
      && Setting(t, ["database", "args", "password"]) == Some(dbPassword)
      && Setting(t, ["database", "args", "database"]) == Some("synapse")
      && Setting(t, ["database", "args", "host"]) == Some("postgres")
      && Setting(t, ["database", "args", "cp_min"]) == Some("5")
      && Setting(t, ["database", "args", "cp_max"]) == Some("10")
  {
    hide Find, Erase, Independent, PairsTree, DistinctKeys, SetAt, WellFormed;
    SynapseIndependent(dbPassword);
    ArgKeysDistinct(dbPassword);
    var script, pairs := SynapseScript(dbPassword), ArgPairs(dbPassword);
    ScriptSays(script, run, edits, 1);
    var t, at := Erase(run[|edits|]), ["database", "args"];
    forall j | 0 <= j < |pairs|
      ensures Find(t, at + [pairs[j].0]) == Some(pairs[j].1)
    {
      PairSays(pairs, j);
      FindThrough(t, at, [pairs[j].0]);
    }
    assert at + [pairs[0].0] == ["database", "args", "user"] && at + [pairs[1].0] == ["database", "args", "password"];
    assert at + [pairs[2].0] == ["database", "args", "database"] && at + [pairs[3].0] == ["database", "args", "host"];
    assert at + [pairs[4].0] == ["database", "args", "cp_min"] && at + [pairs[5].0] == ["database", "args", "cp_max"];
  }

  /** After the step the bridge talks to the homeserver of this installation,
      listens for it, obeys the wizard's administrator, and encrypts. */
  lemma BridgeSettled<I>(serverName: string, adminMxid: string, run: seq<Tree<I>>, edits: seq<Edit<I>>)
    requires Ran(BridgeScript(serverName, adminMxid), true, run, edits)
    ensures var t := Erase(run[|edits|]);
      && Setting(t, ["homeserver", "address"]) == Some("http://synapse:8008")
      && Setting(t, ["homeserver", "domain"]) == Some(serverName)
      && Setting(t, ["appservice", "hostname"]) == Some("0.0.0.0")
      && Setting(t, ["bridge", "permissions", adminMxid]) == Some("admin")
      && Setting(t, ["encryption", "allow"]) == Some("true")
      && Setting(t, ["encryption", "default"]) == Some("true")
  {
    hide Find, Erase, Ran, Independent;
    BridgeIndependent(serverName, adminMxid);
    var script := BridgeScript(serverName, adminMxid);
    ScriptSays(script, run, edits, 0);
    ScriptSays(script, run, edits, 1);
    ScriptSays(script, run, edits, 2);
    ScriptSays(script, run, edits, 3);
    ScriptSays(script, run, edits, 4);
    ScriptSays(script, run, edits, 5);
  }
}
