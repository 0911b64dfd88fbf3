/** Patch scripts: sequences of SetPath calls (internal/setup/synapse.go,
    internal/setup/bridge.go), and why running one twice is running it once. */
module YamlPatch {
  import opened Basics
  import opened YamlTree
  import opened YamlNode

  // ---------- scripts on trees ----------

  datatype Edit<I> = Edit(path: Path, value: Tree<I>)

  /** run lists the trees before, between and after the edits. */
  ghost predicate Patched<I>(run: seq<Tree<I>>, edits: seq<Edit<I>>) {
    && |run| == |edits| + 1
    && run[0].kind == MappingNode && WellFormed(run[0])
    && (forall k :: 0 <= k < |edits| ==> edits[k].path != [] && WellFormed(edits[k].value))
    && (forall k :: 0 <= k < |edits| ==> SetAt(run[k], edits[k].value, edits[k].path, run[k + 1]))
  }

  /** What a script says, apart from which nodes carry it. */
  function Script<I>(edits: seq<Edit<I>>): (s: seq<(Path, Tree<()>)>)
    ensures |s| == |edits|
    ensures forall k :: 0 <= k < |edits| ==> s[k] == (edits[k].path, Erase(edits[k].value))
  {
    seq(|edits|, k requires 0 <= k < |edits| => (edits[k].path, Erase(edits[k].value)))
  }

  /** No path of the script lies on the way to another one. */
  ghost predicate Independent(s: seq<(Path, Tree<()>)>) {
    forall j, k :: 0 <= j < k < |s| ==> !Comparable(s[j].0, s[k].0)
  }

  lemma {:induction false} RunKeepsShape<I>(run: seq<Tree<I>>, edits: seq<Edit<I>>, k: nat)
    requires Patched(run, edits) && k <= |edits|
    ensures run[k].kind == MappingNode && WellFormed(run[k]) && run[k].id == run[0].id
  {
    if k > 0 {
      RunKeepsShape(run, edits, k - 1);
      SetAtWellFormed(run[k - 1], edits[k - 1].value, edits[k - 1].path, run[k]);
    }
  }

  /** Once set, a path of an independent script keeps its value to the end. */
  lemma {:induction false} EditsStick<I>(run: seq<Tree<I>>, edits: seq<Edit<I>>, j: nat, k: nat)
    requires Patched(run, edits) && Independent(Script(edits)) && j < k <= |edits|
    ensures Find(run[k], edits[j].path) == Some(edits[j].value)
  {
    hide SetAt, Find, WellFormed, Erase;
    RunKeepsShape(run, edits, k - 1);
    if k == j + 1 {
      FindAfterSet(run[j], edits[j].value, edits[j].path, run[k]);
    } else {
      EditsStick(run, edits, j, k - 1);
      assert !Comparable(Script(edits)[j].0, Script(edits)[k - 1].0);
      assert !Comparable(edits[k - 1].path, edits[j].path);
      FindElsewhere(run[k - 1], edits[k - 1].value, edits[k - 1].path, run[k], edits[j].path);
    }
  }

  /** A second run that starts from the same tree structurally: every path it
      sets already says what it is set to. */
  lemma {:induction false} SecondRunIdles<I>(run: seq<Tree<I>>, edits: seq<Edit<I>>,
                                             again: seq<Tree<I>>, edits': seq<Edit<I>>, k: nat)
    requires Patched(run, edits) && Independent(Script(edits))
    requires Patched(again, edits') && Script(edits') <= Script(edits)
    requires Erase(again[0]) == Erase(run[|edits|]) && k <= |edits'|
    ensures Erase(again[k]) == Erase(run[|edits|])
  {
    if k > 0 {
      var j := k - 1;
      SecondRunIdles(run, edits, again, edits', j);
      EditsStick(run, edits, j, |edits|);
      assert Script(edits')[j] == Script(edits)[j];
      FindErase(run[|edits|], edits[j].path);
      FindErase(again[j], edits[j].path);
      SetSame(again[j], edits'[j].value, edits'[j].path, again[k]);
    }
  }

  /** A second run cannot fail half way. */
  lemma SecondRunNeverBlocked<I>(run: seq<Tree<I>>, edits: seq<Edit<I>>,
                                 again: seq<Tree<I>>, edits': seq<Edit<I>>)
    requires Patched(run, edits) && Independent(Script(edits))
    requires Patched(again, edits') && Script(edits') <= Script(edits) && |edits'| < |edits|
    requires Erase(again[0]) == Erase(run[|edits|])
    ensures !Blocked(again[|edits'|], edits[|edits'|].path)
  {
    var j := |edits'|;
    SecondRunIdles(run, edits, again, edits', j);
    EditsStick(run, edits, j, |edits|);
    FindErase(run[|edits|], edits[j].path);
    FindErase(again[j], edits[j].path);
    FoundNotBlocked(again[j], edits[j].path);
  }

  /** A patch function's outcome on a tree: the whole script was applied, or it
      stopped at an edit whose path is blocked. */
  ghost predicate Ran<I>(script: seq<(Path, Tree<()>)>, ok: bool, run: seq<Tree<I>>, edits: seq<Edit<I>>) {
    && Patched(run, edits)
    && (ok ==> Script(edits) == script)
    && (!ok ==> |edits| < |script| && Script(edits) == script[..|edits|] && Blocked(run[|edits|], script[|edits|].0))
  }

  /** Main result: once an independent script has succeeded, running it again,
      from any tree that says the same, succeeds and gives structurally the same
      tree. */
  lemma PatchTwice<I>(script: seq<(Path, Tree<()>)>, run: seq<Tree<I>>, edits: seq<Edit<I>>,
                      ok: bool, again: seq<Tree<I>>, edits': seq<Edit<I>>)
    requires Independent(script) && Ran(script, true, run, edits) && Ran(script, ok, again, edits')
    requires Erase(again[0]) == Erase(run[|edits|])
    ensures ok && Erase(again[|edits'|]) == Erase(run[|edits|])
  {
    if !ok {
      SecondRunNeverBlocked(run, edits, again, edits');
      assert false;
    }
    SecondRunIdles(run, edits, again, edits', |edits'|);
  }

  // ---------- the two scripts ----------

  function StrTree(s: string): Tree<()> {
    Tree((), ScalarNode, "!!str", s, [])
  }

  function BoolTree(b: bool): Tree<()> {
    Tree((), ScalarNode, "!!bool", if b then "true" else "false", [])
  }

  function IntTree(s: string): Tree<()> {
    Tree((), ScalarNode, "!!int", s, [])
  }

  function ListTree(item: string): Tree<()> {
    Tree((), SequenceNode, "!!seq", "", [StrTree(item)])
  }

  function PairsTree(pairs: seq<(string, Tree<()>)>): (t: Tree<()>)
    ensures |t.kids| == 2 * |pairs|
    ensures t.(kids := []) == EmptyMap(())
  {
    if pairs == [] then EmptyMap(())
    else
      var front := PairsTree(pairs[..|pairs| - 1]);
      var (key, value) := pairs[|pairs| - 1];
      front.(kids := front.kids + [StrTree(key), value])
  }

  function ArgPairs(dbPassword: string): seq<(string, Tree<()>)> {
    [("user", StrTree("synapse")), ("password", StrTree(dbPassword)), ("database", StrTree("synapse")),
     ("host", StrTree("postgres")), ("cp_min", IntTree("5")), ("cp_max", IntTree("10"))]
  }

  function SynapseScript(dbPassword: string): seq<(Path, Tree<()>)> {
    [(["database", "name"], StrTree("psycopg2")),
     (["database", "args"], PairsTree(ArgPairs(dbPassword))),
     (["app_service_config_files"], ListTree("/appservices/registration.yaml")),
     (["enable_registration"], BoolTree(false))]
  }

  function BridgeScript(serverName: string, adminMxid: string): seq<(Path, Tree<()>)> {
    [(["homeserver", "address"], StrTree("http://synapse:8008")),
     (["homeserver", "domain"], StrTree(serverName)),
     (["appservice", "hostname"], StrTree("0.0.0.0")),
     (["bridge", "permissions", adminMxid], StrTree("admin")),
     (["encryption", "allow"], BoolTree(true)),
     (["encryption", "default"], BoolTree(true))]
  }

  lemma PartAt(p: Path, q: Path, i: nat)
    requires i < |p| && i < |q| && p[i] != q[i]
    ensures !Comparable(p, q)
  {
  }

  lemma SynapseIndependent(dbPassword: string)
    ensures Independent(SynapseScript(dbPassword))
  {
    var s := SynapseScript(dbPassword);
    assert "name"[0] != "args"[0];
    forall j, k | 0 <= j < k < |s| ensures !Comparable(s[j].0, s[k].0) {
      PartAt(s[j].0, s[k].0, if k == 1 then 1 else 0);
    }
  }

  lemma BridgeIndependent(serverName: string, adminMxid: string)
    ensures Independent(BridgeScript(serverName, adminMxid))
  {
    var s := BridgeScript(serverName, adminMxid);
    assert "homeserver"[0] == 'h' && "appservice"[0] == 'a' && "encryption"[0] == 'e';
    forall j, k | 0 <= j < k < |s| ensures !Comparable(s[j].0, s[k].0) {
      PartAt(s[j].0, s[k].0, if (j == 0 && k == 1) || j == 4 then 1 else 0);
    }
  }

  // ---------- running them on the heap ----------

  /** A patch in progress: the trees so far and the nodes the last one may use. */
  ghost predicate Patching(h: Heap, t: NTree, run: seq<NTree>, edits: seq<Edit<Node>>, own: set<Node>) {
    && Patched(run, edits) && run[0] == t
    && var cur := run[|edits|];
    && Represents(h, cur) && NoSharing(cur) && cur.id == t.id && Footprint(cur) <= own
  }

  /** The edits made so far are the first ones of the script. */
  ghost predicate Following(script: seq<(Path, Tree<()>)>, edits: seq<Edit<Node>>) {
    |edits| <= |script| && Script(edits) == script[..|edits|]
  }

  lemma FollowNext(script: seq<(Path, Tree<()>)>, edits: seq<Edit<Node>>, edits': seq<Edit<Node>>)
    requires Following(script, edits) && |edits| < |script|
    requires Script(edits') == Script(edits) + [script[|edits|]]
    ensures Following(script, edits') && |edits'| == |edits| + 1
  {
    assert |Script(edits')| == |edits'|;
  }

  /** A value ready to be attached: nodes nobody else uses. */
  ghost predicate Ready(h: Heap, v: NTree, own: set<Node>) {
    Represents(h, v) && NoSharing(v) && WellFormed(v) && Footprint(v) !! own
  }

  lemma PatchingGrows<I>(run: seq<Tree<I>>, edits: seq<Edit<I>>, e: Edit<I>, t': Tree<I>)
    requires Patched(run, edits) && e.path != [] && WellFormed(e.value)
    requires SetAt(run[|edits|], e.value, e.path, t')
    ensures Patched(run + [t'], edits + [e])
    ensures Script(edits + [e]) == Script(edits) + [(e.path, Erase(e.value))]
  {
    hide SetAt, WellFormed, Erase;
    var run', edits' := run + [t'], edits + [e];
    forall k | 0 <= k < |edits'|
      ensures SetAt(run'[k], edits'[k].value, edits'[k].path, run'[k + 1])
    {
      if k < |edits| {
        assert run'[k] == run[k] && run'[k + 1] == run[k + 1] && edits'[k] == edits[k];
      } else {
        assert run'[k] == run[|edits|] && run'[k + 1] == t' && edits'[k] == e;
      }
    }
  }

  /** One SetPath of a script. */
  method Apply(root: Node, value: Node, path: Path, ghost script: seq<(Path, Tree<()>)>,
               ghost h: Heap, ghost t: NTree, ghost run: seq<NTree>, ghost edits: seq<Edit<Node>>,
               ghost v: NTree, ghost own: set<Node>)
    returns (err: Option<PatchError>, ghost h': Heap, ghost run': seq<NTree>, ghost edits': seq<Edit<Node>>,
             ghost own': set<Node>)
    requires HeapIs(h) && t.id == root && Patching(h, t, run, edits, own)
    requires path != [] && v.id == value && Ready(h, v, own)
    requires Following(script, edits) && |edits| < |script| && script[|edits|] == (path, Erase(v))
    modifies own
    ensures HeapIs(h') && Patching(h', t, run', edits', own') && fresh(own' - own - Footprint(v))
    ensures own <= own'
    ensures err.None? ==> Following(script, edits') && |edits'| == |edits| + 1
    ensures err.Some? ==> Ran(script, false, run', edits')
  {
    hide Represents, NoSharing, WellFormed, Footprint, SetAt, Blocked, Erase, Following;
    RunKeepsShape(run, edits, |edits|);
    ghost var cur := run[|edits|];
    ghost var cur', added;
    err, h', cur', added := SetPath(root, value, path, h, cur, v);
    if err.Some? {
      run', edits', own' := run, edits, own;
      StopHere(script, run, edits);
    } else {
      PatchingGrows(run, edits, Edit(path, v), cur');
      run', edits', own' := run + [cur'], edits + [Edit(path, v)], own + Footprint(v) + added;
      FollowNext(script, edits, edits');
    }
  }

  lemma StopHere(script: seq<(Path, Tree<()>)>, run: seq<NTree>, edits: seq<Edit<Node>>)
    requires Patched(run, edits) && Following(script, edits) && |edits| < |script|
    requires Blocked(run[|edits|], script[|edits|].0)
    ensures Ran(script, false, run, edits)
  {
  }

  /** A new leaf, outside everything in use. */
  method Leaf(kind: Kind, tag: string, value: string, ghost h: Heap) returns (n: Node, ghost h': Heap, ghost v: NTree)
    requires HeapIs(h)
    ensures fresh(n) && v == Tree(n, kind, tag, value, []) && Footprint(v) == {n}
    ensures HeapIs(h') && h' == h[n := Cell(kind, tag, value, [])] && Represents(h', v) && n !in h
  {
    n := new Node(kind, tag, value);
    v := Tree(n, kind, tag, value, []);
    h' := h[n := Cell(kind, tag, value, [])];
  }

  /** A one-element sequence node. */
  method StrList(item: string, ghost h: Heap) returns (n: Node, ghost h': Heap, ghost v: NTree)
    requires HeapIs(h)
    ensures fresh(Footprint(v)) && v.id == n && Erase(v) == ListTree(item)
    ensures HeapIs(h') && Represents(h', v) && NoSharing(v) && WellFormed(v)
    ensures h.Keys <= h'.Keys && forall m :: m in h ==> h'[m] == h[m]
  {
    n := new Node(SequenceNode, "!!seq", "");
    ghost var k;
    var kid;
    kid, h', k := Leaf(ScalarNode, "!!str", item, h);
    n.content := n.content + [kid];
    h' := h'[n := Cell(SequenceNode, "!!seq", "", [kid])];
    v := Tree(n, SequenceNode, "!!seq", "", [k]);
    OneItemTree(h', k, n);
    assert Erase(k) == StrTree(item);
  }

  lemma OneItemTree(h: Heap, k: NTree, n: Node)
    requires k.kids == [] && k.kind == ScalarNode && k.id != n && n in h && k.id in h
    requires h[k.id] == Cell(k.kind, k.tag, k.value, []) && h[n] == Cell(SequenceNode, "!!seq", "", [k.id])
    ensures var v := Tree(n, SequenceNode, "!!seq", "", [k]);
      && Represents(h, v) && NoSharing(v) && WellFormed(v) && Footprint(v) == {n, k.id}
      && Erase(v) == Tree((), SequenceNode, "!!seq", "", [Erase(k)])
  {
    var v: NTree := Tree(n, SequenceNode, "!!seq", "", [k]);
    assert Represents(h, k) && Footprint(k) == {k.id};
    assert Erase(v).kids == [Erase(k)];
    assert v.kids[0] == k;
  }

  /** Nodes added to the snapshot disturb nothing in progress. */
  lemma PatchingFrame(h: Heap, h': Heap, t: NTree, run: seq<NTree>, edits: seq<Edit<Node>>, own: set<Node>)
    requires Patching(h, t, run, edits, own)
    requires forall n :: n in h ==> n in h' && h'[n] == h[n]
    ensures Patching(h', t, run, edits, own)
  {
    RepresentsFrame(h, h', run[|edits|]);
  }

  /** SetPath(root, leaf, path...) with a freshly made scalar. */
  method ApplyLeaf(root: Node, tag: string, value: string, path: Path, ghost script: seq<(Path, Tree<()>)>,
                   ghost h: Heap, ghost t: NTree, ghost run: seq<NTree>, ghost edits: seq<Edit<Node>>,
                   ghost own: set<Node>)
    returns (err: Option<PatchError>, ghost h': Heap, ghost run': seq<NTree>, ghost edits': seq<Edit<Node>>,
             ghost own': set<Node>)
    requires HeapIs(h) && t.id == root && Patching(h, t, run, edits, own) && path != []
    requires Following(script, edits) && |edits| < |script|
    requires script[|edits|] == (path, Tree((), ScalarNode, tag, value, []))
    modifies own
    ensures HeapIs(h') && Patching(h', t, run', edits', own') && fresh(own' - own) && own <= own'
    ensures err.None? ==> Following(script, edits') && |edits'| == |edits| + 1
    ensures err.Some? ==> Ran(script, false, run', edits')
  {
    assert allocated(own);
    ghost var v, h0;
    var n;
    n, h0, v := Leaf(ScalarNode, tag, value, h);
    assert Erase(v) == Tree((), ScalarNode, tag, value, []);
    PatchingFrame(h, h0, t, run, edits, own);
    err, h', run', edits', own' := Apply(root, n, path, script, h0, t, run, edits, v, own);
  }

  ghost predicate Editable(h: Heap, t: NTree) {
    Represents(h, t) && NoSharing(t) && WellFormed(t) && t.kind == MappingNode
  }

  /** The patch function of ensureBridgeConfig. */
  method PatchBridge(root: Node, serverName: string, adminMxid: string, ghost h: Heap, ghost t: NTree)
    returns (err: Option<PatchError>, ghost h': Heap, ghost run: seq<NTree>, ghost edits: seq<Edit<Node>>)
    requires HeapIs(h) && Editable(h, t) && t.id == root
    modifies Footprint(t)
    ensures Ran(BridgeScript(serverName, adminMxid), err.None?, run, edits) && run[0] == t
    ensures HeapIs(h') && Editable(h', run[|edits|]) && run[|edits|].id == root
  {
    hide Patching, Editable, Footprint, Patched, Blocked, Script, Following, Ran, Erase;
    ghost var own := Footprint(t);
    ghost var script := BridgeScript(serverName, adminMxid);
    run, edits := StartPatch(h, t);
    err, h', run, edits, own := ApplyLeaf(root, "!!str", "http://synapse:8008", ["homeserver", "address"], script, h, t, run, edits, own);
    if err.Some? { EndPatch(h', t, run, edits, own); return; }
    err, h', run, edits, own := ApplyLeaf(root, "!!str", serverName, ["homeserver", "domain"], script, h', t, run, edits, own);
    if err.Some? { EndPatch(h', t, run, edits, own); return; }
    err, h', run, edits, own := ApplyLeaf(root, "!!str", "0.0.0.0", ["appservice", "hostname"], script, h', t, run, edits, own);
    if err.Some? { EndPatch(h', t, run, edits, own); return; }
    err, h', run, edits, own := ApplyLeaf(root, "!!str", "admin", ["bridge", "permissions", adminMxid], script, h', t, run, edits, own);
    if err.Some? { EndPatch(h', t, run, edits, own); return; }
    err, h', run, edits, own := ApplyLeaf(root, "!!bool", "true", ["encryption", "allow"], script, h', t, run, edits, own);
    if err.Some? { EndPatch(h', t, run, edits, own); return; }
    err, h', run, edits, own := ApplyLeaf(root, "!!bool", "true", ["encryption", "default"], script, h', t, run, edits, own);
    EndPatch(h', t, run, edits, own);
    if err.None? { CompletePatch(script, run, edits); }
  }

  lemma StartPatch(h: Heap, t: NTree) returns (run: seq<NTree>, edits: seq<Edit<Node>>)
    requires Editable(h, t)
    ensures Patching(h, t, run, edits, Footprint(t)) && run == [t] && edits == []
    ensures forall script :: Following(script, edits)
  {
    run, edits := [t], [];
  }

  lemma EndPatch(h: Heap, t: NTree, run: seq<NTree>, edits: seq<Edit<Node>>, own: set<Node>)
    requires Patching(h, t, run, edits, own)
    ensures Patched(run, edits) && |run| == |edits| + 1 && run[0] == t
    ensures Editable(h, run[|edits|]) && run[|edits|].id == t.id
  {
    RunKeepsShape(run, edits, |edits|);
  }

  lemma CompletePatch(script: seq<(Path, Tree<()>)>, run: seq<NTree>, edits: seq<Edit<Node>>)
    requires Patched(run, edits) && Following(script, edits) && |edits| == |script|
    ensures Ran(script, true, run, edits)
  {
  }

  // ---------- the Synapse script ----------

  function ArgScript(dbPassword: string): seq<(Path, Tree<()>)> {
    [(["user"], StrTree("synapse")), (["password"], StrTree(dbPassword)), (["database"], StrTree("synapse")),
     (["host"], StrTree("postgres")), (["cp_min"], IntTree("5")), (["cp_max"], IntTree("10"))]
  }

  ghost predicate SingleKeys(script: seq<(Path, Tree<()>)>) {
    forall k :: 0 <= k < |script| ==> |script[k].0| == 1
  }

  ghost predicate DistinctKeys(pairs: seq<(string, Tree<()>)>) {
    forall j, k :: 0 <= j < k < |pairs| ==> pairs[j].0 != pairs[k].0
  }

  lemma {:induction false} PairsLookup(pairs: seq<(string, Tree<()>)>, key: string)
    requires forall j :: 0 <= j < |pairs| ==> pairs[j].0 != key
    ensures Pair(PairsTree(pairs), key).None?
  {
    if pairs != [] {
      var front := PairsTree(pairs[..|pairs| - 1]);
      PairsLookup(pairs[..|pairs| - 1], key);
      PairFromAppend(front.kids, PairsTree(pairs).kids[|front.kids|..], key, 0);
      assert PairsTree(pairs).kids == front.kids + PairsTree(pairs).kids[|front.kids|..];
    }
  }

  /** Putting distinct keys one by one into an empty mapping lists them in order. */
  lemma {:induction false} PutsListPairs<I>(pairs: seq<(string, Tree<()>)>, run: seq<Tree<I>>, edits: seq<Edit<I>>, k: nat)
    requires Patched(run, edits) && DistinctKeys(pairs) && |edits| == |pairs| && k <= |pairs|
    requires forall j :: 0 <= j < |pairs| ==> edits[j].path == [pairs[j].0] && Erase(edits[j].value) == pairs[j].1
    requires Erase(run[0]) == EmptyMap(())
    ensures Erase(run[k]) == PairsTree(pairs[..k])
  {
    if k > 0 {
      var (key, value) := pairs[k - 1];
      PutsListPairs(pairs, run, edits, k - 1);
      assert pairs[..k][..k - 1] == pairs[..k - 1];
      PairsLookup(pairs[..k - 1], key);
      PairFromErase(run[k - 1], key, 0);
      PutNewErases(run[k - 1], key, edits[k - 1].value, run[k]);
    }
  }

  lemma PutNewErases<I>(t: Tree<I>, key: string, v: Tree<I>, t': Tree<I>)
    requires Put(t, key, v, t') && Pair(t, key).None?
    ensures Erase(t') == Erase(t).(kids := Erase(t).kids + [StrTree(key), Erase(v)])
  {
    var n := |t.kids|;
    assert forall j :: 0 <= j < n ==> t'.kids[j] == t'.kids[..n][j];
    assert Erase(t'.kids[n]) == StrTree(key);
    assert Erase(t').kids == Erase(t).kids + [StrTree(key), Erase(v)];
  }

  /** A path of one key has no intermediate mapping that could block it. */
  lemma OneKeyNeverFails(script: seq<(Path, Tree<()>)>, err: Option<PatchError>, run: seq<NTree>, edits: seq<Edit<Node>>)
    requires SingleKeys(script)
    requires err.Some? ==> Ran(script, false, run, edits)
    ensures err.None?
  {
  }

  lemma EmptyMapEditable(h: Heap, t: NTree)
    requires t == EmptyMap(t.id) && t.id in h && h[t.id] == Cell(MappingNode, "!!map", "", [])
    ensures Footprint(t) == {t.id} && Editable(h, t) && Erase(t) == EmptyMap(())
  {
  }

  /** An empty mapping node, in a snapshot of its own. */
  method NewMap() returns (n: Node, ghost h: Heap, ghost t: NTree)
    ensures fresh(n) && t.id == n && t == EmptyMap(n) && Footprint(t) == {n} && Editable(h, t) && Erase(t) == EmptyMap(())
    ensures HeapIs(h)
  {
    n := new Node(MappingNode, "!!map", "");
    t, h := EmptyMap(n), map[n := Cell(MappingNode, "!!map", "", [])];
    EmptyMapEditable(h, t);
  }

  lemma ArgPathsSingle(dbPassword: string)
    ensures SingleKeys(ArgScript(dbPassword))
  {
  }

  /** database.args, built key by key. SetPath with one key cannot fail, so its
      result needs no check here. */
  method BuildArgs(dbPassword: string) returns (args: Node, ghost h': Heap, ghost v: NTree)
    ensures v.id == args && fresh(Footprint(v)) && Erase(v) == PairsTree(ArgPairs(dbPassword))
    ensures HeapIs(h') && Represents(h', v) && NoSharing(v) && WellFormed(v)
  {
    hide Patching, Editable, Footprint, Patched, Blocked, Script, Following, Ran, Erase, SingleKeys, HeapIs,
         Represents, NoSharing, WellFormed, EmptyMap, PairsTree, ArgPairs, ArgScript;
    ghost var t;
    args, h', t := NewMap();
    ghost var run, edits := StartPatch(h', t);
    ghost var own, script := {args}, ArgScript(dbPassword);
    ArgPathsSingle(dbPassword);
    ArgSteps(dbPassword);
    var err;
    err, h', run, edits, own := ApplyLeaf(args, "!!str", "synapse", ["user"], script, h', t, run, edits, own);
    OneKeyNeverFails(script, err, run, edits);
    assert fresh(own);
    err, h', run, edits, own := ApplyLeaf(args, "!!str", dbPassword, ["password"], script, h', t, run, edits, own);
    OneKeyNeverFails(script, err, run, edits);
    assert fresh(own);
    err, h', run, edits, own := ApplyLeaf(args, "!!str", "synapse", ["database"], script, h', t, run, edits, own);
    OneKeyNeverFails(script, err, run, edits);
    assert fresh(own);
    err, h', run, edits, own := ApplyLeaf(args, "!!str", "postgres", ["host"], script, h', t, run, edits, own);
    OneKeyNeverFails(script, err, run, edits);
    assert fresh(own);
    err, h', run, edits, own := ApplyLeaf(args, "!!int", "5", ["cp_min"], script, h', t, run, edits, own);
    OneKeyNeverFails(script, err, run, edits);
    assert fresh(own);
    err, h', run, edits, own := ApplyLeaf(args, "!!int", "10", ["cp_max"], script, h', t, run, edits, own);
    OneKeyNeverFails(script, err, run, edits);
    assert fresh(own);
    v := ArgsComplete(dbPassword, h', t, run, edits, own);
  }

  /** The script in full. */
  lemma ArgSteps(dbPassword: string)
    ensures
      var s := ArgScript(dbPassword);
      && |s| == 6
      && s[0] == (["user"], StrTree("synapse"))
      && s[1] == (["password"], StrTree(dbPassword))
      && s[2] == (["database"], StrTree("synapse"))
      && s[3] == (["host"], StrTree("postgres"))
      && s[4] == (["cp_min"], IntTree("5"))
      && s[5] == (["cp_max"], IntTree("10"))
  {
  }

  lemma ArgKeysDistinct(dbPassword: string)
    ensures DistinctKeys(ArgPairs(dbPassword))
  {
    var pairs := ArgPairs(dbPassword);
    assert pairs[0].0[0] == 'u' && pairs[1].0[0] == 'p' && pairs[2].0[0] == 'd' && pairs[3].0[0] == 'h';
    assert pairs[4].0[0] == 'c' && pairs[5].0[0] == 'c';
    assert pairs[4].0[4] == 'i' && pairs[5].0[4] == 'a';
  }

  lemma ArgsComplete(dbPassword: string, h: Heap, t: NTree, run: seq<NTree>, edits: seq<Edit<Node>>, own: set<Node>)
    returns (v: NTree)
    requires Patching(h, t, run, edits, own) && Erase(t) == EmptyMap(())
    requires Following(ArgScript(dbPassword), edits) && |edits| == 6
    ensures v.id == t.id && Footprint(v) <= own && Erase(v) == PairsTree(ArgPairs(dbPassword))
    ensures Represents(h, v) && NoSharing(v) && WellFormed(v)
  {
    hide Represents, NoSharing, Footprint;
    RunKeepsShape(run, edits, 6);
    var pairs := ArgPairs(dbPassword);
    ArgKeysDistinct(dbPassword);
    assert forall k :: 0 <= k < 6 ==> Script(edits)[k] == ([pairs[k].0], pairs[k].1);
    PutsListPairs(pairs, run, edits, 6);
    assert pairs[..6] == pairs;
    v := run[6];
  }

  /** A value built in a snapshot of its own joins the patch in progress. */
  lemma JoinHeaps(h: Heap, h1: Heap, t: NTree, run: seq<NTree>, edits: seq<Edit<Node>>, own: set<Node>, v: NTree)
    returns (joined: Heap)
    requires Patching(h, t, run, edits, own) && Represents(h1, v)
    requires forall n :: n in h && n in h1 ==> h[n] == h1[n]
    ensures joined == h1 + h && Patching(joined, t, run, edits, own) && Represents(joined, v)
  {
    joined := h1 + h;
    PatchingFrame(h, joined, t, run, edits, own);
    RepresentsFrame(h1, joined, v);
  }

  /** The patch function of ensureSynapseConfig. */
  method PatchSynapse(root: Node, dbPassword: string, ghost h: Heap, ghost t: NTree)
    returns (err: Option<PatchError>, ghost h': Heap, ghost run: seq<NTree>, ghost edits: seq<Edit<Node>>)
    requires HeapIs(h) && Editable(h, t) && t.id == root
    modifies Footprint(t)
    ensures Ran(SynapseScript(dbPassword), err.None?, run, edits) && run[0] == t
    ensures HeapIs(h') && Editable(h', run[|edits|]) && run[|edits|].id == root
  {
    hide Patching, Editable, Footprint, Patched, Blocked, Script, Following, Ran, Erase, PairsTree, ListTree,
         Represents, NoSharing, WellFormed;
    ghost var own := Footprint(t);
    ghost var script := SynapseScript(dbPassword);
    run, edits := StartPatch(h, t);
    err, h', run, edits, own := ApplyLeaf(root, "!!str", "psycopg2", ["database", "name"], script, h, t, run, edits, own);
    if err.Some? { EndPatch(h', t, run, edits, own); return; }

    ghost var h1, v;
    var args;
    args, h1, v := BuildArgs(dbPassword);
    h1 := JoinHeaps(h', h1, t, run, edits, own, v);
    err, h', run, edits, own := Apply(root, args, ["database", "args"], script, h1, t, run, edits, v, own);
    if err.Some? { EndPatch(h', t, run, edits, own); return; }

    var files;
    files, h1, v := StrList("/appservices/registration.yaml", h');
    PatchingFrame(h', h1, t, run, edits, own);
    err, h', run, edits, own := Apply(root, files, ["app_service_config_files"], script, h1, t, run, edits, v, own);
    if err.Some? { EndPatch(h', t, run, edits, own); return; }

    err, h', run, edits, own := ApplyLeaf(root, "!!bool", "false", ["enable_registration"], script, h', t, run, edits, own);
    EndPatch(h', t, run, edits, own);
    if err.None? { CompletePatch(script, run, edits); }
  }
}
