/** The mutable node heap and the editor over it (internal/setup/yamlpatch.go). */
module YamlNode {
  import opened Basics
  import opened YamlTree

  class Node {
    var kind: Kind
    var tag: string
    var value: string
    var content: seq<Node>

    constructor (kind: Kind, tag: string, value: string)
      ensures this.kind == kind && this.tag == tag && this.value == value && content == []
    {
      this.kind, this.tag, this.value, this.content := kind, tag, value, [];
    }
  }

  /** The fields of one node. */
  datatype Cell = Cell(kind: Kind, tag: string, value: string, content: seq<Node>)

  /** A snapshot of some nodes. Trees are read off snapshots, so that only this
      one predicate depends on the heap. */
  type Heap = map<Node, Cell>

  ghost predicate HeapIs(h: Heap)
    reads h.Keys
  {
    forall n {:trigger h[n]} :: n in h ==> h[n] == Cell(n.kind, n.tag, n.value, n.content)
  }

  /** A tree whose identities are heap nodes. */
  type NTree = Tree<Node>

  ghost function Footprint(t: NTree): set<Node> {
    {t.id} + set i, n | 0 <= i < |t.kids| && n in Footprint(t.kids[i]) :: n
  }

  /** The snapshot below t.id says what t says. */
  ghost predicate Represents(h: Heap, t: NTree) {
    && t.id in h && |h[t.id].content| == |t.kids|
    && h[t.id].kind == t.kind && h[t.id].tag == t.tag && h[t.id].value == t.value
    && forall i :: 0 <= i < |t.kids| ==> h[t.id].content[i] == t.kids[i].id && Represents(h, t.kids[i])
  }

  /** No node is reachable twice. */
  ghost predicate NoSharing(t: NTree) {
    && (forall i :: 0 <= i < |t.kids| ==> t.id !in Footprint(t.kids[i]) && NoSharing(t.kids[i]))
    && (forall i, j :: 0 <= i < j < |t.kids| ==> Footprint(t.kids[i]) !! Footprint(t.kids[j]))
  }

  lemma {:induction false} RepresentsIsInside(h: Heap, t: NTree)
    requires Represents(h, t)
    ensures Footprint(t) <= h.Keys
  {
    forall i | 0 <= i < |t.kids| ensures Footprint(t.kids[i]) <= h.Keys {
      RepresentsIsInside(h, t.kids[i]);
    }
  }

  /** A tree depends on its own nodes only. */
  lemma {:induction false} RepresentsFrame(h: Heap, h': Heap, t: NTree)
    requires Represents(h, t)
    requires forall n :: n in Footprint(t) && n in h ==> n in h' && h'[n] == h[n]
    ensures Represents(h', t)
  {
    assert t.id in Footprint(t);
    forall i | 0 <= i < |t.kids| ensures Represents(h', t.kids[i]) {
      assert Footprint(t.kids[i]) <= Footprint(t);
      RepresentsFrame(h, h', t.kids[i]);
    }
  }

  lemma KidInside(t: NTree, j: nat)
    requires j < |t.kids|
    ensures Footprint(t.kids[j]) <= Footprint(t)
  {
  }

  // ---------- putting an edited subtree back ----------

  /** t with the subtree at an existing path exchanged. */
  ghost function ReplaceAt(t: NTree, path: Path, sub: NTree): NTree
    requires Find(t, path).Some?
    decreases |path|
  {
    if path == [] then sub
    else
      var i := Pair(t, path[0]).value + 1;
      t.(kids := t.kids[i := ReplaceAt(t.kids[i], path[1..], sub)])
  }

  /** What holds of a represented tree holds of every subtree found in it. */
  lemma {:induction false} FoundParts(h: Heap, t: NTree, path: Path)
    requires Find(t, path).Some? && Represents(h, t) && NoSharing(t) && WellFormed(t)
    ensures
      var sub := Find(t, path).value;
      Represents(h, sub) && NoSharing(sub) && WellFormed(sub) && Footprint(sub) <= Footprint(t)
    decreases |path|
  {
    if path != [] {
      var i := Pair(t, path[0]).value + 1;
      KidInside(t, i);
      FoundParts(h, t.kids[i], path[1..]);
    }
  }

  lemma {:induction false} FindInside(t: NTree, path: Path)
    requires Find(t, path).Some?
    ensures Footprint(Find(t, path).value) <= Footprint(t)
    decreases |path|
  {
    if path != [] {
      var i := Pair(t, path[0]).value + 1;
      FindInside(t.kids[i], path[1..]);
    }
  }

  lemma {:induction false} ReplaceFootprint(t: NTree, path: Path, sub: NTree)
    requires Find(t, path).Some? && sub.id == Find(t, path).value.id
    ensures ReplaceAt(t, path, sub).id == t.id
    ensures Footprint(ReplaceAt(t, path, sub)) <= Footprint(t) + Footprint(sub)
    decreases |path|
  {
    if path != [] {
      var i := Pair(t, path[0]).value + 1;
      ReplaceFootprint(t.kids[i], path[1..], sub);
      var t' := ReplaceAt(t, path, sub);
      forall n | n in Footprint(t') ensures n in Footprint(t) + Footprint(sub) {
        if n != t'.id {
          var j :| 0 <= j < |t'.kids| && n in Footprint(t'.kids[j]);
          assert j != i ==> t'.kids[j] == t.kids[j];
        }
      }
    }
  }

  /** Exchanging a subtree for one that adds only nodes from outside keeps the
      tree free of sharing. */
  lemma {:induction false} ReplaceNoSharing(t: NTree, path: Path, sub: NTree)
    requires Find(t, path).Some? && sub.id == Find(t, path).value.id
    requires NoSharing(t) && NoSharing(sub)
    requires (Footprint(sub) - Footprint(Find(t, path).value)) !! Footprint(t)
    ensures NoSharing(ReplaceAt(t, path, sub))
    decreases |path|
  {
    if path != [] {
      var i := Pair(t, path[0]).value + 1;
      var child, t' := t.kids[i], ReplaceAt(t, path, sub);
      FindInside(child, path[1..]);
      KidInside(t, i);
      ReplaceNoSharing(child, path[1..], sub);
      ReplaceFootprint(child, path[1..], sub);
      KidReplaced(t, i, t'.kids[i], Footprint(sub) - Footprint(Find(t, path).value));
    }
  }

  /** One child grew by nodes from outside. */
  lemma KidReplaced(t: NTree, i: nat, kid: NTree, extra: set<Node>)
    requires i < |t.kids| && NoSharing(t) && NoSharing(kid)
    requires Footprint(kid) <= Footprint(t.kids[i]) + extra && extra !! Footprint(t)
    ensures NoSharing(t.(kids := t.kids[i := kid]))
  {
    var t' := t.(kids := t.kids[i := kid]);
    assert t.id in Footprint(t);
    forall j, k | 0 <= j < k < |t'.kids| ensures Footprint(t'.kids[j]) !! Footprint(t'.kids[k]) {
      assert Footprint(t.kids[j]) !! Footprint(t.kids[k]);
      KidInside(t, j);
      KidInside(t, k);
    }
  }

  /** If only the node at the path was written, and it now represents `sub`,
      then the new snapshot represents the tree with `sub` put in. */
  lemma {:induction false} ReplaceRepresents(h: Heap, h': Heap, t: NTree, path: Path, sub: NTree)
    requires Find(t, path).Some? && sub.id == Find(t, path).value.id
    requires NoSharing(t) && Represents(h, t) && Represents(h', sub)
    requires forall n :: n in h && n != sub.id ==> n in h' && h'[n] == h[n]
    ensures Represents(h', ReplaceAt(t, path, sub))
    decreases |path|
  {
    if path != [] {
      var i := Pair(t, path[0]).value + 1;
      var t' := ReplaceAt(t, path, sub);
      FindInside(t.kids[i], path[1..]);
      assert sub.id in Footprint(t.kids[i]);
      ReplaceFootprint(t.kids[i], path[1..], sub);
      ReplaceRepresents(h, h', t.kids[i], path[1..], sub);
      forall j | 0 <= j < |t'.kids| ensures Represents(h', t'.kids[j]) {
        if j != i {
          assert Footprint(t.kids[j]) !! Footprint(t.kids[i]);
          RepresentsFrame(h, h', t.kids[j]);
        }
      }
    }
  }

  lemma {:induction false} ReplaceSelf(t: NTree, path: Path)
    requires Find(t, path).Some?
    ensures ReplaceAt(t, path, Find(t, path).value) == t
    decreases |path|
  {
    if path != [] {
      ReplaceSelf(t.kids[Pair(t, path[0]).value + 1], path[1..]);
    }
  }

  /** Looking one key further in a tree whose subtree was exchanged. */
  lemma {:induction false} FindReplaced(t: NTree, path: Path, sub: NTree, key: string)
    requires Find(t, path).Some? && sub.kind == MappingNode && Pair(sub, key).Some?
    ensures Find(ReplaceAt(t, path, sub), path + [key]) == Some(sub.kids[Pair(sub, key).value + 1])
    decreases |path|
  {
    if path == [] {
      assert path + [key] == [key];
      assert Find(sub.kids[Pair(sub, key).value + 1], [key][1..]) == Some(sub.kids[Pair(sub, key).value + 1]);
    } else {
      var i := Pair(t, path[0]).value + 1;
      assert (path + [key])[1..] == path[1..] + [key];
      PairFromUpdate(t.kids, i, ReplaceAt(t.kids[i], path[1..], sub), path[0], 0);
      FindReplaced(t.kids[i], path[1..], sub, key);
    }
  }

  // ---------- the walk ----------

  /** cur is t after stepping into the mappings along a path, creating the ones
      that were missing, with nothing set yet. */
  ghost predicate Opened(t: NTree, path: Path, cur: NTree)
    decreases |path|
  {
    if path == [] then cur == t
    else
      && Shaped(t, path[0], cur)
      && var c := ValueIn(t, path[0], cur);
      && Put(t, path[0], c, cur)
      && match Pair(t, path[0])
         case Some(i) => t.kids[i + 1].kind == MappingNode && Opened(t.kids[i + 1], path[1..], c)
         case None => Opened(EmptyMap(c.id), path[1..], c)
  }

  lemma {:induction false} OpenedFinds(t: NTree, path: Path, cur: NTree)
    requires t.kind == MappingNode && WellFormed(t) && Opened(t, path, cur)
    ensures Find(cur, path).Some? && Find(cur, path).value.kind == MappingNode
    ensures WellFormed(cur) && cur.id == t.id && cur.kind == MappingNode
    decreases |path|
  {
    if path != [] {
      var c := ValueIn(t, path[0], cur);
      match Pair(t, path[0]) {
        case Some(i) => OpenedFinds(t.kids[i + 1], path[1..], c);
        case None => OpenedFinds(EmptyMap(c.id), path[1..], c);
      }
      PutLookup(t, path[0], c, cur, path[0]);
      PutWellFormed(t, path[0], c, cur);
    }
  }

  /** The tree an opened key starts from: its value, or a new empty mapping. */
  function Base(t: NTree, key: string, c: NTree): NTree {
    match Pair(t, key)
    case Some(i) => t.kids[i + 1]
    case None => EmptyMap(c.id)
  }

  /** The first key of an opened path. */
  lemma OpenedInside(t: NTree, path: Path, cur: NTree, sub: NTree) returns (c: NTree)
    requires path != [] && t.kind == MappingNode && WellFormed(t) && Opened(t, path, cur)
    requires Find(cur, path).Some?
    ensures Shaped(t, path[0], cur) && c == ValueIn(t, path[0], cur) && Put(t, path[0], c, cur)
    ensures Base(t, path[0], c).kind == MappingNode && WellFormed(Base(t, path[0], c))
    ensures Opened(Base(t, path[0], c), path[1..], c) && Find(c, path[1..]) == Find(cur, path)
    ensures Pair(cur, path[0]).Some? && cur.kids[Pair(cur, path[0]).value + 1] == c
    ensures |t.kids| % 2 == 0
    ensures ReplaceAt(cur, path, sub)
         == cur.(kids := cur.kids[Pair(cur, path[0]).value + 1 := ReplaceAt(c, path[1..], sub)])
  {
    hide PairFrom, Pair;
    c := ValueIn(t, path[0], cur);
    PutLookup(t, path[0], c, cur, path[0]);
  }

  /** The same key after its value was exchanged. */
  lemma PutInside(t: NTree, key: string, c: NTree, cur: NTree, c': NTree, done: NTree)
    requires Put(t, key, c, cur) && |t.kids| % 2 == 0 && Pair(cur, key).Some?
    requires done == cur.(kids := cur.kids[Pair(cur, key).value + 1 := c']) && c'.id == c.id
    ensures Shaped(t, key, done) && ValueIn(t, key, done) == c' && Put(t, key, c', done)
    ensures Base(t, key, c') == Base(t, key, c)
  {
    hide PairFrom, Pair, Put;
    PutAgain(t, key, c, cur, c', done);
  }

  lemma OpenedCons(t: NTree, path: Path, key: string, c': NTree, done: NTree)
    requires path != [] && Shaped(t, path[0], done) && ValueIn(t, path[0], done) == c' && Put(t, path[0], c', done)
    requires Base(t, path[0], c').kind == MappingNode && Opened(Base(t, path[0], c'), path[1..] + [key], c')
    ensures Opened(t, path + [key], done)
  {
    hide Pair, Put;
    assert (path + [key])[0] == path[0] && (path + [key])[1..] == path[1..] + [key];
  }

  lemma SetAtCons(t: NTree, v: NTree, path: Path, key: string, c': NTree, done: NTree)
    requires path != [] && Shaped(t, path[0], done) && ValueIn(t, path[0], done) == c' && Put(t, path[0], c', done)
    requires Base(t, path[0], c').kind == MappingNode && SetAt(Base(t, path[0], c'), v, path[1..] + [key], c')
    ensures SetAt(t, v, path + [key], done)
  {
    hide Pair, Put;
    assert (path + [key])[0] == path[0] && (path + [key])[1..] == path[1..] + [key];
  }

  /** One more step: opening a key in the node reached opens the longer path. */
  lemma {:induction false} OpenedStep(t: NTree, path: Path, cur: NTree, key: string, sub: NTree)
    requires t.kind == MappingNode && WellFormed(t) && Opened(t, path, cur)
    requires Find(cur, path).Some? && sub.id == Find(cur, path).value.id
    requires Opened(Find(cur, path).value, [key], sub)
    ensures Opened(t, path + [key], ReplaceAt(cur, path, sub))
    decreases |path|
  {
    if path == [] {
      assert path + [key] == [key];
    } else {
      hide Footprint, Pair, Put, Shaped, ValueIn, Base, WellFormed, Opened, Find, ReplaceAt;
      var c := OpenedInside(t, path, cur, sub);
      var c' := ReplaceAt(c, path[1..], sub);
      OpenedStep(Base(t, path[0], c), path[1..], c, key, sub);
      ReplaceFootprint(c, path[1..], sub);
      PutInside(t, path[0], c, cur, c', ReplaceAt(cur, path, sub));
      OpenedCons(t, path, key, c', ReplaceAt(cur, path, sub));
    }
  }

  /** The last step: putting the value into the node reached sets the path. */
  lemma {:induction false} OpenedThenPut(t: NTree, path: Path, cur: NTree, key: string, v: NTree, sub: NTree)
    requires t.kind == MappingNode && WellFormed(t) && Opened(t, path, cur)
    requires Find(cur, path).Some? && sub.id == Find(cur, path).value.id
    requires Put(Find(cur, path).value, key, v, sub)
    ensures SetAt(t, v, path + [key], ReplaceAt(cur, path, sub))
    decreases |path|
  {
    if path == [] {
      assert path + [key] == [key];
    } else {
      hide Footprint, Pair, Put, Shaped, ValueIn, Base, WellFormed, Opened, SetAt, Find, ReplaceAt;
      var c := OpenedInside(t, path, cur, sub);
      var c' := ReplaceAt(c, path[1..], sub);
      OpenedThenPut(Base(t, path[0], c), path[1..], c, key, v, sub);
      ReplaceFootprint(c, path[1..], sub);
      PutInside(t, path[0], c, cur, c', ReplaceAt(cur, path, sub));
      SetAtCons(t, v, path, key, c', ReplaceAt(cur, path, sub));
    }
  }

  /** A non-mapping met on the way blocks the path. */
  lemma {:induction false} BlockedBelow(t: NTree, path: Path, k: nat)
    requires k + 1 < |path| && Find(t, path[..k]).Some?
    requires Find(t, path[..k]).value.kind == MappingNode && Pair(Find(t, path[..k]).value, path[k]).Some?
    requires var sub := Find(t, path[..k]).value; sub.kids[Pair(sub, path[k]).value + 1].kind != MappingNode
    ensures Blocked(t, path)
    decreases k
  {
    if k > 0 {
      var i := Pair(t, path[0]).value + 1;
      assert path[..k][1..] == path[1..][..k - 1];
      BlockedBelow(t.kids[i], path[1..], k - 1);
    }
  }

  /** Where SetPath stands after some keys: the snapshot now, the whole tree in
      it, and the mapping reached. */
  ghost predicate Reached(h: Heap, t: NTree, path: Path, cur: NTree, sub: NTree) {
    && Opened(t, path, cur) && Find(cur, path) == Some(sub)
    && NoSharing(cur) && Represents(h, cur)
  }

  lemma ReachedParts(h: Heap, t: NTree, path: Path, cur: NTree, sub: NTree)
    requires t.kind == MappingNode && WellFormed(t) && Reached(h, t, path, cur, sub)
    ensures Represents(h, sub) && NoSharing(sub) && sub.kind == MappingNode && WellFormed(sub)
    ensures sub.id in Footprint(sub) && Footprint(sub) <= Footprint(cur) && Footprint(cur) <= h.Keys
    ensures cur.id == t.id
  {
    OpenedFinds(t, path, cur);
    FoundParts(h, cur, path);
    RepresentsIsInside(h, cur);
  }

  lemma EvenKids(t: NTree)
    requires t.kind == MappingNode && WellFormed(t)
    ensures |t.kids| % 2 == 0
  {
  }

  /** Stepping into a key that was missing: a new empty mapping goes in. */
  lemma DescendNew(h: Heap, h': Heap, t: NTree, path: Path, cur: NTree, sub: NTree,
                   key: string, m: NTree, extra: set<Node>, sub': NTree)
    requires t.kind == MappingNode && WellFormed(t) && Reached(h, t, path, cur, sub)
    requires Pair(sub, key).None? && m == EmptyMap(m.id) && Put(sub, key, m, sub')
    requires NoSharing(sub') && Represents(h', sub')
    requires Footprint(sub') <= Footprint(sub) + extra && extra !! h.Keys
    requires forall n :: n in h && n != sub.id ==> n in h' && h'[n] == h[n]
    ensures Reached(h', t, path + [key], ReplaceAt(cur, path, sub'), m)
    ensures Footprint(ReplaceAt(cur, path, sub')) <= Footprint(cur) + extra
  {
    hide Represents, NoSharing, WellFormed, Opened, Find, ReplaceAt, Pair, ValueIn, Shaped, Footprint;
    ReachedParts(h, t, path, cur, sub);
    OpenedEmpty(sub, key, m, sub');
    EvenKids(sub);
    OpenedStep(t, path, cur, key, sub');
    WriteBack(h, h', cur, path, extra, sub');
    PutLookup(sub, key, m, sub', key);
    FindReplaced(cur, path, sub', key);
  }

  /** Stepping into a mapping that is already there changes nothing. */
  lemma DescendExisting(h: Heap, t: NTree, path: Path, cur: NTree, sub: NTree, key: string)
    requires t.kind == MappingNode && WellFormed(t) && Reached(h, t, path, cur, sub)
    requires Pair(sub, key).Some? && sub.kids[Pair(sub, key).value + 1].kind == MappingNode
    ensures Reached(h, t, path + [key], cur, sub.kids[Pair(sub, key).value + 1])
  {
    hide Represents, NoSharing, WellFormed, Opened, Find, ReplaceAt, Pair;
    OpenedFinds(t, path, cur);
    OpenedAlready(sub, key);
    OpenedStep(t, path, cur, key, sub);
    ReplaceSelf(cur, path);
    FindReplaced(cur, path, sub, key);
  }

  lemma OpenedAlready(sub: NTree, key: string)
    requires Pair(sub, key).Some? && sub.kids[Pair(sub, key).value + 1].kind == MappingNode
    ensures Opened(sub, [key], sub)
  {
    hide Pair;
    assert [key][1..] == [];
  }

  lemma OpenedEmpty(sub: NTree, key: string, m: NTree, sub': NTree)
    requires Pair(sub, key).None? && m == EmptyMap(m.id) && Put(sub, key, m, sub')
    ensures Opened(sub, [key], sub')
  {
    hide Pair;
    assert Opened(EmptyMap(m.id), [], m);
    assert [key][1..] == [];
    assert ValueIn(sub, key, sub') == m;
  }

  /** The tree after the last statement: nothing but the edit happened. */
  lemma FinishShape(t: NTree, path: Path, cur: NTree, key: string, v: NTree, done: NTree)
    requires t.kind == MappingNode && WellFormed(t) && WellFormed(v) && Opened(t, path, cur)
    requires Find(cur, path).Some? && done.id == Find(cur, path).value.id
    requires Put(Find(cur, path).value, key, v, done)
    ensures
      var t' := ReplaceAt(cur, path, done);
      && SetAt(t, v, path + [key], t') && !Blocked(t, path + [key])
      && WellFormed(t') && t'.kind == MappingNode && t'.id == t.id
  {
    OpenedThenPut(t, path, cur, key, v, done);
    SetAtWellFormed(t, v, path + [key], ReplaceAt(cur, path, done));
    SetAtNotBlocked(t, v, path + [key], ReplaceAt(cur, path, done));
  }

  /** The snapshot after a write to the node at the path. */
  lemma WriteBack(h: Heap, h': Heap, cur: NTree, path: Path, extra: set<Node>, done: NTree)
    requires Find(cur, path).Some? && done.id == Find(cur, path).value.id
    requires NoSharing(cur) && Represents(h, cur) && NoSharing(done) && Represents(h', done)
    requires Footprint(done) <= Footprint(Find(cur, path).value) + extra && extra !! Footprint(cur)
    requires forall n :: n in h && n != done.id ==> n in h' && h'[n] == h[n]
    ensures
      var t' := ReplaceAt(cur, path, done);
      Represents(h', t') && NoSharing(t') && Footprint(t') <= Footprint(cur) + extra
  {
    FindInside(cur, path);
    ReplaceFootprint(cur, path, done);
    ReplaceNoSharing(cur, path, done);
    ReplaceRepresents(h, h', cur, path, done);
  }

  // ---------- one mapping ----------

  lemma OverwriteNoSharing(t: NTree, i: nat, v: NTree)
    requires i < |t.kids| && NoSharing(t) && NoSharing(v) && Footprint(v) !! Footprint(t)
    ensures NoSharing(t.(kids := t.kids[i := v]))
    ensures Footprint(t.(kids := t.kids[i := v])) <= Footprint(t) + Footprint(v)
  {
    var t' := t.(kids := t.kids[i := v]);
    forall j | 0 <= j < |t.kids|
      ensures Footprint(t'.kids[j]) <= if j == i then Footprint(v) else Footprint(t)
    {
      KidInside(t, j);
    }
    forall j, k | 0 <= j < k < |t.kids| ensures Footprint(t'.kids[j]) !! Footprint(t'.kids[k]) {
      if j != i && k != i {
        assert Footprint(t.kids[j]) !! Footprint(t.kids[k]);
      }
    }
  }

  lemma AppendNoSharing(t: NTree, v: NTree)
    requires NoSharing(t) && NoSharing(v) && Footprint(v) !! Footprint(t)
    ensures NoSharing(t.(kids := t.kids + [v]))
    ensures Footprint(t.(kids := t.kids + [v])) <= Footprint(t) + Footprint(v)
  {
    var t' := t.(kids := t.kids + [v]);
    forall j | 0 <= j < |t'.kids|
      ensures Footprint(t'.kids[j]) <= if j == |t.kids| then Footprint(v) else Footprint(t)
    {
      if j < |t.kids| { KidInside(t, j); }
    }
    forall j, k | 0 <= j < k < |t'.kids| ensures Footprint(t'.kids[j]) !! Footprint(t'.kids[k]) {
      if k < |t.kids| {
        assert Footprint(t.kids[j]) !! Footprint(t.kids[k]);
      }
    }
  }

  /** The root's snapshot changed; every tree below it and v stand. */
  lemma RootRewritten(h: Heap, h': Heap, t: NTree, v: NTree)
    requires Represents(h, t) && NoSharing(t) && Represents(h, v) && t.id !in Footprint(v)
    requires forall n :: n in h && n != t.id ==> n in h' && h'[n] == h[n]
    ensures Represents(h', v)
    ensures forall i :: 0 <= i < |t.kids| ==> Represents(h', t.kids[i])
  {
    RepresentsFrame(h, h', v);
    forall i | 0 <= i < |t.kids| ensures Represents(h', t.kids[i]) {
      RepresentsFrame(h, h', t.kids[i]);
    }
  }

  lemma Overwritten(h: Heap, h': Heap, t: NTree, i: nat, v: NTree)
    requires i < |t.kids| && Represents(h, t) && NoSharing(t) && Represents(h, v) && NoSharing(v)
    requires Footprint(v) !! Footprint(t)
    requires h' == h[t.id := h[t.id].(content := h[t.id].content[i := v.id])]
    ensures
      var t' := t.(kids := t.kids[i := v]);
      Represents(h', t') && NoSharing(t') && Footprint(t') <= Footprint(t) + Footprint(v)
  {
    OverwriteNoSharing(t, i, v);
    assert t.id in Footprint(t);
    RootRewritten(h, h', t, v);
  }

  lemma Appended(h: Heap, h': Heap, t: NTree, k: NTree, v: NTree)
    requires Represents(h, t) && NoSharing(t) && Represents(h, v) && NoSharing(v)
    requires Footprint(v) !! Footprint(t) && k.kids == [] && k.id !in h
    requires h' == h[k.id := Cell(k.kind, k.tag, k.value, [])][t.id := h[t.id].(content := h[t.id].content + [k.id, v.id])]
    ensures
      var t' := t.(kids := t.kids + [k, v]);
      Represents(h', t') && NoSharing(t') && Footprint(t') <= Footprint(t) + Footprint(v) + {k.id}
  {
    assert Footprint(k) == {k.id} && t.id in Footprint(t);
    RepresentsIsInside(h, t);
    RepresentsIsInside(h, v);
    AppendedShape(t, k, v);
    hide NoSharing, Footprint;
    RootRewritten(h, h', t, v);
    RootAppended(h, h', t, k, v);
  }

  lemma RootAppended(h: Heap, h': Heap, t: NTree, k: NTree, v: NTree)
    requires Represents(h, t) && k.kids == [] && k.id !in h
    requires h' == h[k.id := Cell(k.kind, k.tag, k.value, [])][t.id := h[t.id].(content := h[t.id].content + [k.id, v.id])]
    requires Represents(h', v) && forall i :: 0 <= i < |t.kids| ==> Represents(h', t.kids[i])
    ensures Represents(h', t.(kids := t.kids + [k, v]))
  {
    assert Represents(h', k);
  }

  lemma AppendedShape(t: NTree, k: NTree, v: NTree)
    requires NoSharing(t) && NoSharing(v) && Footprint(v) !! Footprint(t)
    requires k.kids == [] && k.id !in Footprint(t) && k.id !in Footprint(v)
    ensures
      var t' := t.(kids := t.kids + [k, v]);
      NoSharing(t') && Footprint(t') <= Footprint(t) + Footprint(v) + {k.id}
  {
    assert Footprint(k) == {k.id};
    AppendNoSharing(t, k);
    AppendNoSharing(t.(kids := t.kids + [k]), v);
    assert t.kids + [k] + [v] == t.kids + [k, v];
  }

  lemma PutByOverwrite(t: NTree, key: string, i: nat, v: NTree)
    requires Pair(t, key) == Some(i)
    ensures Put(t, key, v, t.(kids := t.kids[i + 1 := v]))
  {
  }

  lemma PutByAppend(t: NTree, key: string, k: NTree, v: NTree)
    requires Pair(t, key).None? && IsKeyNode(k, key)
    ensures Put(t, key, v, t.(kids := t.kids + [k, v]))
  {
  }

  // ---------- the editor ----------

  method MapValue(mapNode: Node, key: string, ghost h: Heap, ghost t: NTree) returns (r: Node?)
    requires HeapIs(h) && Represents(h, t) && t.id == mapNode
    ensures Pair(t, key).None? ==> r == null
    ensures Pair(t, key).Some? ==>
              var kid := t.kids[Pair(t, key).value + 1];
              r == kid.id && r.kind == kid.kind
  {
    var i := 0;
    while i + 1 < |mapNode.content|
      invariant PairFrom(t.kids, key, i) == Pair(t, key)
    {
      if mapNode.content[i].value == key {
        return mapNode.content[i + 1];
      }
      i := i + 2;
    }
    return null;
  }

  method FindKey(mapNode: Node, path: Path, ghost h: Heap, ghost t: NTree) returns (r: Node?)
    requires HeapIs(h) && Represents(h, t) && t.id == mapNode
    ensures Find(t, path).None? ==> r == null
    ensures Find(t, path).Some? ==> r == Find(t, path).value.id
  {
    r := mapNode;
    ghost var at := Some(t);
    var k := 0;
    while k < |path|
      invariant 0 <= k <= |path|
      invariant at.Some? ==> Represents(h, at.value) && r == at.value.id
      invariant at.None? ==> r == null
      invariant Find(t, path) == if at.Some? then Find(at.value, path[k..]) else None
    {
      if r == null || r.kind != MappingNode {
        return null;
      }
      assert path[k..][0] == path[k] && path[k..][1..] == path[k + 1..];
      ghost var here := at.value;
      r := MapValue(r, path[k], h, here);
      at := match Pair(here, path[k])
            case Some(i) => Some(here.kids[i + 1])
            case None => None;
      k := k + 1;
    }
  }

  /** What setMapKey does to the snapshot: one field of one node, and at most
      one new node. */
  ghost predicate KeyWritten(h: Heap, h': Heap, t: NTree, key: string, value: Node, added: set<Node>) {
    && t.id in h
    && match Pair(t, key)
       case Some(i) =>
         && added == {} && i + 1 < |h[t.id].content|
         && h' == h[t.id := h[t.id].(content := h[t.id].content[i + 1 := value])]
       case None =>
         exists k :: k in added && added == {k} && k !in h && h' == AppendCells(h, t.id, k, key, value)
  }

  ghost function AppendCells(h: Heap, node: Node, k: Node, key: string, value: Node): Heap
    requires node in h
  {
    h[k := Cell(ScalarNode, "!!str", key, [])][node := h[node].(content := h[node].content + [k, value])]
  }

  /** ... and to the tree: exactly a Put. */
  lemma KeyWrittenPuts(h: Heap, h': Heap, t: NTree, key: string, v: NTree, added: set<Node>) returns (t': NTree)
    requires Represents(h, t) && NoSharing(t) && Represents(h, v) && NoSharing(v) && Footprint(v) !! Footprint(t)
    requires KeyWritten(h, h', t, key, v.id, added)
    ensures Represents(h', t') && NoSharing(t') && Put(t, key, v, t') && t'.id == t.id
    ensures Footprint(t') <= Footprint(t) + Footprint(v) + added
    ensures h'.Keys == h.Keys + added
    ensures forall n :: n in h && n != t.id ==> h'[n] == h[n]
  {
    hide NoSharing, Put, Footprint, Pair;
    match Pair(t, key)
    case Some(i) =>
      Overwritten(h, h', t, i + 1, v);
      PutByOverwrite(t, key, i, v);
      t' := t.(kids := t.kids[i + 1 := v]);
    case None =>
      var node :| node in added && added == {node} && node !in h && h' == AppendCells(h, t.id, node, key, v.id);
      var k: NTree := Tree(node, ScalarNode, "!!str", key, []);
      Appended(h, h', t, k, v);
      PutByAppend(t, key, k, v);
      t' := t.(kids := t.kids + [k, v]);
      AppendedCells(h, t.id, node, key, v.id);
  }

  lemma AppendedCells(h: Heap, n: Node, k: Node, key: string, value: Node)
    requires n in h && k !in h
    ensures AppendCells(h, n, k, key, value).Keys == h.Keys + {k}
    ensures forall m :: m in h && m != n ==> AppendCells(h, n, k, key, value)[m] == h[m]
  {
  }

  method SetMapKey(mapNode: Node, key: string, value: Node, ghost h: Heap, ghost t: NTree)
    returns (ghost h': Heap, ghost added: set<Node>)
    requires HeapIs(h) && Represents(h, t) && t.id == mapNode
    modifies mapNode
    ensures HeapIs(h') && fresh(added)
    ensures KeyWritten(h, h', t, key, value, added)
  {
    var i := 0;
    while i + 1 < |mapNode.content|
      invariant i % 2 == 0 && PairFrom(t.kids, key, i) == Pair(t, key)
    {
      if mapNode.content[i].value == key {
        mapNode.content := mapNode.content[i + 1 := value];
        h', added := h[mapNode := h[mapNode].(content := mapNode.content)], {};
        return;
      }
      i := i + 2;
    }
    var keyNode := new Node(ScalarNode, "!!str", key);
    mapNode.content := mapNode.content + [keyNode, value];
    h', added := AppendCells(h, mapNode, keyNode, key, value), {keyNode};
  }

  /** Where SetPath stands: snapshots at the start and now, the tree now, the
      mapping reached, and the nodes created so far. */
  ghost predicate Walking(h: Heap, h': Heap, t: NTree, path: Path, t': NTree, sub: NTree, added: set<Node>) {
    && Reached(h', t, path, t', sub)
    && h'.Keys == h.Keys + added && added !! h.Keys
    && Footprint(t') <= Footprint(t) + added
    && (forall n :: n in h && n !in Footprint(t) ==> h'[n] == h[n])
    && (sub.kids != [] ==> h' == h && t' == t)
  }

  lemma GrowTwice(a: set<Node>, b: set<Node>, c: set<Node>, x: set<Node>, y: set<Node>)
    requires b == a + x && c == b + y
    ensures c == a + (x + y) && c == a + x + y
  {
  }

  lemma WalkStart(h: Heap, t: NTree)
    requires Represents(h, t) && NoSharing(t)
    ensures Walking(h, h, t, [], t, t, {}) && Footprint(t) <= h.Keys
  {
    RepresentsIsInside(h, t);
  }

  /** A snapshot with one empty mapping more. */
  ghost function WithMap(h: Heap, node: Node): Heap {
    h[node := Cell(MappingNode, "!!map", "", [])]
  }

  lemma EmptyMapFacts(h: Heap, m: NTree)
    requires m == EmptyMap(m.id) && m.id in h && h[m.id] == Cell(MappingNode, "!!map", "", [])
    ensures Represents(h, m) && NoSharing(m) && WellFormed(m) && Footprint(m) == {m.id}
  {
  }

  lemma EnterNew(h: Heap, h1: Heap, t: NTree, path: Path, cur: NTree, sub: NTree,
                 key: string, next: Node, more: set<Node>)
    returns (cur': NTree)
    requires t.kind == MappingNode && WellFormed(t)
    requires Reached(h, t, path, cur, sub) && Pair(sub, key).None?
    requires next !in h && more !! WithMap(h, next).Keys
    requires KeyWritten(WithMap(h, next), h1, sub, key, next, more)
    ensures Reached(h1, t, path + [key], cur', EmptyMap(next))
    ensures Footprint(cur') <= Footprint(cur) + ({next} + more)
    ensures h1.Keys == h.Keys + ({next} + more)
    ensures sub.id in Footprint(cur) && forall n :: n in h && n != sub.id ==> h1[n] == h[n]
  {
    hide Represents, NoSharing, WellFormed, Opened, KeyWritten, Put;
    var h0, m: NTree := WithMap(h, next), EmptyMap(next);
    ReachedParts(h, t, path, cur, sub);
    RepresentsFrame(h, h0, sub);
    EmptyMapFacts(h0, m);
    var sub' := KeyWrittenPuts(h0, h1, sub, key, m, more);
    DescendNew(h, h1, t, path, cur, sub, key, m, {next} + more, sub');
    GrowTwice(h.Keys, h0.Keys, h1.Keys, {next}, more);
    cur' := ReplaceAt(cur, path, sub');
  }

  lemma WalkNew(h: Heap, h': Heap, h1: Heap, t: NTree, path: Path, t': NTree, sub: NTree, added: set<Node>,
                key: string, next: Node, more: set<Node>)
    returns (t1: NTree)
    requires t.kind == MappingNode && WellFormed(t) && Footprint(t) <= h.Keys
    requires Walking(h, h', t, path, t', sub, added) && Pair(sub, key).None?
    requires next !in h' && more !! WithMap(h', next).Keys
    requires KeyWritten(WithMap(h', next), h1, sub, key, next, more)
    ensures Walking(h, h1, t, path + [key], t1, EmptyMap(next), added + ({next} + more))
  {
    t1 := EnterNew(h', h1, t, path, t', sub, key, next, more);
    GrowTwice(h.Keys, h'.Keys, h1.Keys, added, {next} + more);
  }

  lemma WalkExisting(h: Heap, h': Heap, t: NTree, path: Path, t': NTree, sub: NTree, added: set<Node>, key: string)
    requires t.kind == MappingNode && WellFormed(t)
    requires Walking(h, h', t, path, t', sub, added)
    requires Pair(sub, key).Some? && sub.kids[Pair(sub, key).value + 1].kind == MappingNode
    ensures Walking(h, h', t, path + [key], t', sub.kids[Pair(sub, key).value + 1], added)
  {
    DescendExisting(h', t, path, t', sub, key);
  }

  /** A child that is no mapping: the path is blocked and nothing was written. */
  lemma WalkBlocked(h: Heap, h': Heap, t: NTree, path: Path, k: nat, t': NTree, sub: NTree, added: set<Node>)
    requires t.kind == MappingNode && WellFormed(t) && k + 1 < |path|
    requires Walking(h, h', t, path[..k], t', sub, added)
    requires Pair(sub, path[k]).Some? && sub.kids[Pair(sub, path[k]).value + 1].kind != MappingNode
    ensures Blocked(t, path) && h' == h && t' == t
  {
    hide Represents, NoSharing, Footprint;
    ReachedParts(h', t, path[..k], t', sub);
    BlockedBelow(t, path, k);
  }

  lemma WalkParts(h: Heap, h': Heap, t: NTree, path: Path, t': NTree, sub: NTree, added: set<Node>)
    requires t.kind == MappingNode && WellFormed(t)
    requires Walking(h, h', t, path, t', sub, added)
    ensures Represents(h', sub)
    ensures sub.id in Footprint(t) + added
    ensures h'.Keys == h.Keys + added
  {
    ReachedParts(h', t, path, t', sub);
  }

  lemma WalkLast(h: Heap, h': Heap, h1: Heap, t: NTree, path: Path, t': NTree, sub: NTree, added: set<Node>,
                 key: string, v: NTree, more: set<Node>)
    returns (t1: NTree)
    requires t.kind == MappingNode && WellFormed(t) && Footprint(t) <= h.Keys
    requires Represents(h, v) && NoSharing(v) && WellFormed(v) && Footprint(v) !! Footprint(t)
    requires Walking(h, h', t, path, t', sub, added)
    requires more !! h'.Keys && KeyWritten(h', h1, sub, key, v.id, more)
    ensures SetAt(t, v, path + [key], t1) && !Blocked(t, path + [key])
    ensures Represents(h1, t1) && NoSharing(t1) && WellFormed(t1) && t1.id == t.id && t1.kind == MappingNode
    ensures h1.Keys == h.Keys + (added + more)
    ensures Footprint(t1) <= Footprint(t) + Footprint(v) + (added + more)
    ensures forall n :: n in h && n !in Footprint(t) ==> h1[n] == h[n]
  {
    ReachedParts(h', t, path, t', sub);
    RepresentsIsInside(h, v);
    RepresentsFrame(h, h', v);
    var done := KeyWrittenPuts(h', h1, sub, key, v, more);
    FinishShape(t, path, t', key, v, done);
    WriteBack(h', h1, t', path, Footprint(v) + more, done);
    GrowTwice(h.Keys, h'.Keys, h1.Keys, added, more);
    t1 := ReplaceAt(t', path, done);
  }

  datatype PatchError = EmptyPath | NotAMapping(path: Path)

  /** Create the mapping missing under a key and attach it. */
  method AttachMapping(node: Node, key: string, ghost h: Heap, ghost h': Heap,
                       ghost t: NTree, ghost path: Path, ghost t': NTree, ghost sub: NTree, ghost added: set<Node>)
    returns (next: Node, ghost h1: Heap, ghost t1: NTree, ghost grown: set<Node>)
    requires HeapIs(h') && sub.id == node && Pair(sub, key).None?
    requires t.kind == MappingNode && WellFormed(t) && Footprint(t) <= h.Keys
    requires Walking(h, h', t, path, t', sub, added)
    modifies node
    ensures HeapIs(h1) && Walking(h, h1, t, path + [key], t1, EmptyMap(next), grown)
    ensures fresh(grown - added)
  {
    hide Walking, Represents, NoSharing, WellFormed, Footprint, KeyWritten;
    WalkParts(h, h', t, path, t', sub, added);
    next := new Node(MappingNode, "!!map", "");
    assert HeapIs(WithMap(h', next));
    RepresentsFrame(h', WithMap(h', next), sub);
    ghost var more;
    h1, more := SetMapKey(node, key, next, WithMap(h', next), sub);
    t1 := WalkNew(h, h', h1, t, path, t', sub, added, key, next, more);
    grown := added + ({next} + more);
  }

  /** Set a nested key, creating intermediate mappings as needed. On error the
      heap is untouched. */
  method SetPath(mapNode: Node, value: Node, path: Path, ghost h: Heap, ghost t: NTree, ghost v: NTree)
    returns (err: Option<PatchError>, ghost h': Heap, ghost t': NTree, ghost added: set<Node>)
    requires HeapIs(h) && Represents(h, t) && NoSharing(t) && WellFormed(t)
    requires t.id == mapNode && t.kind == MappingNode
    requires Represents(h, v) && NoSharing(v) && WellFormed(v) && v.id == value && Footprint(v) !! Footprint(t)
    modifies Footprint(t)
    ensures err.Some? <==> path == [] || Blocked(t, path)
    ensures err.Some? ==> t' == t && h' == h
    ensures err.None? ==> SetAt(t, v, path, t')
    ensures HeapIs(h') && Represents(h', t') && NoSharing(t') && WellFormed(t')
    ensures t'.id == mapNode && t'.kind == MappingNode
    ensures fresh(added) && h'.Keys == h.Keys + added
    ensures Footprint(t') <= Footprint(t) + Footprint(v) + added
    ensures forall n :: n in h && n !in Footprint(t) ==> h'[n] == h[n]
  {
    hide HeapIs, Walking, Represents, NoSharing, WellFormed, Footprint, KeyWritten, Blocked, SetAt, Pair;
    h', t', added := h, t, {};
    if |path| == 0 {
      return Some(EmptyPath), h, t, {};
    }
    WalkStart(h, t);
    assert path[..0] == [];
    var node := mapNode;
    ghost var sub := t;
    var k := 0;
    while k < |path| - 1
      invariant 0 <= k <= |path| - 1
      invariant Walking(h, h', t, path[..k], t', sub, added) && sub.id == node
      invariant HeapIs(h') && fresh(added)
    {
      WalkParts(h, h', t, path[..k], t', sub, added);
      assert path[..k + 1] == path[..k] + [path[k]];
      var next := MapValue(node, path[k], h', sub);
      if next == null {
        ghost var grown: set<Node>;
        next, h', t', grown := AttachMapping(node, path[k], h, h', t, path[..k], t', sub, added);
        sub, added := EmptyMap(next), grown;
      } else if next.kind != MappingNode {
        WalkBlocked(h, h', t, path, k, t', sub, added);
        return Some(NotAMapping(path)), h, t, {};
      } else {
        WalkExisting(h, h', t, path[..k], t', sub, added, path[k]);
        sub := sub.kids[Pair(sub, path[k]).value + 1];
      }
      node := next;
      k := k + 1;
    }
    WalkParts(h, h', t, path[..k], t', sub, added);
    ghost var h1, more := SetMapKey(node, path[k], value, h', sub);
    assert path == path[..k] + [path[k]];
    t' := WalkLast(h, h', h1, t, path[..k], t', sub, added, path[k], v, more);
    h', added := h1, added + more;
    err := None;
  }
}
