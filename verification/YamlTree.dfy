/** YAML node trees as values. Every tree node carries an identity, so that a
    lookup can say which node it found and not merely what that node says. */
module YamlTree {
  import opened Basics

  datatype Kind = DocumentNode | SequenceNode | MappingNode | ScalarNode | AliasNode

  datatype Tree<I> = Tree(id: I, kind: Kind, tag: string, value: string, kids: seq<Tree<I>>)

  type Path = seq<string>

  /** The first pair at or after index i whose key node spells `key`. A mapping
      lists keys and values alternately. */
  function PairFrom<I>(kids: seq<Tree<I>>, key: string, i: nat): (r: Option<nat>)
    ensures r.Some? ==> i <= r.value && r.value + 1 < |kids| && kids[r.value].value == key && (r.value - i) % 2 == 0
    decreases |kids| - i
  {
    if i + 1 >= |kids| then None
    else if kids[i].value == key then Some(i)
    else PairFrom(kids, key, i + 2)
  }

  function Pair<I>(t: Tree<I>, key: string): (r: Option<nat>)
    ensures r.Some? ==> r.value + 1 < |t.kids| && t.kids[r.value].value == key && r.value % 2 == 0
  {
    PairFrom(t.kids, key, 0)
  }

  /** FindKey: walk mappings along a path. */
  function Find<I>(t: Tree<I>, path: Path): Option<Tree<I>>
    decreases |path|
  {
    if path == [] then Some(t)
    else if t.kind != MappingNode then None
    else match Pair(t, path[0])
      case None => None
      case Some(i) => Find(t.kids[i + 1], path[1..])
  }

  /** Mappings hold whole pairs, everywhere in the tree. */
  ghost predicate WellFormed<I>(t: Tree<I>) {
    && (t.kind == MappingNode ==> |t.kids| % 2 == 0)
    && forall i :: 0 <= i < |t.kids| ==> WellFormed(t.kids[i])
  }

  predicate IsKeyNode<I>(k: Tree<I>, key: string) {
    k.kind == ScalarNode && k.tag == "!!str" && k.value == key && k.kids == []
  }

  function EmptyMap<I>(id: I): Tree<I> {
    Tree(id, MappingNode, "!!map", "", [])
  }

  /** The value `after` holds for a key that `before` holds at its pair, or that
      was appended if `before` had no such pair. */
  function ValueIn<I>(before: Tree<I>, key: string, after: Tree<I>): Tree<I>
    requires |after.kids| >= |before.kids|
    requires Pair(before, key).None? ==> |after.kids| == |before.kids| + 2
  {
    match Pair(before, key)
    case Some(i) => after.kids[i + 1]
    case None => after.kids[|before.kids| + 1]
  }

  /** setMapKey: overwrite the value of the first matching pair in place, or
      append a new pair. The identity of a new key node is left open. */
  ghost predicate Put<I>(t: Tree<I>, key: string, v: Tree<I>, t': Tree<I>) {
    && t'.(kids := t.kids) == t
    && match Pair(t, key)
       case Some(i) => t'.kids == t.kids[i + 1 := v]
       case None =>
         && |t'.kids| == |t.kids| + 2
         && t'.kids[..|t.kids|] == t.kids
         && IsKeyNode(t'.kids[|t.kids|], key)
         && t'.kids[|t.kids| + 1] == v
  }

  ghost predicate Shaped<I>(t: Tree<I>, key: string, t': Tree<I>) {
    && |t'.kids| >= |t.kids|
    && (Pair(t, key).None? ==> |t'.kids| == |t.kids| + 2)
  }

  /** SetPath as a relation between the tree before and the tree after: each
      step keeps everything but the child it enters. */
  ghost predicate SetAt<I>(t: Tree<I>, v: Tree<I>, path: Path, t': Tree<I>)
    requires path != []
    decreases |path|
  {
    if |path| == 1 then Put(t, path[0], v, t')
    else
      && Shaped(t, path[0], t')
      && var c := ValueIn(t, path[0], t');
      && Put(t, path[0], c, t')
      && match Pair(t, path[0])
         case Some(i) => t.kids[i + 1].kind == MappingNode && SetAt(t.kids[i + 1], v, path[1..], c)
         case None => SetAt(EmptyMap(c.id), v, path[1..], c)
  }

  /** SetPath fails when some intermediate key holds something other than a mapping. */
  predicate Blocked<I>(t: Tree<I>, path: Path)
    decreases |path|
  {
    |path| > 1 &&
    match Pair(t, path[0])
    case None => false
    case Some(i) => t.kids[i + 1].kind != MappingNode || Blocked(t.kids[i + 1], path[1..])
  }

  predicate Comparable(p: Path, q: Path) {
    p <= q || q <= p
  }

  // ---------- pairs ----------

  lemma {:induction false} PairFromAppend<I>(kids: seq<Tree<I>>, extra: seq<Tree<I>>, key: string, i: nat)
    requires (|kids| - i) % 2 == 0 && i <= |kids|
    ensures PairFrom(kids, key, i).Some? ==> PairFrom(kids + extra, key, i) == PairFrom(kids, key, i)
    ensures PairFrom(kids, key, i).None? ==> PairFrom(kids + extra, key, i) == PairFrom(kids + extra, key, |kids|)
    decreases |kids| - i
  {
    if i + 1 < |kids| && kids[i].value != key {
      PairFromAppend(kids, extra, key, i + 2);
    }
  }

  /** Overwriting a value leaves every lookup of a pair alone. */
  lemma {:induction false} PairFromUpdate<I>(kids: seq<Tree<I>>, j: nat, v: Tree<I>, key: string, i: nat)
    requires j < |kids| && (j - i) % 2 == 1
    ensures PairFrom(kids[j := v], key, i) == PairFrom(kids, key, i)
    decreases |kids| - i
  {
    if i + 1 < |kids| && kids[i].value != key {
      PairFromUpdate(kids, j, v, key, i + 2);
    }
  }

  /** What a Put does to the lookup of every key. */
  lemma PutLookup<I>(t: Tree<I>, key: string, v: Tree<I>, t': Tree<I>, q: string)
    requires Put(t, key, v, t') && |t.kids| % 2 == 0
    ensures q != key ==> Pair(t', q) == Pair(t, q)
    ensures q != key && Pair(t, q).Some? ==> t'.kids[Pair(t, q).value + 1] == t.kids[Pair(t, q).value + 1]
    ensures Pair(t', key) == if Pair(t, key).Some? then Pair(t, key) else Some(|t.kids|)
    ensures t'.kids[Pair(t', key).value + 1] == v
    ensures |t'.kids| % 2 == 0
    ensures forall i :: 0 <= i < |t.kids| && i % 2 == 0 ==> t'.kids[i] == t.kids[i]
  {
    match Pair(t, key)
    case Some(i) =>
      PairFromUpdate(t.kids, i + 1, v, q, 0);
      PairFromUpdate(t.kids, i + 1, v, key, 0);
    case None =>
      var extra := t'.kids[|t.kids|..];
      assert t'.kids == t.kids + extra;
      PairFromAppend(t.kids, extra, q, 0);
      PairFromAppend(t.kids, extra, key, 0);
  }

  /** Putting twice under one key is putting the second value. */
  lemma PutAgain<I>(t: Tree<I>, key: string, v: Tree<I>, t1: Tree<I>, w: Tree<I>, t2: Tree<I>)
    requires Put(t, key, v, t1) && |t.kids| % 2 == 0
    requires Pair(t1, key).Some? && t2 == t1.(kids := t1.kids[Pair(t1, key).value + 1 := w])
    ensures Put(t, key, w, t2) && Shaped(t, key, t2) && ValueIn(t, key, t2) == w
  {
    PutLookup(t, key, v, t1, key);
    if Pair(t, key).None? {
      assert t2.kids[..|t.kids|] == t1.kids[..|t.kids|];
    }
  }

  lemma PutWellFormed<I>(t: Tree<I>, key: string, v: Tree<I>, t': Tree<I>)
    requires Put(t, key, v, t') && WellFormed(t) && WellFormed(v)
    ensures WellFormed(t')
  {
    forall i | 0 <= i < |t'.kids| ensures WellFormed(t'.kids[i]) {
      if i < |t.kids| && t'.kids[i] != v {
        assert t'.kids[i] == t.kids[i];
      }
    }
  }

  // ---------- SetAt ----------

  lemma {:induction false} SetAtWellFormed<I>(t: Tree<I>, v: Tree<I>, path: Path, t': Tree<I>)
    requires path != [] && SetAt(t, v, path, t') && WellFormed(t) && WellFormed(v)
    ensures WellFormed(t') && t'.kind == t.kind && t'.id == t.id
    decreases |path|
  {
    if |path| == 1 {
      PutWellFormed(t, path[0], v, t');
    } else {
      var c := ValueIn(t, path[0], t');
      match Pair(t, path[0]) {
        case Some(i) => SetAtWellFormed(t.kids[i + 1], v, path[1..], c);
        case None => SetAtWellFormed(EmptyMap(c.id), v, path[1..], c);
      }
      PutWellFormed(t, path[0], c, t');
    }
  }

  lemma {:induction false} SetAtNotBlocked<I>(t: Tree<I>, v: Tree<I>, path: Path, t': Tree<I>)
    requires path != [] && SetAt(t, v, path, t')
    ensures !Blocked(t, path)
    decreases |path|
  {
    if |path| > 1 && Pair(t, path[0]).Some? {
      SetAtNotBlocked(t.kids[Pair(t, path[0]).value + 1], v, path[1..], ValueIn(t, path[0], t'));
    }
  }

  /** Get after set: FindKey on the path returns exactly the given node. */
  lemma {:induction false} FindAfterSet<I>(t: Tree<I>, v: Tree<I>, path: Path, t': Tree<I>)
    requires path != [] && SetAt(t, v, path, t')
    requires t.kind == MappingNode && WellFormed(t)
    ensures Find(t', path) == Some(v)
    decreases |path|
  {
    if |path| == 1 {
      PutLookup(t, path[0], v, t', path[0]);
      assert Find(v, path[1..]) == Some(v);
    } else {
      var c := ValueIn(t, path[0], t');
      PutLookup(t, path[0], c, t', path[0]);
      match Pair(t, path[0]) {
        case Some(i) => FindAfterSet(t.kids[i + 1], v, path[1..], c);
        case None => FindAfterSet(EmptyMap(c.id), v, path[1..], c);
      }
    }
  }

  /** Frame: every lookup on a path comparable to neither side is unchanged,
      down to the identity of the node found and everything below it. */
  lemma {:induction false} FindElsewhere<I>(t: Tree<I>, v: Tree<I>, path: Path, t': Tree<I>, q: Path)
    requires path != [] && SetAt(t, v, path, t')
    requires t.kind == MappingNode && WellFormed(t)
    requires !Comparable(path, q)
    ensures Find(t', q) == Find(t, q)
    decreases |path|
  {
    var key := path[0];
    var c := if |path| == 1 then v else ValueIn(t, key, t');
    PutLookup(t, key, c, t', q[0]);
    if q[0] == key {
      assert |path| > 1;
      assert path == [key] + path[1..] && q == [key] + q[1..];
      assert !Comparable(path[1..], q[1..]);
      match Pair(t, key) {
        case Some(i) => FindElsewhere(t.kids[i + 1], v, path[1..], c, q[1..]);
        case None =>
          FindElsewhere(EmptyMap(c.id), v, path[1..], c, q[1..]);
          assert Find(EmptyMap(c.id), q[1..]) == None;
      }
    }
  }

  /** Every mapping on the way to the path keeps its identity and its existing
      keys in their order; a new key can only come after them. */
  lemma {:induction false} KeysKeepOrder<I>(t: Tree<I>, v: Tree<I>, path: Path, t': Tree<I>, q: Path)
    requires path != [] && SetAt(t, v, path, t')
    requires t.kind == MappingNode && WellFormed(t)
    requires q < path && Find(t, q).Some?
    ensures Find(t', q).Some?
    ensures
      var m, m' := Find(t, q).value, Find(t', q).value;
      && m'.(kids := m.kids) == m
      && |m.kids| <= |m'.kids| <= |m.kids| + 2
      && forall i :: 0 <= i < |m.kids| && i % 2 == 0 ==> m'.kids[i] == m.kids[i]
    decreases |path|
  {
    var key := path[0];
    var c := if |path| == 1 then v else ValueIn(t, key, t');
    PutLookup(t, key, c, t', key);
    if q != [] {
      assert q[0] == key && q[1..] < path[1..];
      KeysKeepOrder(t.kids[Pair(t, key).value + 1], v, path[1..], c, q[1..]);
    }
  }

  // ---------- trees up to identity ----------

  /** A tree without identities. */
  function Erase<I>(t: Tree<I>): Tree<()> {
    Tree((), t.kind, t.tag, t.value, seq(|t.kids|, i requires 0 <= i < |t.kids| => Erase(t.kids[i])))
  }

  lemma {:induction false} PairFromErase<I>(t: Tree<I>, key: string, i: nat)
    ensures PairFrom(Erase(t).kids, key, i) == PairFrom(t.kids, key, i)
    decreases |t.kids| - i
  {
    if i + 1 < |t.kids| && t.kids[i].value != key {
      PairFromErase(t, key, i + 2);
    }
  }

  lemma {:induction false} FindErase<I>(t: Tree<I>, path: Path)
    ensures Find(t, path).Some? <==> Find(Erase(t), path).Some?
    ensures Find(t, path).Some? ==> Find(Erase(t), path).value == Erase(Find(t, path).value)
    decreases |path|
  {
    if path != [] && t.kind == MappingNode {
      PairFromErase(t, path[0], 0);
      if Pair(t, path[0]).Some? {
        FindErase(t.kids[Pair(t, path[0]).value + 1], path[1..]);
      }
    }
  }

  lemma {:induction false} FoundNotBlocked<I>(t: Tree<I>, path: Path)
    requires Find(t, path).Some?
    ensures !Blocked(t, path)
    decreases |path|
  {
    if |path| > 1 {
      var child := t.kids[Pair(t, path[0]).value + 1];
      assert path[1..] != [];
      FoundNotBlocked(child, path[1..]);
    }
  }

  /** Setting a path to what it already says changes nothing but identities. */
  lemma {:induction false} SetSame<I>(t: Tree<I>, v: Tree<I>, path: Path, t': Tree<I>)
    requires path != [] && SetAt(t, v, path, t')
    requires Find(t, path).Some? && Erase(Find(t, path).value) == Erase(v)
    ensures Erase(t') == Erase(t)
    decreases |path|
  {
    var i := Pair(t, path[0]).value;
    var c := if |path| == 1 then v else ValueIn(t, path[0], t');
    if |path| == 1 {
      assert Find(t.kids[i + 1], path[1..]) == Some(t.kids[i + 1]);
    } else {
      SetSame(t.kids[i + 1], v, path[1..], c);
    }
    assert forall j :: 0 <= j < |t.kids| ==> Erase(t'.kids[j]) == Erase(t.kids[j]);
    assert Erase(t').kids == Erase(t).kids;
  }
}
