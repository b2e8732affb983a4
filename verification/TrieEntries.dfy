/**
 Iterators on tries: NewNodeIterator and the key-value Iterator (trie/iterator.go).
 Together they list exactly the stored keys from a start key on, in path order.
 */
module TrieEntries {
  import opened Bytes
  import opened HexPrefix
  import opened TrieTree
  import opened TrieNode
  import opened TrieRep
  import opened PathOrder
  import opened TrieIterator
  import opened TrieWalk
  import opened Trie
  import Ops = TrieOps

  datatype Leaf = Leaf(path: seq<byte>, value: seq<byte>)

  /** The values among the visited nodes. */
  function Leaves(vs: seq<Visit>): seq<Leaf>
  {
    if vs == [] then []
    else (if vs[0].tree.Val? then [Leaf(vs[0].path, vs[0].tree.value)] else []) + Leaves(vs[1..])
  }

  lemma LeavesNext(v: Visit, vs: seq<Visit>)
    ensures Leaves([v] + vs) == (if v.tree.Val? then [Leaf(v.path, v.tree.value)] else []) + Leaves(vs)
  {
    assert ([v] + vs)[1..] == vs;
  }

  lemma LeavesNone()
    ensures Leaves([]) == []
  {
  }

  lemma {:induction false} InLeaves(vs: seq<Visit>, l: Leaf)
    ensures l in Leaves(vs) <==> Visit(l.path, Val(l.value)) in vs
  {
    if vs != [] {
      InLeaves(vs[1..], l);
      assert vs == [vs[0]] + vs[1..];
    }
  }

  lemma {:induction false} InAbove(vs: seq<Visit>, key: seq<byte>, v: Visit)
    ensures v in Above(vs, key) <==> v in vs && !Less(v.path, key)
  {
    if vs != [] {
      InAbove(vs[1..], key, v);
      assert vs == [vs[0]] + vs[1..];
    }
  }

  ghost predicate SortedLeaves(ls: seq<Leaf>)
  {
    forall i, j :: 0 <= i < j < |ls| ==> Less(ls[i].path, ls[j].path)
  }

  lemma {:induction false} LeavesSorted(vs: seq<Visit>)
    requires Sorted(vs)
    ensures SortedLeaves(Leaves(vs))
  {
    if vs != [] {
      SortedSuffix(vs[..1], vs[1..]);
      assert vs == vs[..1] + vs[1..];
      LeavesSorted(vs[1..]);
      if vs[0].tree.Val? {
        var ls := Leaves(vs[1..]);
        forall j | 0 <= j < |ls| ensures Less(vs[0].path, ls[j].path) {
          InLeaves(vs[1..], ls[j]);
          var i :| 0 <= i < |vs[1..]| && vs[1..][i] == Visit(ls[j].path, Val(ls[j].value));
          assert vs[i + 1] == vs[1..][i];
        }
      }
    }
  }

  lemma {:induction false} AboveSorted(vs: seq<Visit>, key: seq<byte>)
    requires Sorted(vs)
    ensures Sorted(Above(vs, key))
  {
    if vs != [] {
      SortedSuffix(vs[..1], vs[1..]);
      assert vs == vs[..1] + vs[1..];
      if Less(vs[0].path, key) {
        AboveSorted(vs[1..], key);
      } else {
        AboveAll(vs, key);
      }
    }
  }

  /** emptyState: the hash of nothing. A trie with that hash gets an iterator without a trie, which panics. */
  function EmptyState(h: Hasher): Hash { h([]) }

  /** newNodeIterator */
  method NewNodeIterator(trie: Trie, start: seq<byte>) returns (it: NodeIterator)
    requires trie.Valid() && RootHash(trie.h, trie.tree) != EmptyState(trie.h)
    modifies trie`root
    ensures fresh(it) && it.Valid() && trie.Valid() && it.env == trie.Ambient() && it.tree == trie.tree
    ensures !it.err.SeekFailed? ==> it.Ahead(true) == Above(All(it.tree), SeekKey(start))
    ensures it.err.SeekFailed? ==> it.err.start == start && Ops.OnlyMissing(it.env, it.err.cause)
    ensures it.err.SeekFailed? ==> Above(it.Ahead(true), SeekKey(start)) == Above(All(it.tree), SeekKey(start))
    ensures !it.err.Failed?
  {
    hide Intact, Walking, All, Above, SeekKey, Rep, Sound, HashOf, HashFits, EmptyRoot, EmptyState, RootHash, ZeroHash,
         Left, Less, Ops.OnlyMissing;
    var hash := trie.Hash();
    IteratorParts(trie.Ambient(), trie.root, trie.tree, trie.content);
    it := new NodeIterator.Start(trie.Ambient(), trie.cachegen, trie.root,
                                 if hash != EmptyRoot(trie.h) then hash else ZeroHash(), trie.tree);
    var e := it.Seek(start);
    it.err := e;
  }

  lemma IteratorParts(env: Env, root: Node, t: Tree, m: Map)
    requires Intact(env, root, t, m)
    ensures Rep(env, root, t, true) && Sound(t, false)
    ensures RootHash(env.h, t) != EmptyRoot(env.h) ==> HashFits(env.h, RootHash(env.h, t), t)
    ensures HashFits(env.h, ZeroHash(), t)
  {
    hide Rep, Bounded, Norm, HashOf, EmptyRoot, ZeroHash, Stores;
    if !t.Empty? { NormInner(t); }
  }

  /** Everything ahead belongs to the whole iteration. */
  ghost predicate Within(vs: seq<Visit>, t: Tree) { forall v :: v in vs ==> v in All(t) }

  /** Iterator: stops at values only. */
  class KeyIterator {
    const nodeIt: NodeIterator
    var key: seq<byte>
    var value: seq<byte>
    ghost const content: Map

    ghost predicate Valid()
      reads this, nodeIt
    {
      && nodeIt.Valid() && !nodeIt.err.SeekFailed?
      && Within(nodeIt.Ahead(true), nodeIt.tree) && Stores(nodeIt.tree, content)
    }

    constructor (nodeIt: NodeIterator, ghost content: Map)
      requires nodeIt.Valid() && !nodeIt.err.SeekFailed?
      requires Within(nodeIt.Ahead(true), nodeIt.tree) && Stores(nodeIt.tree, content)
      ensures Valid() && this.nodeIt == nodeIt && this.content == content
    {
      this.nodeIt, this.content := nodeIt, content;
      key, value := [], [];
    }

    /** Next moves to the next value ahead, or reports that there is none. */
    method Next() returns (ok: bool)
      requires Valid()
      modifies this`key, this`value, nodeIt
      ensures Valid()
      ensures ok ==> Leaves(old(nodeIt.Ahead(true))) == [Leaf(KeyHex(key), value)] + Leaves(nodeIt.Ahead(true))
      ensures !ok && nodeIt.err.End? ==> Leaves(old(nodeIt.Ahead(true))) == []
      ensures !ok && !nodeIt.err.End? ==> nodeIt.err.Failed? && Ops.OnlyMissing(nodeIt.env, nodeIt.err.error)
                                          && Leaves(old(nodeIt.Ahead(true))) == Leaves(nodeIt.Ahead(true))
    {
      hide All, Above, Rep, Sound, Walking, HashFits, Stores, Leaves, Ops.OnlyMissing, HasTerm, KeyHex, HexKey, Kids;
      ghost var ahead0 := nodeIt.Ahead(true);
      while true
        invariant Valid()
        invariant Leaves(nodeIt.Ahead(true)) == Leaves(ahead0)
        decreases |nodeIt.Ahead(true)|
      {
        ghost var ahead := nodeIt.Ahead(true);
        ok := nodeIt.Next(true);
        NextWithin(nodeIt, ok, ahead);
        if !ok {
          key, value := [], [];
          return;
        }
        LeafHere(nodeIt, content);
        if HasTerm(nodeIt.path) {
          key := HexKey(nodeIt.path);
          value := nodeIt.stack[|nodeIt.stack| - 1].node.value;
          return;
        }
      }
    }
  }

  lemma NextWithin(it: NodeIterator, ok: bool, ahead: seq<Visit>)
    requires it.Valid() && Within(ahead, it.tree) && NextOk(it, ok, ahead)
    ensures Within(it.Ahead(true), it.tree)
    ensures ok ==>
              it.stack != [] && |it.stack| == |it.trees| && |it.Ahead(true)| < |ahead| &&
              Visit(it.path, it.trees[|it.trees| - 1]) in All(it.tree)
    ensures ok ==> var t := it.trees[|it.trees| - 1];
                   Leaves(ahead) == (if t.Val? then [Leaf(it.path, t.value)] else []) + Leaves(it.Ahead(true))
    ensures !ok && !it.err.End? ==> it.err.Failed? && Ops.OnlyMissing(it.env, it.err.error) && it.Ahead(true) == ahead
    ensures !ok && it.err.End? ==> ahead == [] && Leaves(ahead) == []
  {
    hide All, Above, Rep, Sound, Walking, Kids, Ops.OnlyMissing, HashFits, Left, Skipped, Leaves;
    LeavesNone();
    if ok {
      var v := Visit(it.path, it.trees[|it.trees| - 1]);
      LeavesNext(v, it.Ahead(true));
      assert ahead[0] == v;
      forall w | w in it.Ahead(true) ensures w in All(it.tree) { assert w in ahead; }
    }
  }

  /** Where a path ends there is the value of its key. */
  lemma LeafHere(it: NodeIterator, m: Map)
    requires it.Valid() && it.stack != [] && |it.stack| == |it.trees| && Stores(it.tree, m)
    requires Visit(it.path, it.trees[|it.trees| - 1]) in All(it.tree)
    ensures var t := it.trees[|it.trees| - 1];
            && (HasTerm(it.path) <==> t.Val?)
            && (HasTerm(it.path) ==>
                  && IsHex(it.path) && |Bare(it.path)| % 2 == 0 && KeyHex(HexKey(it.path)) == it.path
                  && it.stack[|it.stack| - 1].node == Value(t.value))
  {
    hide All, Rep, Bounded, Norm, KeyHex, HexKey, Bare, Placed, Rest;
    var t := it.trees[|it.trees| - 1];
    AllLeaf(it.tree, Visit(it.path, t));
    if t.Val? {
      assert FrameOk(it.env, it.stack[|it.stack| - 1], t, |it.stack| == 1);
      ValueNode(it.env, it.stack[|it.stack| - 1].node, t, |it.stack| == 1);
      StoredPath(it.tree, m, it.path);
    }
  }

  lemma ValueNode(env: Env, n: Node, t: Tree, root: bool)
    requires t.Val? && Rep(env, n, t, root)
    ensures n == Value(t.value)
  {
  }

  lemma StoredPath(t: Tree, m: Map, p: seq<byte>)
    requires Stores(t, m) && Lookup(t, p) != []
    ensures IsHex(p) && |Bare(p)| % 2 == 0 && KeyHex(HexKey(p)) == p
  {
    hide Lookup, KeyHex, HexKey, Bare, Nibbles;
    var key :| p == KeyHex(key);
    KeyPath(key);
  }

  lemma KeyPath(key: seq<byte>)
    ensures var p := KeyHex(key);
            IsHex(p) && |Bare(p)| % 2 == 0 && HexKey(p) == key
  {
    HexKeyOfKeyHex(key);
  }

  // ----- a whole iteration -----

  datatype Entry = Entry(key: seq<byte>, value: seq<byte>)

  function Paths(es: seq<Entry>): seq<Leaf>
  {
    seq(|es|, i requires 0 <= i < |es| => Leaf(KeyHex(es[i].key), es[i].value))
  }

  lemma PathsSnoc(es: seq<Entry>, e: Entry)
    ensures Paths(es + [e]) == Paths(es) + [Leaf(KeyHex(e.key), e.value)]
  {
    hide KeyHex;
  }

  /** Calling Next until it returns false. */
  method Drain(it: KeyIterator) returns (es: seq<Entry>)
    requires it.Valid() && it.nodeIt.env.strict
    modifies it`key, it`value, it.nodeIt
    ensures Paths(es) == Leaves(old(it.nodeIt.Ahead(true)))
  {
    hide All, Ops.OnlyMissing, KeyHex, Stores, Leaves, Walking, Paths, Within, Rep, Sound, HashFits, Left;
    ghost var all := it.nodeIt.Ahead(true);
    es := [];
    PathsNone();
    var ok := true;
    while ok
      invariant it.Valid()
      invariant Leaves(all) == Paths(es) + if ok then Leaves(it.nodeIt.Ahead(true)) else []
      decreases ok, |Leaves(it.nodeIt.Ahead(true))|
    {
      ok, es := Listed(it, es);
    }
  }

  /** One call of Next, and noting the entry it stands at. */
  method Listed(it: KeyIterator, es: seq<Entry>) returns (ok: bool, r: seq<Entry>)
    requires it.Valid() && it.nodeIt.env.strict
    modifies it`key, it`value, it.nodeIt
    ensures it.Valid()
    ensures !ok ==> old(Leaves(it.nodeIt.Ahead(true))) == [] && r == es
    ensures ok ==> Paths(es) + old(Leaves(it.nodeIt.Ahead(true))) == Paths(r) + Leaves(it.nodeIt.Ahead(true))
    ensures ok ==> |Leaves(it.nodeIt.Ahead(true))| < |old(Leaves(it.nodeIt.Ahead(true)))|
  {
    hide All, Ops.OnlyMissing, KeyHex, Stores, Leaves, Walking, Paths, Within, Rep, Sound, HashFits, Left;
    ok := it.Next();
    r := es;
    if ok {
      PathsSnoc(es, Entry(it.key, it.value));
      r := es + [Entry(it.key, it.value)];
    } else {
      NoFailure(it.nodeIt.env, it.nodeIt.err);
    }
  }

  lemma NoFailure(env: Env, e: IterError)
    requires env.strict && (!e.End? ==> e.Failed? && Ops.OnlyMissing(env, e.error))
    ensures e.End?
  {
  }

  /** All entries from a start key on: exactly those of the map, each once, in path order. */
  method Entries(trie: Trie, start: seq<byte>) returns (es: seq<Entry>)
    requires trie.Valid() && trie.strict && RootHash(trie.h, trie.tree) != EmptyState(trie.h)
    modifies trie`root
    ensures trie.Valid()
    ensures forall k, v :: Entry(k, v) in es <==>
                             k in trie.content && trie.content[k] == v && !Less(KeyHex(k), SeekKey(start))
    ensures forall i, j :: 0 <= i < j < |es| ==> Less(KeyHex(es[i].key), KeyHex(es[j].key))
  {
    hide Intact, All, Above, SeekKey, Rep, Sound, EmptyState, RootHash, Less, Ops.OnlyMissing, KeyHex, Stores, Leaves,
         Walking, Paths;
    var nodeIt := NewNodeIterator(trie, start);
    NoSeekError(nodeIt.env, nodeIt.err);
    AboveWithin(trie.tree, SeekKey(start));
    IntactParts(trie.Ambient(), trie.root, trie.tree, trie.content);
    var it := new KeyIterator(nodeIt, trie.content);
    es := Drain(it);
    EntriesExact(trie.tree, trie.content, es, SeekKey(start));
  }

  lemma PathsNone()
    ensures Paths([]) == []
  {
  }

  lemma NoSeekError(env: Env, e: IterError)
    requires env.strict && (e.SeekFailed? ==> Ops.OnlyMissing(env, e.cause))
    ensures !e.SeekFailed?
  {
  }

  lemma AboveWithin(t: Tree, key: seq<byte>)
    ensures Within(Above(All(t), key), t)
  {
    hide All, Above;
    forall v | v in Above(All(t), key) ensures v in All(t) { InAbove(All(t), key, v); }
  }

  lemma EntriesExact(t: Tree, m: Map, es: seq<Entry>, key: seq<byte>)
    requires Sound(t, false) && Stores(t, m) && Paths(es) == Leaves(Above(All(t), key))
    ensures forall k, v :: Entry(k, v) in es <==> k in m && m[k] == v && !Less(KeyHex(k), key)
    ensures forall i, j :: 0 <= i < j < |es| ==> Less(KeyHex(es[i].key), KeyHex(es[j].key))
  {
    hide All, Above, KeyHex, Less, Leaves, Norm, Bounded, Lookup;
    AllSorted(t);
    AboveSorted(All(t), key);
    LeavesSorted(Above(All(t), key));
    assert forall i :: 0 <= i < |es| ==> Paths(es)[i].path == KeyHex(es[i].key);
    forall k, v ensures Entry(k, v) in es <==> k in m && m[k] == v && !Less(KeyHex(k), key) {
      InPaths(es, Entry(k, v));
      EntryListed(t, m, key, k, v);
    }
  }

  /** An entry is listed exactly if it is in the map and not below the key. */
  lemma EntryListed(t: Tree, m: Map, key: seq<byte>, k: seq<byte>, v: seq<byte>)
    requires Sound(t, false) && Stores(t, m)
    ensures Leaf(KeyHex(k), v) in Leaves(Above(All(t), key)) <==> k in m && m[k] == v && !Less(KeyHex(k), key)
  {
    hide All, Above, KeyHex, Less, Leaves, Norm, Bounded, Lookup;
    InLeaves(Above(All(t), key), Leaf(KeyHex(k), v));
    InAbove(All(t), key, Visit(KeyHex(k), Val(v)));
    AllLeaf(t, Visit(KeyHex(k), Val(v)));
    StoresAt(t, m, k);
  }

  lemma InPaths(es: seq<Entry>, e: Entry)
    ensures e in es <==> Leaf(KeyHex(e.key), e.value) in Paths(es)
  {
    if e in es {
      var i :| 0 <= i < |es| && es[i] == e;
      assert Paths(es)[i] == Leaf(KeyHex(e.key), e.value);
    }
    if Leaf(KeyHex(e.key), e.value) in Paths(es) {
      var i :| 0 <= i < |es| && Paths(es)[i] == Leaf(KeyHex(e.key), e.value);
      KeyHexInjective(es[i].key, e.key);
    }
  }
}
