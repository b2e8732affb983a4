/**
 The sync of one trie without callbacks (trie/sync.go): its nodes cannot refer to each
 other in a circle, so that a finished sync always has the whole trie.
 */
module SyncPlain {
  import opened Bytes
  import opened TrieTree
  import opened TrieNode
  import opened TrieRep
  import opened TrieHasher
  import opened TrieUnique
  import opened Cycles
  import opened SyncBook
  import opened SyncSteps
  import opened SyncUses
  import opened TrieSync
  import opened SyncComplete
  import opened SyncWhole
  import Drive = SyncDrive

  /** Leaves are not looked at. */
  function NoCalls(): Callback { (v: seq<byte>) => Answer([], true) }

  ghost predicate Hashed(h: Hasher, encs: set<seq<byte>>, x: Hash) { exists e :: e in encs && h(e) == x }

  ghost function Source(h: Hasher, encs: set<seq<byte>>, x: Hash): (e: seq<byte>)
    requires Hashed(h, encs, x)
    ensures e in encs && h(e) == x
  {
    var e :| e in encs && h(e) == x;
    e
  }

  /** The nodes of a trie under their hashes. */
  ghost function NodesOf(h: Hasher, encs: set<seq<byte>>): Blobs
  {
    var xs := set e | e in encs :: h(e);
    map x | x in xs :: Source(h, encs, x)
  }

  lemma NodesAre(h: Hasher, encs: set<seq<byte>>)
    requires Distinct(h, encs)
    ensures Genuine(h, NodesOf(h, encs), encs)
    ensures forall x :: x in NodesOf(h, encs) ==> NodesOf(h, encs)[x] in encs && h(NodesOf(h, encs)[x]) == x
  {
    hide Distinct;
    var world := NodesOf(h, encs);
    forall e | e in encs ensures h(e) in world && world[h(e)] == e {
      DistinctAt(h, encs, e, Source(h, encs, h(e)));
    }
  }

  // ----- references go down -----

  /** Every node of a tree is the encoding of a tree. */
  lemma {:induction false} SourceTree(h: Hasher, encs: set<seq<byte>>, t: Tree, e: seq<byte>) returns (u: Tree)
    requires Known(h, encs, t) && e in Encs(h, t)
    ensures Known(h, encs, u) && Enc(h, u) == e
    decreases t
  {
    hide Known, Enc;
    KnownInner(h, encs, t);
    if e == Enc(h, t) { return t; }
    match t
    case Ext(k, c) =>
      KnownExt(h, encs, k, c);
      u := SourceTree(h, encs, c, e);
    case Branch(cs) =>
      var i := InOne(h, cs, e);
      KnownBranch(h, encs, cs, i);
      u := SourceTree(h, encs, cs[i], e);
  }

  lemma {:induction false} InOne(h: Hasher, ts: seq<Tree>, e: seq<byte>) returns (i: nat)
    requires e in EncsAll(h, ts)
    ensures i < |ts| && e in Encs(h, ts[i])
  {
    hide Encs;
    if e in Encs(h, ts[0]) { return 0; }
    i := InOne(h, ts[1..], e);
    i := i + 1;
  }

  /** What a node refers to by hash is one of its children. */
  lemma KidOf(h: Hasher, t: Tree, x: Hash, k: Hash) returns (c: Tree)
    requires Norm(t) && Bounded(t) && k in NeededAs(h, NoCalls(), Calling, x, Enc(h, t))
    ensures IsChild(t, c) && Inner(c) && HashOf(h, c) == k
  {
    hide Norm, HashOf, Bounded, Enc, DecodeNode, NodeOf, RefNode, ZeroHash, Trivial, SubsOf, ValuesIn;
    EncBounded(h, t);
    DecodeStored(h, t, Some(x), 0, []);
    assert Enc(h, t) + [] == Enc(h, t);
    NormInner(t);
    var n := NodeOf(h, t, Some(x), 0);
    NoSubs(ValuesIn(ChildNodes(n)));
    assert k in HashesIn(ChildNodes(n));
    c := HashChild(h, t, Some(x), k);
  }

  lemma {:induction false} NoSubs(leaves: seq<seq<byte>>)
    ensures SubsOf(NoCalls(), leaves) == []
  {
    if leaves != [] { NoSubs(leaves[1..]); }
  }

  /** References among the nodes of a trie go down. */
  lemma NoCircle(h: Hasher, t: Tree)
    requires Norm(t) && Bounded(t) && Distinct(h, Encs(h, t))
    ensures !HasCycle(References(h, NoCalls(), NodesOf(h, Encs(h, t))))
  {
    hide *;
    var encs := Encs(h, t);
    var g := References(h, NoCalls(), NodesOf(h, encs));
    var m := x => SizeBy(h, encs, x);
    forall p, k | p in g && k in g[p] ensures m(k) < m(p) {
      GoesDown(h, t, p, k);
    }
    Downhill(g, m);
  }

  lemma GoesDown(h: Hasher, t: Tree, p: Hash, k: Hash)
    requires Norm(t) && Bounded(t) && Distinct(h, Encs(h, t))
    requires var g := References(h, NoCalls(), NodesOf(h, Encs(h, t)));
             p in g && k in g[p]
    ensures SizeBy(h, Encs(h, t), k) < SizeBy(h, Encs(h, t), p)
  {
    hide *;
    var encs := Encs(h, t);
    NodesAre(h, encs);
    ReferenceIs(h, NoCalls(), NodesOf(h, encs), p);
    KnownIs(h, t);
    var u := SourceTree(h, encs, t, NodesOf(h, encs)[p]);
    KnownNorm(h, encs, u);
    var c := KidOf(h, u, p, k);
    HashIs(h, u);
    KnownChild(h, encs, u, c);
    ChildSmaller(u, c);
    SizeIs(h, encs, u);
    SizeIs(h, encs, c);
  }

  lemma ReferenceIs(h: Hasher, cb: Callback, world: Blobs, p: Hash)
    requires p in References(h, cb, world)
    ensures p in world && References(h, cb, world)[p] == NeededAs(h, cb, Calling, p, world[p])
  {
    hide NeededAs;
  }

  lemma KnownIs(h: Hasher, t: Tree)
    requires Norm(t) && Bounded(t)
    ensures Known(h, Encs(h, t), t) && Inner(t)
  {
  }

  /** The sync of one trie into an empty database, with any calls in any order. */
  method SyncOne(h: Hasher, ghost t: Tree, root: Hash, acts: seq<Act>) returns (s: Sync)
    requires Norm(t) && Bounded(t) && Distinct(h, Encs(h, t)) && root == HashOf(h, t) && root != h([0x80])
    requires forall a :: a in acts ==> From(NodesOf(h, Encs(h, t)), a)
    ensures fresh(s) && s.Valid()
    ensures Finished(s) ==> s.book.requests == map[] && TrieRep.Stored(Env(h, s.book.db, true), t)
  {
    hide *;
    ghost var encs := Encs(h, t);
    ghost var world := NodesOf(h, encs);
    NodesAre(h, encs);
    KnownIs(h, t);
    NoCircle(h, t);
    EmptyNoted(h, NoCalls());
    NothingYet(h, world, encs);
    s := SyncTrie(h, NoCalls(), map[], map[], false, {}, acts, world, root, t, encs);
  }

  lemma NothingYet(h: Hasher, world: Blobs, encs: set<seq<byte>>)
    ensures Faithful(Book(map[], map[], [], map[], [], map[]), world) && NeverRaw(h, NoCalls(), {}, encs)
  {
    forall e | e in encs ensures !Announces(NoCalls(), h(e)) {
    }
  }

  // ----- to the end -----

  /** Every node of a trie can be had under its hash. */
  lemma KnownIn(h: Hasher, encs: set<seq<byte>>, world: Blobs, u: Tree)
    requires Known(h, encs, u) && Genuine(h, world, encs)
    ensures Drive.NodeIn(world, HashOf(h, u))
  {
    hide Known, DecodeNode, Enc, NodeOf;
    KnownEnc(h, encs, u);
    KnownNorm(h, encs, u);
    Decoded(h, u, HashOf(h, u));
  }

  /** The nodes of a trie have all that they refer to. */
  lemma TreeComplete(h: Hasher, t: Tree)
    requires Norm(t) && Bounded(t) && Distinct(h, Encs(h, t))
    ensures Drive.Complete(h, NoCalls(), NodesOf(h, Encs(h, t)), {})
  {
    hide *;
    var world := NodesOf(h, Encs(h, t));
    forall x | Drive.NodeIn(world, x)
      ensures x in world && DecodeNode(Some(x), world[x], 0).Ok?
      ensures Drive.WholeAt(h, NoCalls(), world, {}, x, DecodeNode(Some(x), world[x], 0).value)
    {
      WholeNode(h, t, x);
    }
    CompleteFrom(h, world);
  }

  lemma CompleteFrom(h: Hasher, world: Blobs)
    requires forall x :: Drive.NodeIn(world, x) ==>
               && x in world && DecodeNode(Some(x), world[x], 0).Ok?
               && Drive.WholeAt(h, NoCalls(), world, {}, x, DecodeNode(Some(x), world[x], 0).value)
    ensures Drive.Complete(h, NoCalls(), world, {})
  {
    hide DecodeNode, Drive.WholeAt;
  }

  lemma WholeNode(h: Hasher, t: Tree, x: Hash)
    requires Norm(t) && Bounded(t) && Distinct(h, Encs(h, t)) && Drive.NodeIn(NodesOf(h, Encs(h, t)), x)
    ensures x in NodesOf(h, Encs(h, t)) && DecodeNode(Some(x), NodesOf(h, Encs(h, t))[x], 0).Ok?
    ensures Drive.WholeAt(h, NoCalls(), NodesOf(h, Encs(h, t)), {}, x,
                          DecodeNode(Some(x), NodesOf(h, Encs(h, t))[x], 0).value)
  {
    hide *;
    var encs := Encs(h, t);
    var world := NodesOf(h, encs);
    NodesAre(h, encs);
    KnownIs(h, t);
    NodeInIs(world, x);
    var u := SourceTree(h, encs, t, world[x]);
    KnownNorm(h, encs, u);
    NormInner(u);
    Decoded(h, u, x);
    var n := NodeOf(h, u, Some(x), 0);
    forall k | k in HashesIn(ChildNodes(n)) ensures Drive.NodeIn(world, k) {
      var c := HashChild(h, u, Some(x), k);
      KnownChild(h, encs, u, c);
      KnownIn(h, encs, world, c);
    }
    WholeFrom(h, world, x, n);
  }

  lemma NodeInIs(world: Blobs, x: Hash)
    requires Drive.NodeIn(world, x)
    ensures x in world
  {
    hide DecodeNode;
  }

  lemma WholeFrom(h: Hasher, world: Blobs, x: Hash, n: Node)
    requires forall k :: k in HashesIn(ChildNodes(n)) ==> Drive.NodeIn(world, k)
    ensures Drive.WholeAt(h, NoCalls(), world, {}, x, n)
  {
    hide Drive.NodeIn, HashesIn, ChildNodes;
  }

  /**
   The sync of one trie into an empty database, by asking for what is missing until nothing
   is: it ends, and the whole trie is there.
   */
  method SyncOneToEnd(h: Hasher, ghost t: Tree, root: Hash, world: Blobs) returns (s: Sync)
    requires Norm(t) && Bounded(t) && Distinct(h, Encs(h, t)) && root == HashOf(h, t) && root != h([0x80])
    requires world == NodesOf(h, Encs(h, t))
    ensures fresh(s) && s.Valid() && Finished(s) && s.book.requests == map[]
    ensures TrieRep.Stored(Env(h, s.book.db, true), t)
  {
    hide *;
    ghost var encs := Encs(h, t);
    NodesAre(h, encs);
    KnownIs(h, t);
    NoCircle(h, t);
    NothingYet(h, world, encs);
    TreeComplete(h, t);
    KnownIn(h, encs, world, t);
    s := Drive.SyncToEnd(h, NoCalls(), world, root, false, {}, t, encs);
  }
}
