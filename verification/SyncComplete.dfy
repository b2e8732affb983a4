/**
 What a finished sync is good for: a database that is closed under children and has
 the root of a trie has the whole trie.
 */
module SyncComplete {
  import opened Bytes
  import opened RlpSpec
  import opened TrieTree
  import opened TrieNode
  import opened TrieRep
  import opened TrieUnique
  import opened SyncBook

  /** The entry was first asked for as a node, and no callback has failed for it. */
  predicate Whole(kinds: map<Hash, Kind>, x: Hash) { !KindAt(kinds, x).Raw? && !KindAt(kinds, x).Cut? }

  /** Under the hashes of the given nodes the database has these nodes, asked for as nodes. */
  ghost predicate Honest(h: Hasher, kinds: map<Hash, Kind>, db: Blobs, encs: set<seq<byte>>)
  {
    forall e :: e in encs && h(e) in db ==> db[h(e)] == e && Whole(kinds, h(e))
  }

  /** The child of a stored node that goes by hash is among what the node needs. */
  lemma BigChild(h: Hasher, cb: Callback, kinds: map<Hash, Kind>, t: Tree, c: Tree)
    requires Norm(t) && Bounded(t) && IsChild(t, c) && Inner(c) && Big(h, c)
    requires Whole(kinds, HashOf(h, t))
    ensures HashOf(h, c) in Needed(h, cb, kinds, HashOf(h, t), Enc(h, t))
  {
    hide Norm, Bounded, Enc, DecodeNode, NodeOf, RefNode, Big;
    var x := HashOf(h, t);
    EncBounded(h, t);
    DecodeStored(h, t, Some(x), 0, []);
    assert Enc(h, t) + [] == Enc(h, t);
    NormInner(t);
    ChildHash(h, t, c, Some(x));
  }

  lemma ChildHash(h: Hasher, t: Tree, c: Tree, x: Option<Hash>)
    requires Inner(t) && IsChild(t, c) && Inner(c) && Big(h, c)
    ensures HashOf(h, c) in HashesIn(ChildNodes(NodeOf(h, t, x, 0)))
  {
    hide HashesIn, Enc;
    assert RefNode(h, c, 0) == HashNode(HashOf(h, c));
    var n := NodeOf(h, t, x, 0);
    if t.Ext? {
      HashIn(ChildNodes(n), 0);
    } else {
      var i :| 0 <= i < |t.children| && t.children[i] == c;
      HashIn(ChildNodes(n), i);
    }
  }

  /** And conversely. */
  lemma HashChild(h: Hasher, t: Tree, x: Option<Hash>, k: Hash) returns (c: Tree)
    requires Inner(t) && k in HashesIn(ChildNodes(NodeOf(h, t, x, 0)))
    ensures IsChild(t, c) && Inner(c) && Big(h, c) && HashOf(h, c) == k
  {
    hide HashesIn, Enc;
    var i := WhereHash(ChildNodes(NodeOf(h, t, x, 0)), k);
    c := if t.Ext? then t.child else t.children[i];
    RefKind(h, c);
  }

  lemma {:induction false} HashIn(ns: seq<Node>, i: nat)
    requires i < |ns| && ns[i].HashNode?
    ensures ns[i].hash in HashesIn(ns)
  {
    if i > 0 { HashIn(ns[1..], i - 1); }
  }

  /** A closed database with the root of a tree has everything the tree refers to. */
  lemma {:induction false} ClosedStores(h: Hasher, cb: Callback, kinds: map<Hash, Kind>, db: Blobs, t: Tree,
                                        encs: set<seq<byte>>)
    requires Closed(h, cb, kinds, db) && Honest(h, kinds, db, encs) && Known(h, encs, t) && HashOf(h, t) in db
    ensures Stored(Env(h, db, true), t)
    decreases t
  {
    hide Closed, Honest, Known, Enc, Needed, Big, Whole;
    HonestAt(h, kinds, db, encs, t);
    KnownInner(h, encs, t);
    match t
    case Ext(k, c) =>
      if Inner(c) { ChildStored(h, cb, kinds, db, t, c, encs); }
    case Branch(cs) =>
      forall i | 0 <= i < |cs| && Inner(cs[i])
        ensures (Big(h, cs[i]) ==> Held(Env(h, db, true), cs[i])) && Below(Env(h, db, true), cs[i])
      {
        ChildStored(h, cb, kinds, db, t, cs[i], encs);
      }
  }

  lemma HonestAt(h: Hasher, kinds: map<Hash, Kind>, db: Blobs, encs: set<seq<byte>>, t: Tree)
    requires Honest(h, kinds, db, encs) && Known(h, encs, t) && HashOf(h, t) in db
    ensures db[HashOf(h, t)] == Enc(h, t) && Whole(kinds, HashOf(h, t))
  {
    hide Known, Enc;
    KnownEnc(h, encs, t);
  }

  lemma {:induction false} ChildStored(h: Hasher, cb: Callback, kinds: map<Hash, Kind>, db: Blobs, t: Tree, c: Tree,
                                       encs: set<seq<byte>>)
    requires Closed(h, cb, kinds, db) && Honest(h, kinds, db, encs) && Known(h, encs, t) && HashOf(h, t) in db
    requires IsChild(t, c) && Inner(c)
    ensures (Big(h, c) ==> Held(Env(h, db, true), c)) && Below(Env(h, db, true), c)
    decreases t, 0
  {
    hide Closed, Honest, Known, Enc, Needed, Below, Whole;
    KnownChild(h, encs, t, c);
    if Big(h, c) {
      HonestAt(h, kinds, db, encs, t);
      KnownNorm(h, encs, t);
      BigChild(h, cb, kinds, t, c);
      ClosedAt(h, cb, kinds, db, HashOf(h, t), HashOf(h, c));
      ClosedStores(h, cb, kinds, db, c, encs);
    } else {
      KnownNorm(h, encs, c);
      SmallBelow(h, Env(h, db, true), c);
    }
  }

  lemma ClosedAt(h: Hasher, cb: Callback, kinds: map<Hash, Kind>, db: Blobs, x: Hash, k: Hash)
    requires Closed(h, cb, kinds, db) && x in db && k in Needed(h, cb, kinds, x, db[x])
    ensures k in db
  {
    hide Needed;
  }

  /** A node of less than 32 bytes has no room for a hash. */
  lemma {:induction false} SmallBelow(h: Hasher, env: Env, t: Tree)
    requires Norm(t) && !Big(h, t) && env.h == h
    ensures Below(env, t)
  {
    hide Held, Enc;
    match t
    case Ext(k, c) =>
      if Inner(c) {
        SmallChild(h, t, c);
        SmallBelow(h, env, c);
      }
    case Branch(cs) =>
      forall i | 0 <= i < |cs| && Inner(cs[i])
        ensures (Big(h, cs[i]) ==> Held(env, cs[i])) && Below(env, cs[i])
      {
        SmallChild(h, t, cs[i]);
        SmallBelow(h, env, cs[i]);
      }
  }

  lemma SmallChild(h: Hasher, t: Tree, c: Tree)
    requires Norm(t) && !Big(h, t) && IsChild(t, c) && Inner(c)
    ensures !Big(h, c)
  {
    hide Encode, EncodeAll, Norm;
    NormInner(t);
    if Big(h, c) {
      var items := NodeItem(h, t).items;
      assert RefItem(h, c) in items by {
        if t.Ext? { assert items[1] == RefItem(h, c); }
        else {
          var i :| 0 <= i < |t.children| && t.children[i] == c;
          assert items[i] == RefItem(h, c);
        }
      }
      PartOf(items, RefItem(h, c));
      HashSize(h(Enc(h, c)));
      ListSize(items);
    }
  }

  lemma {:induction false} PartOf(vs: seq<Item>, v: Item)
    requires v in vs
    ensures |Encode(v)| <= |EncodeAll(vs)|
  {
    hide Encode;
    if vs[0] != v { PartOf(vs[1..], v); }
  }

  lemma HashSize(x: Hash)
    requires |x| == 32
    ensures |Encode(Str(x))| == 33
  {
  }

  lemma ListSize(vs: seq<Item>)
    ensures |Encode(Item.List(vs))| >= |EncodeAll(vs)|
  {
    hide EncodeAll;
  }
}
