/**
 Committing a trie through the node database (trie/hasher.go, trie/database.go): the
 hasher stores children before parents, so that cached nodes keep their children, and
 whatever Commit writes to disk is complete.
 */
module TrieCommit {
  import opened Bytes
  import opened RlpSpec
  import opened HexPrefix
  import opened TrieTree
  import opened TrieNode
  import opened TrieRep
  import opened TrieHasher
  import opened TrieDurable
  import opened T = Trie
  import D = TrieDatabase
  import Unique = TrieUnique
  import SyncBook
  import SyncComplete

  /** Parents rank above their children. */
  ghost predicate Ranked(h: Hasher, encs: set<seq<byte>>, rank: Hash -> nat)
  {
    forall u, c :: Unique.Known(h, encs, u) && IsChild(u, c) && Inner(c) ==> rank(HashOf(h, c)) < rank(HashOf(h, u))
  }

  ghost function BySize(h: Hasher, encs: set<seq<byte>>): Hash -> nat { x => Unique.SizeBy(h, encs, x) }

  /** By size, they do. */
  lemma SizeRanks(h: Hasher, encs: set<seq<byte>>)
    requires Distinct(h, encs)
    ensures Ranked(h, encs, BySize(h, encs))
  {
    hide Distinct, Unique.Known, IsChild, HashOf, Unique.SizeBy, Size, Inner;
    forall u, c | Unique.Known(h, encs, u) && IsChild(u, c) && Inner(c)
      ensures Unique.SizeBy(h, encs, HashOf(h, c)) < Unique.SizeBy(h, encs, HashOf(h, u))
    {
      Unique.KnownChild(h, encs, u, c);
      Unique.SizeIs(h, encs, u);
      Unique.SizeIs(h, encs, c);
      ChildSmaller(u, c);
    }
  }

  /** What a commit does to the cache leaves its nodes with their children, and right. */
  ghost predicate Fine(h: Hasher, encs: set<seq<byte>>, nodes: D.Nodes, after: D.Nodes, disk: D.Disk)
  {
    && (D.Keeping(nodes, disk) ==> D.Keeping(after, disk))
    && (Right(h, nodes, disk, encs) ==> Right(h, after, disk, encs))
  }

  lemma FineTwice(h: Hasher, encs: set<seq<byte>>, a: D.Nodes, b: D.Nodes, c: D.Nodes, disk: D.Disk)
    requires Fine(h, encs, a, b, disk) && Fine(h, encs, b, c, disk)
    ensures Fine(h, encs, a, c, disk)
  {
    hide D.Keeping, Right;
  }

  // ----- one node -----

  /** A collapsed child goes by hash exactly if it is big. */
  ghost predicate RefOk(h: Hasher, r: Node, t: Tree)
  {
    (r.HashNode? <==> Inner(t) && Big(h, t)) && (r.HashNode? ==> r.hash == HashOf(h, t))
  }

  ghost predicate KidRefs(h: Hasher, r: Node, t: Tree)
  {
    match r
    case Short(_, v, _) => t.Ext? && RefOk(h, v, t.child)
    case Full(ns, _) =>
      t.Branch? && |ns| == |t.children| == 17 && forall i :: 0 <= i < 16 ==> RefOk(h, ns[i], t.children[i])
    case _ => false
  }

  /** The children that a collapsed node has by hash. */
  function KidList(n: Node): seq<Hash>
  {
    match n
    case Short(_, v, _) => SyncBook.HashesIn([v])
    case Full(ns, _) => if |ns| == 17 then SyncBook.HashesIn(ns[..16]) else []
    case _ => []
  }

  /** They are the big children of the tree. */
  lemma ListedChild(h: Hasher, n: Node, t: Tree, k: Hash) returns (c: Tree)
    requires KidRefs(h, n, t) && k in KidList(n)
    ensures IsChild(t, c) && Inner(c) && Big(h, c) && HashOf(h, c) == k
  {
    hide SyncBook.HashesIn, Big, HashOf;
    if n.Short? {
      var i := SyncBook.WhereHash([n.val], k);
      c := t.child;
    } else {
      var i := SyncBook.WhereHash(n.children[..16], k);
      c := t.children[i];
    }
  }

  lemma ChildListed(h: Hasher, n: Node, t: Tree, c: Tree)
    requires KidRefs(h, n, t) && Norm(t) && IsChild(t, c) && Inner(c) && Big(h, c)
    ensures HashOf(h, c) in KidList(n)
  {
    hide SyncBook.HashesIn, Big, HashOf;
    if n.Short? {
      SyncComplete.HashIn([n.val], 0);
    } else {
      var i :| 0 <= i < |t.children| && t.children[i] == c;
      assert i < 16;
      SyncComplete.HashIn(n.children[..16], i);
    }
  }

  lemma KidsRanked(h: Hasher, encs: set<seq<byte>>, rank: Hash -> nat, n: Node, t: Tree)
    requires KidRefs(h, n, t) && Ranked(h, encs, rank) && Unique.Known(h, encs, t)
    ensures forall k :: k in KidList(n) ==> rank(k) < rank(HashOf(h, t))
  {
    hide KidRefs, Unique.Known, IsChild, HashOf, KidList, Big, Inner;
    forall k | k in KidList(n) ensures rank(k) < rank(HashOf(h, t)) {
      var c := ListedChild(h, n, t, k);
    }
  }

  /** When the children can be loaded, the node is stored after them. */
  lemma KidsBefore(h: Hasher, nodes: D.Nodes, disk: D.Disk, n: Node, t: Tree)
    requires KidRefs(h, n, t) && Norm(t) && Bounded(t) && Below(Env(h, View(nodes, disk), true), t)
    ensures D.KidsThere(nodes, disk, HashOf(h, t), Enc(h, t), KidList(n))
  {
    hide KidRefs, Norm, Bounded, Below, View, HashOf, Enc, DecodeNode, NodeOf, KidList, Big, IsChild, SyncBook.HashesIn,
         SyncBook.ChildNodes;
    var x := HashOf(h, t);
    Decoded(h, t, x);
    NormInner(t);
    forall k | k in D.KidsIn(x, Enc(h, t)) ensures k in KidList(n) && (k in nodes || k in disk) {
      var c := SyncComplete.HashChild(h, t, Some(x), k);
      ChildListed(h, n, t, c);
      ChildThere(h, View(nodes, disk), t, c);
      InView(nodes, disk, k);
    }
  }

  lemma ChildThere(h: Hasher, db: Store, t: Tree, c: Tree)
    requires Below(Env(h, db, true), t) && IsChild(t, c) && Inner(c) && Big(h, c)
    ensures HashOf(h, c) in db
  {
    hide Big, HashOf, Enc;
  }

  lemma InView(nodes: D.Nodes, disk: D.Disk, k: Hash)
    requires k in View(nodes, disk)
    ensures k in nodes || k in disk
  {
    hide D.Find;
  }

  lemma ViewAt(nodes: D.Nodes, disk: D.Disk, y: Hash)
    ensures y in View(nodes, disk) <==> |y| == 32 && (y in nodes || y in disk)
    ensures y in View(nodes, disk) ==> View(nodes, disk)[y] == if y in nodes then nodes[y].blob else disk[y]
  {
  }

  /** What tries see after a node has been stored. */
  lemma ViewFiled(h: Hasher, encs: set<seq<byte>>, nodes: D.Nodes, more: D.Nodes, disk: D.Disk, e: seq<byte>)
    requires D.Filed(nodes, more, h(e), e) && Pure(h, View(nodes, disk), encs) && e in encs
    ensures var db := View(nodes, disk);
            View(more, disk) == if h(e) !in db then db[h(e) := e] else db
  {
    hide Pure, View, D.Filed;
    var db, x := View(nodes, disk), h(e);
    assert |x| == 32;
    if x in db { PureHas(h, encs, db, e); }
    var db', after := if x !in db then db[x := e] else db, View(more, disk);
    forall y ensures (y in after <==> y in db') && (y in db' ==> after[y] == db'[y]) {
      FiledKey(nodes, more, disk, x, e, y);
    }
    assert after.Keys == db'.Keys;
  }

  lemma FiledKey(nodes: D.Nodes, more: D.Nodes, disk: D.Disk, x: Hash, e: seq<byte>, y: Hash)
    requires D.Filed(nodes, more, x, e) && |x| == 32 && (x in View(nodes, disk) ==> View(nodes, disk)[x] == e)
    ensures y in View(more, disk) <==> y == x || y in View(nodes, disk)
    ensures y in View(more, disk) ==> View(more, disk)[y] == if y == x then e else View(nodes, disk)[y]
  {
    hide View;
    ViewAt(nodes, disk, y);
    ViewAt(more, disk, y);
  }

  lemma RightFiled(h: Hasher, encs: set<seq<byte>>, nodes: D.Nodes, more: D.Nodes, disk: D.Disk, e: seq<byte>)
    requires D.Filed(nodes, more, h(e), e) && Distinct(h, encs) && e in encs && Right(h, nodes, disk, encs)
    ensures Right(h, more, disk, encs)
  {
    hide Distinct;
    forall f | f in encs && h(f) in more ensures more[h(f)].blob == f {
      if h(f) !in nodes { DistinctAt(h, encs, f, e); }
    }
  }

  /** The effect of Store on a node of the trie. */
  lemma StoredFine(h: Hasher, encs: set<seq<byte>>, nodes: D.Nodes, more: D.Nodes, disk: D.Disk, n: Node, t: Tree)
    requires Unique.Known(h, encs, t) && Pure(h, View(nodes, disk), encs) && KidRefs(h, n, t)
    requires Below(Env(h, View(nodes, disk), true), t) && D.Filed(nodes, more, HashOf(h, t), Enc(h, t))
    requires D.Keeping(nodes, disk) && D.KidsThere(nodes, disk, HashOf(h, t), Enc(h, t), KidList(n)) ==>
               D.Keeping(more, disk)
    ensures Fine(h, encs, nodes, more, disk)
    ensures var db, x := View(nodes, disk), HashOf(h, t);
            View(more, disk) == if x !in db then db[x := Enc(h, t)] else db
  {
    hide KidRefs, View, D.Filed, Unique.Known, Enc, Below, D.Keeping, D.KidsThere, Right, Distinct, KidList;
    Unique.KnownNorm(h, encs, t);
    Unique.KnownEnc(h, encs, t);
    KidsBefore(h, nodes, disk, n, t);
    ViewFiled(h, encs, nodes, more, disk, Enc(h, t));
    if Right(h, nodes, disk, encs) { RightFiled(h, encs, nodes, more, disk, Enc(h, t)); }
  }

  /** The collapsed form of a node whose children have been stored. */
  ghost predicate Collapsed(h: Hasher, db: Store, n: Node, t: Tree, encs: set<seq<byte>>)
  {
    && (n.Short? || n.Full?) && NodeRlp(n) == NodeItem(h, t) && (Cached(n) ==> n.flags.hash.value == HashOf(h, t))
    && KidRefs(h, n, t) && Unique.Known(h, encs, t) && Pure(h, db, encs) && Below(Env(h, db, true), t)
  }

  /** store with a database. */
  method StoreInto(d: D.Database, h: Hasher, n: Node, c: Hashing, force: bool, ghost t: Tree, ghost encs: set<seq<byte>>)
    returns (hashed: Node)
    requires d.Valid() && c.write && Ranked(h, encs, d.rank) && Collapsed(h, View(d.nodes, d.disk), n, t, encs)
    modifies d`nodes
    ensures d.Valid() && Fine(h, encs, old(d.nodes), d.nodes, d.disk)
    ensures (hashed, View(d.nodes, d.disk)) == StoreNode(h, old(View(d.nodes, d.disk)), n, c, force)
    ensures if force then hashed == HashNode(HashOf(h, t)) else RefOk(h, hashed, t)
  {
    hide *;
    CollapsedIs(h, View(d.nodes, d.disk), n, t, encs, c, force);
    FineSelf(h, encs, d.nodes, d.disk);
    var enc := Encode(NodeRlp(n));
    if |enc| < 32 && !force { return n; }
    var x := if Cached(n) then n.flags.hash.value else h(enc);
    ghost var nodes := d.nodes;
    KidsRanked(h, encs, d.rank, n, t);
    d.Store(x, enc, KidList(n));
    StoredFine(h, encs, nodes, d.nodes, d.disk, n, t);
    return HashNode(x);
  }

  lemma FineSelf(h: Hasher, encs: set<seq<byte>>, nodes: D.Nodes, disk: D.Disk)
    ensures Fine(h, encs, nodes, nodes, disk)
  {
    hide D.Keeping, Right;
  }

  lemma CollapsedIs(h: Hasher, db: Store, n: Node, t: Tree, encs: set<seq<byte>>, c: Hashing, force: bool)
    requires Collapsed(h, db, n, t, encs) && c.write
    ensures Encode(NodeRlp(n)) == Enc(h, t) && |HashOf(h, t)| == 32 && h(Enc(h, t)) == HashOf(h, t)
    ensures Cached(n) ==> (n.Short? || n.Full?) && n.flags.hash.Some? && n.flags.hash.value == HashOf(h, t)
    ensures KidRefs(h, n, t) && Unique.Known(h, encs, t) && Pure(h, db, encs) && Below(Env(h, db, true), t)
    ensures StoreNode(h, db, n, c, force)
         == if |Enc(h, t)| < 32 && !force then (n, db)
            else (HashNode(HashOf(h, t)), if HashOf(h, t) !in db then db[HashOf(h, t) := Enc(h, t)] else db)
    ensures |Enc(h, t)| < 32 ==> RefOk(h, n, t)
    ensures |Enc(h, t)| >= 32 ==> RefOk(h, HashNode(HashOf(h, t)), t)
  {
    hide KidRefs, Unique.Known, Pure, Below, NodeRlp, NodeItem, Encode, StoreNode;
    Unique.KnownInner(h, encs, t);
    StoreAt(h, db, n, c, force, Enc(h, t));
  }

  // ----- whole tries -----

  /** A node of the trie that is to be hashed. */
  ghost predicate ToHash(h: Hasher, db: Store, n: Node, c: Hashing, force: bool, t: Tree, encs: set<seq<byte>>)
  {
    c.write && Rep(Env(h, db, true), n, t, force) && Unique.Known(h, encs, t) && Pure(h, db, encs)
  }

  /** hash with a database: the same as on a map, and every node is stored after its children. */
  method HashInto(d: D.Database, h: Hasher, n: Node, c: Hashing, force: bool, ghost t: Tree, ghost encs: set<seq<byte>>)
    returns (hashed: Node, cached: Node)
    requires d.Valid() && Ranked(h, encs, d.rank) && ToHash(h, View(d.nodes, d.disk), n, c, force, t, encs)
    modifies d`nodes
    ensures d.Valid() && Fine(h, encs, old(d.nodes), d.nodes, d.disk)
    ensures Hashed(hashed, cached, View(d.nodes, d.disk)) == HashRec(h, old(View(d.nodes, d.disk)), n, c, force)
    ensures if force then hashed == HashNode(HashOf(h, t)) else RefOk(h, hashed, t)
    decreases n, 2
  {
    hide *;
    ghost var db := View(d.nodes, d.disk);
    FineSelf(h, encs, d.nodes, d.disk);
    AtOnce(h, db, n, c, force, t, encs);
    if Cached(n) && !n.flags.dirty {
      hashed := HashNode(n.flags.hash.value);
      cached := if CanUnload(n.flags, c) then hashed else n;
      return;
    }
    if n.HashNode? { return n, n; }
    ghost var nodes := d.nodes;
    var kh, kc := ChildrenInto(d, h, n, c, force, t, encs);
    ghost var mid := d.nodes;
    ReadyToStore(h, db, n, c, force, t, encs);
    hashed := StoreInto(d, h, kh, c, force, t, encs);
    cached := SetHash(kc, hashed, c);
    FineTwice(h, encs, nodes, mid, d.nodes, d.disk);
    HashRecUnfold(h, db, n, c, force);
  }

  /** Nodes that need no work. */
  lemma AtOnce(h: Hasher, db: Store, n: Node, c: Hashing, force: bool, t: Tree, encs: set<seq<byte>>)
    requires ToHash(h, db, n, c, force, t, encs)
    ensures n.HashNode? || n.Short? || n.Full?
    ensures Cached(n) ==> (n.Short? || n.Full?) && n.flags.hash.Some?
    ensures Cached(n) && !n.flags.dirty ==>
              var x := HashNode(n.flags.hash.value);
              && HashRec(h, db, n, c, force) == Hashed(x, if CanUnload(n.flags, c) then x else n, db)
              && x == HashNode(HashOf(h, t)) && (!force ==> RefOk(h, x, t))
    ensures n.HashNode? ==>
              && HashRec(h, db, n, c, force) == Hashed(n, n, db)
              && n == HashNode(HashOf(h, t)) && (!force ==> RefOk(h, n, t))
    ensures c.write
  {
    hide Unique.Known, Pure, Stored, Enc, CanUnload;
    Unique.KnownInner(h, encs, t);
  }

  /** After the children, the node itself can be stored. */
  lemma ReadyToStore(h: Hasher, db: Store, n: Node, c: Hashing, force: bool, t: Tree, encs: set<seq<byte>>)
    requires ToHash(h, db, n, c, force, t, encs) && (n.Short? || n.Full?)
    requires KidRefs(h, HashChildren(h, db, n, c).hashed, t)
    ensures var kids := HashChildren(h, db, n, c);
            Collapsed(h, kids.db, kids.hashed, t, encs)
    ensures !(Cached(n) && (!c.write || !n.flags.dirty)) || (Cached(n) && !n.flags.dirty)
  {
    hide Rep, Unique.Known, Pure, HashChildren, NodeRlp, NodeItem, KidRefs, Below, Grows, HashOf, Norm, Bounded, Encs, Enc,
         RepBody, FlagsOk;
    var env := Env(h, db, true);
    Unique.KnownNorm(h, encs, t);
    KnownEncs(h, encs, t);
    ChildrenCorrect(env, n, c, t, force, encs);
    OwnFlags(env, n, t, force);
    KidsFacts(env, n, c, t, force, encs);
    PureGrows(h, encs, db, HashChildren(h, db, n, c).db);
  }

  lemma KnownEncs(h: Hasher, encs: set<seq<byte>>, t: Tree)
    requires Unique.Known(h, encs, t)
    ensures Encs(h, t) <= encs
  {
  }

  lemma OwnFlags(env: Env, n: Node, t: Tree, root: bool)
    requires Rep(env, n, t, root) && (n.Short? || n.Full?)
    ensures FlagsOk(env, n.flags, t, root)
  {
    hide FlagsOk;
  }

  /** hashChildren with a database. */
  method ChildrenInto(d: D.Database, h: Hasher, n: Node, c: Hashing, force: bool, ghost t: Tree,
                      ghost encs: set<seq<byte>>)
    returns (hashed: Node, cached: Node)
    requires d.Valid() && Ranked(h, encs, d.rank) && ToHash(h, View(d.nodes, d.disk), n, c, force, t, encs)
    requires n.Short? || n.Full?
    modifies d`nodes
    ensures d.Valid() && Fine(h, encs, old(d.nodes), d.nodes, d.disk)
    ensures Hashed(hashed, cached, View(d.nodes, d.disk)) == HashChildren(h, old(View(d.nodes, d.disk)), n, c)
    ensures KidRefs(h, hashed, t)
    decreases n, 1
  {
    hide *;
    ghost var db := View(d.nodes, d.disk);
    FineSelf(h, encs, d.nodes, d.disk);
    match n
    case Short(k, v, f) =>
      var compact := if IsHex(k) then Compact(k) else [];
      if v.Value? {
        hashed, cached := Short(compact, v, f), n;
        LeafInto(h, db, n, c, force, t, encs);
      } else {
        ExtInto(h, db, n, c, force, t, encs);
        var r, rc := HashInto(d, h, v, c, false, t.child, encs);
        hashed, cached := Short(compact, NilToValue(r), f), Short(k, rc, f);
        ExtDone(h, db, n, c, t, Hashed(r, rc, View(d.nodes, d.disk)), hashed);
      }
    case Full(ns, f) =>
      FullInto(h, db, n, c, force, t, encs);
      var hs, cs := KidsInto(d, h, n, c, t, encs);
      hashed, cached := Full(hs + [NilToValue(ns[16])], f), Full(cs + [ns[16]], f);
      FullDone(h, db, n, c, t, HashedKids(hs, cs, View(d.nodes, d.disk)), hashed);
  }

  lemma LeafInto(h: Hasher, db: Store, n: Node, c: Hashing, force: bool, t: Tree, encs: set<seq<byte>>)
    requires ToHash(h, db, n, c, force, t, encs) && n.Short? && n.val.Value?
    ensures var r := Short(if IsHex(n.key) then Compact(n.key) else [], n.val, n.flags);
            HashChildren(h, db, n, c) == Hashed(r, n, db) && KidRefs(h, r, t)
  {
    hide Rep, Pure, IsHex, Compact, HashRec, Big, HashOf;
    LeafShape(Env(h, db, true), n, t, force);
  }

  lemma ExtInto(h: Hasher, db: Store, n: Node, c: Hashing, force: bool, t: Tree, encs: set<seq<byte>>)
    requires ToHash(h, db, n, c, force, t, encs) && n.Short? && !n.val.Value?
    ensures t.Ext? && ToHash(h, db, n.val, c, false, t.child, encs)
  {
    hide Rep, Pure, Unique.Known, Norm, Encs, IsHex;
    Unique.KnownNorm(h, encs, t);
    KnownEncs(h, encs, t);
    ExtChild(Env(h, db, true), n, t, force, encs);
    Unique.KnownChild(h, encs, t, t.child);
  }

  lemma ExtDone(h: Hasher, db: Store, n: Node, c: Hashing, t: Tree, r: Hashed, hashed: Node)
    requires n.Short? && !n.val.Value? && t.Ext? && r == HashRec(h, db, n.val, c, false) && RefOk(h, r.hashed, t.child)
    requires hashed == Short(if IsHex(n.key) then Compact(n.key) else [], NilToValue(r.hashed), n.flags)
    ensures HashChildren(h, db, n, c) == Hashed(hashed, Short(n.key, r.cached, n.flags), r.db) && KidRefs(h, hashed, t)
  {
    hide HashRec, IsHex, Compact, Big, HashOf;
  }

  /** The children of a full node, and that they can be hashed. */
  ghost predicate Children(h: Hasher, db: Store, ns: seq<Node>, ts: seq<Tree>, encs: set<seq<byte>>)
  {
    && Paired(Env(h, db, true), ns, ts) && Pure(h, db, encs) && EncsAll(h, ts) <= encs
    && forall j :: 0 <= j < |ts| ==> ts[j].Empty? || Unique.Known(h, encs, ts[j])
  }

  lemma FullInto(h: Hasher, db: Store, n: Node, c: Hashing, force: bool, t: Tree, encs: set<seq<byte>>)
    requires ToHash(h, db, n, c, force, t, encs) && n.Full?
    ensures c.write && t.Branch? && |n.children| == |t.children| == 17
    ensures Children(h, db, n.children[..16], t.children[..16], encs)
  {
    hide Rep, Pure, Unique.Known, Norm, Encs, EncsAll, Paired;
    Unique.KnownNorm(h, encs, t);
    KnownEncs(h, encs, t);
    BranchChildren(Env(h, db, true), n, t, force, encs);
    forall j | 0 <= j < 16 ensures t.children[..16][j].Empty? || Unique.Known(h, encs, t.children[..16][j]) {
      Unique.KnownBranch(h, encs, t.children, j);
    }
  }

  lemma FullDone(h: Hasher, db: Store, n: Node, c: Hashing, t: Tree, r: HashedKids, hashed: Node)
    requires n.Full? && t.Branch? && |n.children| == |t.children| == 17 && r == HashKids(h, db, n.children[..16], c)
    requires forall i :: 0 <= i < 16 ==> RefOk(h, r.hashed[i], t.children[i])
    requires hashed == Full(r.hashed + [NilToValue(n.children[16])], n.flags)
    ensures HashChildren(h, db, n, c) == Hashed(hashed, Full(r.cached + [n.children[16]], n.flags), r.db)
    ensures KidRefs(h, hashed, t)
  {
    hide HashKids, RefOk;
  }

  // ----- the sixteen children -----

  /** The first i children have been hashed. */
  ghost predicate Listing(h: Hasher, encs: set<seq<byte>>, start: Store, db: Store, ns: seq<Node>, ts: seq<Tree>,
                          c: Hashing, hs: seq<Node>, cs: seq<Node>, i: nat)
  {
    && i <= |ns| == |ts| && |hs| == i && |cs| == i && Children(h, db, ns, ts, encs)
    && (var rest := HashKids(h, db, ns[i..], c);
        HashedKids(hs + rest.hashed, cs + rest.cached, rest.db) == HashKids(h, start, ns, c))
    && forall j :: 0 <= j < i ==> RefOk(h, hs[j], ts[j])
  }

  lemma ListStart(h: Hasher, encs: set<seq<byte>>, db: Store, ns: seq<Node>, ts: seq<Tree>, c: Hashing)
    requires Children(h, db, ns, ts, encs)
    ensures Listing(h, encs, db, db, ns, ts, c, [], [], 0)
  {
    hide HashKids, RefOk, Pure, Unique.Known, EncsAll, Rep;
    assert ns[0..] == ns;
  }

  /** What hashing a child, or passing over none, gives. */
  ghost function OneHashed(h: Hasher, db: Store, n: Node, c: Hashing): Hashed
  {
    if n.Nil? then Hashed(Value([]), Nil, db) else HashRec(h, db, n, c, false)
  }

  lemma ListNext(h: Hasher, encs: set<seq<byte>>, start: Store, db: Store, ns: seq<Node>, ts: seq<Tree>, c: Hashing,
                 hs: seq<Node>, cs: seq<Node>, i: nat, r: Hashed)
    requires Listing(h, encs, start, db, ns, ts, c, hs, cs, i) && i < |ns| && c.write
    requires r == OneHashed(h, db, ns[i], c) && RefOk(h, r.hashed, ts[i])
    ensures Listing(h, encs, start, r.db, ns, ts, c, hs + [r.hashed], cs + [r.cached], i + 1)
  {
    hide HashKids, RefOk, Children, OneHashed;
    ChildrenNext(h, db, ns, ts, encs, c, i);
    KidsUnfold(h, db, ns, c, i);
    var rest := HashKids(h, r.db, ns[i + 1..], c);
    assert hs + ([r.hashed] + rest.hashed) == hs + [r.hashed] + rest.hashed;
    assert cs + ([r.cached] + rest.cached) == cs + [r.cached] + rest.cached;
  }

  lemma KidsUnfold(h: Hasher, db: Store, ns: seq<Node>, c: Hashing, i: nat)
    requires i < |ns|
    ensures var r := OneHashed(h, db, ns[i], c);
            var rest := HashKids(h, r.db, ns[i + 1..], c);
            HashKids(h, db, ns[i..], c) == HashedKids([r.hashed] + rest.hashed, [r.cached] + rest.cached, rest.db)
  {
    hide HashRec;
    assert ns[i..][1..] == ns[i + 1..];
  }

  /** The other children can still be hashed. */
  lemma ChildrenNext(h: Hasher, db: Store, ns: seq<Node>, ts: seq<Tree>, encs: set<seq<byte>>, c: Hashing, i: nat)
    requires Children(h, db, ns, ts, encs) && i < |ns| && c.write
    ensures Children(h, OneHashed(h, db, ns[i], c).db, ns, ts, encs)
  {
    hide HashRec, Pure, Unique.Known, EncsAll, Grows, Encs, Norm, Rep;
    if !ns[i].Nil? {
      var env := Env(h, db, true);
      var r := HashRec(h, db, ns[i], c, false);
      ChildAt(h, db, ns, ts, encs, i);
      Unique.KnownNorm(h, encs, ts[i]);
      KnownEncs(h, encs, ts[i]);
      HashCorrect(env, ns[i], c, ts[i], false, encs);
      SafeGrows(h, encs, db, r.db, c);
      PairedGrows(env, r.db, ns, ts, encs);
    }
  }

  lemma ChildAt(h: Hasher, db: Store, ns: seq<Node>, ts: seq<Tree>, encs: set<seq<byte>>, i: nat)
    requires Children(h, db, ns, ts, encs) && i < |ns|
    ensures |ts| == |ns| && Rep(Env(h, db, true), ns[i], ts[i], false)
    ensures if ns[i].Nil? then ts[i].Empty? else Unique.Known(h, encs, ts[i])
    ensures !ns[i].Nil? ==> Pure(h, db, encs)
  {
    hide Pure, Unique.Known, EncsAll, Stored;
  }

  lemma ListEnd(h: Hasher, encs: set<seq<byte>>, start: Store, db: Store, ns: seq<Node>, ts: seq<Tree>, c: Hashing,
                hs: seq<Node>, cs: seq<Node>)
    requires Listing(h, encs, start, db, ns, ts, c, hs, cs, |ns|)
    ensures HashedKids(hs, cs, db) == HashKids(h, start, ns, c)
    ensures |hs| == |ns| == |ts| && forall j :: 0 <= j < |ns| ==> RefOk(h, hs[j], ts[j])
  {
    hide RefOk, Children;
    assert ns[|ns|..] == [];
    assert HashKids(h, db, [], c) == HashedKids([], [], db);
    assert hs + [] == hs && cs + [] == cs;
  }

  /** The loop of hashChildren. */
  method KidsInto(d: D.Database, h: Hasher, n: Node, c: Hashing, ghost t: Tree, ghost encs: set<seq<byte>>)
    returns (hs: seq<Node>, cs: seq<Node>)
    requires d.Valid() && Ranked(h, encs, d.rank) && c.write && n.Full? && t.Branch?
    requires |n.children| == |t.children| == 17
    requires Children(h, View(d.nodes, d.disk), n.children[..16], t.children[..16], encs)
    modifies d`nodes
    ensures d.Valid() && Fine(h, encs, old(d.nodes), d.nodes, d.disk)
    ensures HashedKids(hs, cs, View(d.nodes, d.disk)) == HashKids(h, old(View(d.nodes, d.disk)), n.children[..16], c)
    ensures |hs| == 16 && forall i :: 0 <= i < 16 ==> RefOk(h, hs[i], t.children[i])
    decreases n, 0
  {
    hide *;
    ghost var db, nodes, ns, ts := View(d.nodes, d.disk), d.nodes, n.children[..16], t.children[..16];
    FineSelf(h, encs, d.nodes, d.disk);
    ListStart(h, encs, db, ns, ts, c);
    hs, cs := [], [];
    for i := 0 to 16
      invariant d.Valid() && Fine(h, encs, nodes, d.nodes, d.disk)
      invariant Listing(h, encs, db, View(d.nodes, d.disk), ns, ts, c, hs, cs, i)
    {
      ghost var mid, was := View(d.nodes, d.disk), d.nodes;
      ListingAt(h, encs, db, mid, ns, ts, c, hs, cs, i);
      var r, rc := Value([]), Nil;
      if !n.children[i].Nil? {
        r, rc := HashInto(d, h, n.children[i], c, false, t.children[i], encs);
        FineTwice(h, encs, nodes, was, d.nodes, d.disk);
      }
      ListNext(h, encs, db, mid, ns, ts, c, hs, cs, i, Hashed(r, rc, View(d.nodes, d.disk)));
      hs, cs := hs + [r], cs + [rc];
    }
    ListEnd(h, encs, db, View(d.nodes, d.disk), ns, ts, c, hs, cs);
  }

  lemma ListingAt(h: Hasher, encs: set<seq<byte>>, start: Store, db: Store, ns: seq<Node>, ts: seq<Tree>, c: Hashing,
                  hs: seq<Node>, cs: seq<Node>, i: nat)
    requires Listing(h, encs, start, db, ns, ts, c, hs, cs, i) && i < |ns| && c.write
    ensures |ts| == |ns|
    ensures ns[i].Nil? ==> OneHashed(h, db, ns[i], c) == Hashed(Value([]), Nil, db) && RefOk(h, Value([]), ts[i])
    ensures !ns[i].Nil? ==> ToHash(h, db, ns[i], c, false, ts[i], encs)
    ensures !ns[i].Nil? ==> OneHashed(h, db, ns[i], c) == HashRec(h, db, ns[i], c, false)
  {
    hide HashKids, Children, HashRec, Unique.Known, Pure, Rep, Big, HashOf;
    ChildAt(h, db, ns, ts, encs, i);
  }

  // ----- a trie and its database -----

  /** The trie sees what the database has, and the database is in order. */
  ghost predicate Joined(t: T.Trie, d: D.Database, encs: set<seq<byte>>)
    reads t, d
  {
    && t.Valid() && t.strict && d.Valid() && t.db == View(d.nodes, d.disk)
    && D.Complete(d.disk) && D.Keeping(d.nodes, d.disk) && Right(t.h, d.nodes, d.disk, encs)
    && Distinct(t.h, encs) && Ranked(t.h, encs, d.rank)
  }

  lemma RightPure(h: Hasher, nodes: D.Nodes, disk: D.Disk, encs: set<seq<byte>>)
    requires Right(h, nodes, disk, encs) && Distinct(h, encs)
    ensures Pure(h, View(nodes, disk), encs)
  {
    hide Distinct, View;
    forall e | e in encs && h(e) in View(nodes, disk) ensures View(nodes, disk)[h(e)] == e {
      ViewAt(nodes, disk, h(e));
    }
  }

  lemma PurePart(h: Hasher, db: Store, some: set<seq<byte>>, encs: set<seq<byte>>)
    requires Pure(h, db, encs) && some <= encs
    ensures Pure(h, db, some)
  {
    hide Distinct;
    DistinctPart(h, some, encs);
  }

  lemma JoinedToHash(t: T.Trie, encs: set<seq<byte>>)
    requires t.Valid() && t.strict && Pure(t.h, t.db, encs) && Encs(t.h, t.tree) <= encs
    ensures Pure(t.h, t.db, Encs(t.h, t.tree)) && (t.root.Nil? <==> t.tree.Empty?)
    ensures !t.root.Nil? ==>
              ToHash(t.h, t.db, t.root, Hashing(t.cachegen, t.cachelimit, true), true, t.tree, encs)
  {
    hide Pure, Encs, Stores, Bounded;
    PurePart(t.h, t.db, Encs(t.h, t.tree), encs);
  }

  /** Commit of a trie through the database. */
  method CommitThrough(t: T.Trie, d: D.Database, ghost encs: set<seq<byte>>) returns (hash: Hash)
    requires Joined(t, d, encs) && Encs(t.h, t.tree) <= encs
    modifies t, d
    ensures Joined(t, d, encs) && t.tree == old(t.tree) && t.content == old(t.content) && hash == RootHash(t.h, t.tree)
    ensures !t.tree.Empty? ==> Rep(Env(t.h, View(d.nodes, d.disk), true), HashNode(hash), t.tree, true)
  {
    hide *;
    JoinedIs(t, d, encs);
    RightPure(t.h, d.nodes, d.disk, encs);
    JoinedToHash(t, encs);
    ghost var nodes := d.nodes;
    FineSelf(t.h, encs, nodes, d.disk);
    if !t.root.Nil? {
      var hashed, cached := HashInto(d, t.h, t.root, Hashing(t.cachegen, t.cachelimit, true), true, t.tree, encs);
    }
    hash := t.Commit();
    FineIs(t.h, encs, nodes, d.nodes, d.disk);
    Joins(t, d, encs);
    AmbientIs(t);
  }

  lemma AmbientIs(t: T.Trie)
    ensures t.Ambient() == Env(t.h, t.db, t.strict)
  {
  }

  lemma FineIs(h: Hasher, encs: set<seq<byte>>, nodes: D.Nodes, after: D.Nodes, disk: D.Disk)
    requires Fine(h, encs, nodes, after, disk) && D.Keeping(nodes, disk) && Right(h, nodes, disk, encs)
    ensures D.Keeping(after, disk) && Right(h, after, disk, encs)
  {
    hide D.Keeping, Right;
  }

  lemma JoinedIs(t: T.Trie, d: D.Database, encs: set<seq<byte>>)
    requires Joined(t, d, encs)
    ensures t.Valid() && t.strict && d.Valid() && t.db == View(d.nodes, d.disk)
    ensures D.Complete(d.disk) && D.Keeping(d.nodes, d.disk) && Right(t.h, d.nodes, d.disk, encs)
    ensures Distinct(t.h, encs) && Ranked(t.h, encs, d.rank)
  {
    hide D.Complete, D.Keeping, Right, Distinct, Ranked, View, Intact;
  }

  lemma Joins(t: T.Trie, d: D.Database, encs: set<seq<byte>>)
    requires t.Valid() && t.strict && d.Valid() && t.db == View(d.nodes, d.disk)
    requires D.Complete(d.disk) && D.Keeping(d.nodes, d.disk) && Right(t.h, d.nodes, d.disk, encs)
    requires Distinct(t.h, encs) && Ranked(t.h, encs, d.rank)
    ensures Joined(t, d, encs)
  {
    hide D.Complete, D.Keeping, Right, Distinct, Ranked, View, Intact;
  }

  /** Commit of the database, for any root. */
  method WriteOut(t: T.Trie, d: D.Database, root: Hash, ghost encs: set<seq<byte>>) returns (ok: bool)
    requires Joined(t, d, encs)
    modifies d
    ensures Joined(t, d, encs)
  {
    hide *;
    JoinedIs(t, d, encs);
    ghost var nodes, disk := d.nodes, d.disk;
    NodeIs(d);
    ok := d.Commit(root);
    NodeIs(d);
    SameView(nodes, disk, d.nodes, d.disk);
    StaysRight(t.h, nodes, disk, d.disk, encs);
    RightLeft(t.h, nodes, disk, d.nodes, d.disk, encs);
    Joins(t, d, encs);
  }

  lemma RightLeft(h: Hasher, nodes: D.Nodes, disk: D.Disk, left: D.Nodes, after: D.Disk, encs: set<seq<byte>>)
    requires Right(h, nodes, disk, encs) && Right(h, map[], after, encs)
    requires forall y :: y in left ==> y in nodes && left[y] == nodes[y]
    ensures Right(h, left, after, encs)
  {
  }

  // ----- any run, and a restart -----

  /** What may be done with a trie and its database: any operation on the trie, and commits of the database. */
  datatype Deed = Does(op: Op) | Writes(root: Hash)

  function Edited(m: Map, deeds: seq<Deed>): Map
  {
    if deeds == [] then m
    else
      var rest, last := Edited(m, deeds[..|deeds| - 1]), deeds[|deeds| - 1];
      if last.Does? then Apply(rest, last.op) else rest
  }

  /** Keys and values fit, and the nodes of what is committed are among those given. */
  ghost predicate DeedsOk(h: Hasher, encs: set<seq<byte>>, deeds: seq<Deed>)
  {
    forall i :: 0 <= i < |deeds| && deeds[i].Does? ==>
      OpFits(deeds[i].op) && (deeds[i].op.CommitNow? ==> Covers(h, encs, Edited(map[], deeds[..i])))
  }

  lemma DeedsAt(h: Hasher, encs: set<seq<byte>>, deeds: seq<Deed>, i: nat)
    requires DeedsOk(h, encs, deeds) && i < |deeds|
    ensures var m := Edited(map[], deeds[..i]);
            && Edited(map[], deeds[..i + 1]) == (if deeds[i].Does? then Apply(m, deeds[i].op) else m)
            && (deeds[i].Does? ==> OpFits(deeds[i].op) && (deeds[i].op.CommitNow? ==> Covers(h, encs, m)))
  {
    hide OpFits, Covers, Apply;
    assert deeds[..i + 1][..i] == deeds[..i];
  }

  lemma CoversTree(t: T.Trie, encs: set<seq<byte>>)
    requires t.Valid() && Covers(t.h, encs, t.content)
    ensures Encs(t.h, t.tree) <= encs
  {
    hide Rep, Encs, Stores, Bounded, Norm;
  }

  lemma CommitIsNothing(m: Map)
    ensures Apply(m, CommitNow) == m
  {
  }

  /** One deed. */
  method Act(t: T.Trie, d: D.Database, deed: Deed, ghost encs: set<seq<byte>>)
    requires Joined(t, d, encs)
    requires deed.Does? ==> OpFits(deed.op) && (deed.op.CommitNow? ==> Covers(t.h, encs, t.content))
    modifies t, d
    ensures Joined(t, d, encs) && t.content == if deed.Does? then Apply(old(t.content), deed.op) else old(t.content)
  {
    hide *;
    JoinedIs(t, d, encs);
    if deed.Writes? {
      var ok := WriteOut(t, d, deed.root, encs);
    } else if deed.op.CommitNow? {
      CoversTree(t, encs);
      CommitIsNothing(t.content);
      var hash := CommitThrough(t, d, encs);
    } else {
      Edit(t, deed.op);
      Joins(t, d, encs);
    }
  }

  /** Any deeds, from an empty trie and a new database on a complete disk. */
  method Live(h: Hasher, disk: D.Disk, writes: nat, deeds: seq<Deed>, ghost encs: set<seq<byte>>)
    returns (t: T.Trie, d: D.Database)
    requires Distinct(h, encs) && D.Complete(disk) && Right(h, D.NewNodes(), disk, encs) && DeedsOk(h, encs, deeds)
    ensures fresh(t) && fresh(d) && Joined(t, d, encs) && t.h == h && t.content == Edited(map[], deeds)
  {
    hide *;
    SizeRanks(h, encs);
    d := new D.Database(disk, writes, BySize(h, encs));
    t := new T.Trie(h, View(d.nodes, d.disk), true);
    Joins(t, d, encs);
    NothingEdited();
    for i := 0 to |deeds|
      invariant fresh(t) && fresh(d) && Joined(t, d, encs) && t.h == h && t.content == Edited(map[], deeds[..i])
    {
      DeedsAt(h, encs, deeds, i);
      Act(t, d, deeds[i], encs);
    }
    assert deeds[..|deeds|] == deeds;
  }

  lemma NothingEdited()
    ensures forall deeds: seq<Deed> :: Edited(map[], deeds[..0]) == map[]
  {
  }

  lemma RootFacts(t: T.Trie, encs: set<seq<byte>>)
    requires t.Valid() && Covers(t.h, encs, t.content) && Distinct(t.h, encs + {[0x80]}) && Distinct(t.h, encs)
    requires forall e :: e in encs ==> t.h(e) != ZeroHash()
    ensures Encs(t.h, t.tree) <= encs && Sound(t.tree, false) && Stores(t.tree, t.content)
    ensures t.tree.Empty? <==> BlankRoot(t.h, RootHash(t.h, t.tree))
    ensures !t.tree.Empty? ==> Unique.Known(t.h, encs, t.tree) && RootHash(t.h, t.tree) == HashOf(t.h, t.tree)
  {
    hide Rep, Stores, Bounded, Norm, Encs, Distinct, HashOf, ZeroHash, EmptyRoot;
    CoversTree(t, encs);
    if !t.tree.Empty? {
      NotEmptyRoot(t.h, encs + {[0x80]}, t.tree);
      Unique.KnownEnc(t.h, encs, t.tree);
      HashIs(t.h, t.tree);
    }
  }

  /**
   After any deeds, a commit of the trie and one of the database that succeeds: a trie
   opened in a new database on the same disk has everything.
   */
  method Survives(h: Hasher, disk: D.Disk, writes: nat, deeds: seq<Deed>, ghost encs: set<seq<byte>>)
    returns (ok: bool, r: Result<T.Trie, TrieError>)
    requires Distinct(h, encs + {[0x80]}) && D.Complete(disk) && Right(h, D.NewNodes(), disk, encs)
    requires DeedsOk(h, encs, deeds) && Covers(h, encs, Edited(map[], deeds))
    ensures ok ==> r.Ok? && fresh(r.value) && r.value.Valid() && r.value.content == Edited(map[], deeds)
  {
    hide *;
    DistinctPart(h, encs, encs + {[0x80]});
    var t, d := Live(h, disk, writes, deeds, encs);
    JoinedIs(t, d, encs);
    RightZero(h, d.nodes, d.disk, encs);
    RootFacts(t, encs);
    ghost var tree, m := t.tree, t.content;
    var hash := CommitThrough(t, d, encs);
    JoinedIs(t, d, encs);
    if BlankRoot(h, hash) {
      ok := d.Commit(hash);
      r := EmptyAgain(h, d.disk, hash, tree, m);
    } else {
      RootThere(h, View(d.nodes, d.disk), tree);
      ok, r := Restart(d, h, hash, tree, m, encs);
    }
  }

  /** A trie without entries needs nothing on disk. */
  method EmptyAgain(h: Hasher, disk: D.Disk, root: Hash, ghost t: Tree, ghost m: Map)
    returns (r: Result<T.Trie, TrieError>)
    requires BlankRoot(h, root) && t.Empty? && Sound(t, false) && Stores(t, m)
    ensures r.Ok? && fresh(r.value) && r.value.Valid() && r.value.content == m
  {
    hide *;
    var e := new D.Database(disk, 0, x => 0);
    r := T.Trie.New(h, View(e.nodes, e.disk), true, root, t, m);
  }

  lemma RightZero(h: Hasher, nodes: D.Nodes, disk: D.Disk, encs: set<seq<byte>>)
    requires Right(h, nodes, disk, encs)
    ensures forall e :: e in encs ==> h(e) != ZeroHash()
  {
    hide ZeroHash;
  }

  lemma RootThere(h: Hasher, db: Store, t: Tree)
    requires Rep(Env(h, db, true), HashNode(HashOf(h, t)), t, true)
    ensures HashOf(h, t) in db
  {
    hide HashOf, Below;
  }
}
