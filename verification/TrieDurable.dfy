/**
 Tries on top of the node database (trie/trie.go, trie/database.go): a trie opened after
 Commit has the same content as before, also from the disk alone.
 */
module TrieDurable {
  import opened Bytes
  import opened TrieTree
  import opened TrieNode
  import opened TrieRep
  import opened TrieHasher
  import opened TrieDatabase
  import opened T = Trie
  import Unique = TrieUnique
  import RlpRaw
  import SyncBook
  import SyncComplete

  /** What a trie sees; entries under other keys than hashes are never asked for. */
  function View(nodes: Nodes, disk: Disk): Store
  {
    map y | y in nodes.Keys + disk.Keys && |y| == 32 :: Find(nodes, disk, y).value
  }

  lemma SameView(nodes: Nodes, disk: Disk, left: Nodes, after: Disk)
    requires forall y :: |y| == 32 ==> Find(left, after, y) == Find(nodes, disk, y)
    ensures View(left, after) == View(nodes, disk)
  {
    forall y ensures y in View(left, after) <==> y in View(nodes, disk) {
      if |y| == 32 { assert Find(left, after, y) == Find(nodes, disk, y); }
    }
  }

  /** New after Commit: whether or not a write fails, the trie has the content that it had before. */
  method Reopen(d: Database, h: Hasher, strict: bool, root: Hash, ghost t: Tree, ghost m: Map)
    returns (ok: bool, r: Result<T.Trie, TrieError>)
    requires d.Valid() && Sound(t, false) && Stores(t, m) && (t.Empty? <==> BlankRoot(h, root))
    requires !t.Empty? ==> Rep(Env(h, View(d.nodes, d.disk), strict), HashNode(root), t, true)
    modifies d
    ensures d.Valid() && View(d.nodes, d.disk) == old(View(d.nodes, d.disk))
    ensures r.Ok? ==> fresh(r.value) && r.value.Valid() && r.value.content == m && r.value.db == View(d.nodes, d.disk)
    ensures r.Err? ==> r == Err(MissingNode(root)) && root !in old(View(d.nodes, d.disk)) && !strict
  {
    hide *;
    ghost var nodes, disk := d.nodes, d.disk;
    NodeIs(d);
    ok := d.Commit(root);
    NodeIs(d);
    SameView(nodes, disk, d.nodes, d.disk);
    r := T.Trie.New(h, View(d.nodes, d.disk), strict, root, t, m);
  }

  lemma NodeIs(d: Database)
    ensures forall y :: d.Node(y) == Find(d.nodes, d.disk, y)
  {
    hide Find;
  }

  // ----- from the disk alone -----

  /** Cache and disk have nothing else under the hashes of the given nodes. */
  ghost predicate Right(h: Hasher, nodes: Nodes, disk: Disk, encs: set<seq<byte>>)
  {
    forall e :: e in encs ==>
      h(e) != ZeroHash() && (h(e) in nodes ==> nodes[h(e)].blob == e) && (h(e) in disk ==> disk[h(e)] == e)
  }

  lemma {:induction false} RefHash(buf: seq<byte>, gen: nat)
    requires DecodeRef(buf, gen).Ok? && DecodeRef(buf, gen).value.node.HashNode?
    ensures |DecodeRef(buf, gen).value.node.hash| == 32
  {
    hide DecodeNode;
    if DecodeNode(None, buf, gen).Ok? { SyncBook.DecodedKind(None, buf, gen); }
  }

  lemma {:induction false} RefsHash(elems: seq<byte>, n: nat, gen: nat)
    requires DecodeRefs(elems, n, gen).Ok?
    ensures var ns := DecodeRefs(elems, n, gen).value.nodes;
            forall j :: 0 <= j < |ns| && ns[j].HashNode? ==> |ns[j].hash| == 32
    decreases n
  {
    hide DecodeRef;
    if n > 0 {
      if DecodeRef(elems, gen).value.node.HashNode? { RefHash(elems, gen); }
      RefsHash(DecodeRef(elems, gen).value.rest, n - 1, gen);
    }
  }

  /** References are 32 bytes long. */
  lemma KidSize(x: Hash, blob: seq<byte>, k: Hash)
    requires k in KidsIn(x, blob)
    ensures |k| == 32
  {
    hide DecodeNode, DecodeRef, DecodeRefs;
    var n := DecodeNode(Some(x), blob, 0).value;
    SyncBook.DecodedKind(Some(x), blob, 0);
    var i := SyncBook.WhereHash(SyncBook.ChildNodes(n), k);
    if n.Short? { ShortHash(Some(x), blob); } else { FullHash(Some(x), blob, i); }
  }

  lemma ShortHash(hash: Option<Hash>, blob: seq<byte>)
    requires DecodeNode(hash, blob, 0).Ok? && DecodeNode(hash, blob, 0).value.Short?
    ensures var v := DecodeNode(hash, blob, 0).value.val;
            v.HashNode? ==> |v.hash| == 32
  {
    hide DecodeRef, DecodeRefs;
    if DecodeNode(hash, blob, 0).value.val.HashNode? {
      RefHash(RlpRaw.SplitString(RlpRaw.SplitList(blob).value.content).value.rest, 0);
    }
  }

  lemma FullHash(hash: Option<Hash>, blob: seq<byte>, i: nat)
    requires DecodeNode(hash, blob, 0).Ok? && DecodeNode(hash, blob, 0).value.Full?
    requires i < |DecodeNode(hash, blob, 0).value.children|
    ensures var v := DecodeNode(hash, blob, 0).value.children[i];
            v.HashNode? ==> |v.hash| == 32
  {
    hide DecodeRef, DecodeRefs;
    RefsHash(RlpRaw.SplitList(blob).value.content, 16, 0);
  }

  lemma CompleteClosed(h: Hasher, cb: SyncBook.Callback, disk: Disk)
    requires Complete(disk)
    ensures SyncBook.Closed(h, cb, map[], View(NewNodes(), disk))
  {
    hide DecodeNode, KidsIn;
    var db := View(NewNodes(), disk);
    forall x | x in db ensures SyncBook.Needed(h, cb, map[], x, db[x]) <= db.Keys {
      KidsNeeded(h, cb, x, db[x]);
      if x == ZeroHash() {
        NothingIn(x);
      } else {
        forall k | k in KidsIn(x, db[x]) ensures k in db { KidSize(x, db[x], k); }
      }
    }
  }

  lemma KidsNeeded(h: Hasher, cb: SyncBook.Callback, x: Hash, blob: seq<byte>)
    ensures SyncBook.Needed(h, cb, map[], x, blob) == KidsIn(x, blob)
  {
    hide DecodeNode;
  }

  /** A complete disk with the root of a trie has the whole trie. */
  lemma Durable(h: Hasher, disk: Disk, t: Tree, encs: set<seq<byte>>)
    requires Complete(disk) && Unique.Known(h, encs, t) && HashOf(h, t) in disk && Right(h, map[], disk, encs)
    ensures TrieRep.Stored(Env(h, View(NewNodes(), disk), true), t)
  {
    hide Complete, Unique.Known, SyncBook.Closed, HashOf, TrieRep.Stored, SyncComplete.Whole;
    var cb := (v: seq<byte>) => SyncBook.Answer([], true);
    var db := View(NewNodes(), disk);
    CompleteClosed(h, cb, disk);
    Unique.KnownEnc(h, encs, t);
    HashIs(h, t);
    RightHonest(h, disk, encs);
    SyncComplete.ClosedStores(h, cb, map[], db, t, encs);
  }

  lemma RightHonest(h: Hasher, disk: Disk, encs: set<seq<byte>>)
    requires Right(h, map[], disk, encs)
    ensures SyncComplete.Honest(h, map[], View(NewNodes(), disk), encs)
  {
  }

  /** Commit writes nothing wrong. */
  lemma StaysRight(h: Hasher, nodes: Nodes, disk: Disk, after: Disk, encs: set<seq<byte>>)
    requires Right(h, nodes, disk, encs) && Adds(nodes, disk, after)
    ensures Right(h, map[], after, encs)
  {
    hide Adds;
    forall e | e in encs && h(e) in after ensures after[h(e)] == e { AddsAt(nodes, disk, after, h(e)); }
  }

  lemma AddsAt(nodes: Nodes, disk: Disk, after: Disk, x: Hash)
    requires Adds(nodes, disk, after) && x in after && |x| == 32
    ensures (x in disk && after[x] == disk[x]) || (x in nodes && after[x] == nodes[x].blob)
  {
  }

  /** The root is on disk once it has been committed. */
  lemma RootWritten(rank: Hash -> nat, nodes: Nodes, disk: Disk, after: Disk, root: Hash)
    requires Acyclic(rank, nodes) && root in View(nodes, disk) && Adds(nodes, disk, after)
    requires forall y :: y in Reach(rank, nodes, root) ==> y in after
    ensures root in after
  {
    hide Acyclic, Reach;
    ReachParts(rank, nodes, root);
  }

  /**
   After a Commit that succeeds, a new database on the same disk has the whole trie, and
   New finds its content there. What is asked of the cache is what store sees to: every
   node keeps its children.
   */
  method Restart(d: Database, h: Hasher, root: Hash, ghost t: Tree, ghost m: Map, ghost encs: set<seq<byte>>)
    returns (ok: bool, r: Result<T.Trie, TrieError>)
    requires d.Valid() && Complete(d.disk) && Keeping(d.nodes, d.disk) && Right(h, d.nodes, d.disk, encs)
    requires Unique.Known(h, encs, t) && Stores(t, m) && root == HashOf(h, t) && !BlankRoot(h, root)
    requires root in View(d.nodes, d.disk)
    modifies d
    ensures d.Valid() && Complete(d.disk) && Keeping(d.nodes, d.disk)
    ensures ok ==>
              r.Ok? && fresh(r.value) && r.value.Valid() && r.value.content == m && r.value.db == View(NewNodes(), d.disk)
  {
    hide *;
    ghost var nodes, disk := d.nodes, d.disk;
    ValidAcyclic(d);
    ok := d.Commit(root);
    StaysRight(h, nodes, disk, d.disk, encs);
    if ok {
      RootWritten(d.rank, nodes, disk, d.disk, root);
      Durable(h, d.disk, t, encs);
      var e := new Database(d.disk, d.writes, d.rank);
      StoredRep(h, encs, View(e.nodes, e.disk), t);
      r := T.Trie.New(h, View(e.nodes, e.disk), true, root, t, m);
    } else {
      r := Err(MissingNode(root));
    }
  }

  lemma ValidAcyclic(d: Database)
    requires d.Valid()
    ensures Acyclic(d.rank, d.nodes)
  {
    hide Acyclic;
  }

  lemma StoredRep(h: Hasher, encs: set<seq<byte>>, db: Store, t: Tree)
    requires Unique.Known(h, encs, t) && TrieRep.Stored(Env(h, db, true), t)
    ensures Sound(t, false) && !t.Empty? && Rep(Env(h, db, true), HashNode(HashOf(h, t)), t, true)
  {
    hide TrieRep.Stored, HashOf;
    Unique.KnownInner(h, encs, t);
  }
}
