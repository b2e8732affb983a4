/**
 The node database between tries and disk (trie/database.go): nodes are cached with
 references to their children; Commit writes a node with all cached nodes below it
 and drops them from the cache. Looking up a node is not affected, whether or not
 writing fails. The flush list and the size counters are not modelled.
 */
module TrieDatabase {
  import opened Bytes
  import opened TrieNode
  import SyncBook

  datatype Cached = Cached(blob: seq<byte>, parents: nat, children: map<Hash, nat>)

  type Nodes = map<Hash, Cached>
  type Disk = map<seq<byte>, seq<byte>>

  /** ethdb.IdealBatchSize */
  const IDEAL_BATCH_SIZE := 100 * 1024

  /** References go down in rank, so they form no cycle. */
  ghost predicate Acyclic(rank: Hash -> nat, nodes: Nodes)
  {
    forall x, c :: x in nodes && c in nodes[x].children ==> rank(c) < rank(x)
  }

  /** The cached nodes that can be reached from x. */
  ghost function Reach(rank: Hash -> nat, nodes: Nodes, x: Hash): set<Hash>
    requires Acyclic(rank, nodes)
    decreases rank(x)
  {
    if x !in nodes then {}
    else {x} + set c, y | c in nodes[x].children && c in nodes && y in Reach(rank, nodes, c) :: y
  }

  lemma ReachCached(rank: Hash -> nat, nodes: Nodes, x: Hash)
    requires Acyclic(rank, nodes)
    ensures Reach(rank, nodes, x) <= nodes.Keys
    decreases rank(x)
  {
    if x in nodes {
      forall c | c in nodes[x].children && c in nodes
        ensures Reach(rank, nodes, c) <= nodes.Keys
      {
        ReachCached(rank, nodes, c);
      }
    }
  }

  /** Everything reached from the children of x. */
  ghost function ReachAll(rank: Hash -> nat, nodes: Nodes, cs: set<Hash>): set<Hash>
    requires Acyclic(rank, nodes)
  {
    set c, y | c in cs && y in Reach(rank, nodes, c) :: y
  }

  lemma ReachMore(rank: Hash -> nat, nodes: Nodes, cs: set<Hash>, c: Hash)
    requires Acyclic(rank, nodes)
    ensures ReachAll(rank, nodes, cs + {c}) == ReachAll(rank, nodes, cs) + Reach(rank, nodes, c)
  {
  }

  /** Nodes that contain what they reach. */
  ghost predicate DownClosed(nodes: Nodes, gone: set<Hash>)
  {
    forall x, c :: x in gone && x in nodes && c in nodes[x].children && c in nodes ==> c in gone
  }

  lemma {:induction false} ReachDownClosed(rank: Hash -> nat, nodes: Nodes, x: Hash)
    requires Acyclic(rank, nodes)
    ensures DownClosed(nodes, Reach(rank, nodes, x))
    decreases rank(x)
  {
    if x in nodes {
      forall c | c in nodes[x].children && c in nodes
        ensures DownClosed(nodes, Reach(rank, nodes, c)) && c in Reach(rank, nodes, c)
      {
        ReachDownClosed(rank, nodes, c);
      }
    }
  }

  /** Without the nodes gone already, the same nodes are reached, apart from those. */
  lemma {:induction false} ReachMinus(rank: Hash -> nat, nodes: Nodes, gone: set<Hash>, x: Hash)
    requires Acyclic(rank, nodes) && Acyclic(rank, nodes - gone) && DownClosed(nodes, gone)
    ensures Reach(rank, nodes - gone, x) == Reach(rank, nodes, x) - gone
    decreases rank(x)
  {
    var left := nodes - gone;
    if x in gone {
      InsideGone(rank, nodes, gone, x);
    } else if x in nodes {
      forall c | c in nodes[x].children && c in nodes ensures Reach(rank, left, c) == Reach(rank, nodes, c) - gone {
        ReachMinus(rank, nodes, gone, c);
      }
      forall y ensures y in Reach(rank, left, x) <==> y in Reach(rank, nodes, x) - gone {
        if y in Reach(rank, nodes, x) && y !in gone && y != x {
          var c :| c in nodes[x].children && c in nodes && y in Reach(rank, nodes, c);
          assert y in Reach(rank, left, c);
          assert c in left;
        }
      }
    }
  }

  lemma {:induction false} InsideGone(rank: Hash -> nat, nodes: Nodes, gone: set<Hash>, x: Hash)
    requires Acyclic(rank, nodes) && DownClosed(nodes, gone) && x in gone
    ensures Reach(rank, nodes, x) <= gone
    decreases rank(x)
  {
    if x in nodes {
      forall c | c in nodes[x].children && c in nodes
        ensures Reach(rank, nodes, c) <= gone
      {
        InsideGone(rank, nodes, gone, c);
      }
    }
  }

  // ----- lookups -----

  /** What Node finds; the disk is only asked if the node is not cached. */
  function Find(nodes: Nodes, disk: Disk, x: Hash): Option<seq<byte>>
  {
    if x in nodes then Some(nodes[x].blob) else if x in disk then Some(disk[x]) else None
  }

  /** Writing changed nothing for hashes other than to store cached nodes; other keys have another length. */
  ghost predicate Adds(nodes: Nodes, d: Disk, e: Disk)
  {
    && (forall k :: k in d ==> k in e)
    && (forall k :: k in e && |k| == 32 ==> (k in d && e[k] == d[k]) || (k in nodes && e[k] == nodes[k].blob))
  }

  lemma AddsTwice(nodes: Nodes, d: Disk, e: Disk, f: Disk)
    requires Adds(nodes, d, e) && Adds(nodes, e, f)
    ensures Adds(nodes, d, f)
  {
  }

  ghost predicate BatchFits(nodes: Nodes, batch: Disk)
  {
    forall k :: k in batch && |k| == 32 ==> k in nodes && batch[k] == nodes[k].blob
  }

  /** The node is on disk, or will be once the batch is written. */
  ghost predicate Saved(nodes: Nodes, disk: Disk, batch: Disk, x: Hash)
  {
    x in nodes ==> (x in batch && batch[x] == nodes[x].blob) || (x in disk && x !in batch && disk[x] == nodes[x].blob)
  }

  ghost predicate AllSaved(nodes: Nodes, disk: Disk, batch: Disk, xs: set<Hash>)
  {
    forall x :: x in xs ==> Saved(nodes, disk, batch, x)
  }

  /** Whatever was saved still is. */
  ghost predicate StaySaved(nodes: Nodes, disk: Disk, batch: Disk, disk': Disk, batch': Disk)
  {
    forall x :: Saved(nodes, disk, batch, x) ==> Saved(nodes, disk', batch', x)
  }

  lemma StaySelf(nodes: Nodes, disk: Disk, batch: Disk)
    ensures StaySaved(nodes, disk, batch, disk, batch)
  {
  }

  lemma StayTwice(nodes: Nodes, d: Disk, b: Disk, e: Disk, c: Disk, f: Disk, g: Disk)
    requires StaySaved(nodes, d, b, e, c) && StaySaved(nodes, e, c, f, g)
    ensures StaySaved(nodes, d, b, f, g)
  {
    hide Saved;
  }

  lemma StayAll(nodes: Nodes, disk: Disk, batch: Disk, disk': Disk, batch': Disk, xs: set<Hash>)
    requires StaySaved(nodes, disk, batch, disk', batch') && AllSaved(nodes, disk, batch, xs)
    ensures AllSaved(nodes, disk', batch', xs)
  {
    hide Saved;
  }

  lemma AllSavedMore(nodes: Nodes, disk: Disk, batch: Disk, xs: set<Hash>, ys: set<Hash>)
    requires AllSaved(nodes, disk, batch, xs) && AllSaved(nodes, disk, batch, ys)
    ensures AllSaved(nodes, disk, batch, xs + ys)
  {
    hide Saved;
  }

  lemma SavedOne(nodes: Nodes, disk: Disk, batch: Disk, x: Hash)
    requires Saved(nodes, disk, batch, x)
    ensures AllSaved(nodes, disk, batch, {x})
  {
    hide Saved;
  }

  lemma NoneSaved(nodes: Nodes, disk: Disk, batch: Disk)
    ensures AllSaved(nodes, disk, batch, {})
  {
  }

  // ----- children -----

  /** The hashes that a stored node refers to. */
  ghost function KidsIn(x: Hash, blob: seq<byte>): set<Hash>
  {
    match DecodeNode(Some(x), blob, 0)
    case Err(_) => {}
    case Ok(n) => SyncBook.KidHashes(n)
  }

  /** Every node on disk has its children there. */
  ghost predicate Complete(d: Disk) { forall x :: x in d && |x| == 32 ==> KidsIn(x, d[x]) <= d.Keys }

  /** A child is on disk, or cached and kept by its parent. */
  ghost predicate Keeps(nodes: Nodes, d: Disk, x: Hash, k: Hash)
    requires x in nodes
  {
    k in d || (k in nodes && k in nodes[x].children)
  }

  ghost predicate Keeping(nodes: Nodes, d: Disk)
  {
    forall x, k :: x in nodes && k in KidsIn(x, nodes[x].blob) ==> Keeps(nodes, d, x, k)
  }

  /** The disk is complete, also with the batch written. */
  ghost predicate Sure(nodes: Nodes, d: Disk, batch: Disk)
  {
    Complete(d) && Complete(d + batch) && Keeping(nodes, d)
  }

  lemma SureStart(nodes: Nodes, d: Disk)
    requires Complete(d) && Keeping(nodes, d)
    ensures Sure(nodes, d, map[])
  {
    hide Complete, Keeping;
    assert d + map[] == d;
  }

  lemma SurePut(nodes: Nodes, d: Disk, batch: Disk, key: seq<byte>, value: seq<byte>)
    requires Sure(nodes, d, batch) && (|key| == 32 ==> KidsIn(key, value) <= d.Keys + batch.Keys)
    ensures Sure(nodes, d, batch[key := value])
  {
    hide KidsIn, Keeping;
    var e, f := d + batch, d + batch[key := value];
    assert f == e[key := value];
    forall x | x in f && |x| == 32 ensures KidsIn(x, f[x]) <= f.Keys {
      if x != key { assert x in e && f[x] == e[x]; }
    }
  }

  lemma SureFlushed(nodes: Nodes, d: Disk, batch: Disk)
    requires Sure(nodes, d, batch)
    ensures Sure(nodes, d + batch, map[])
  {
    hide KidsIn, Complete;
    assert d + batch + map[] == d + batch;
  }

  /** When the children of a node are saved, so is all that the node refers to. */
  lemma KidsSaved(rank: Hash -> nat, nodes: Nodes, d: Disk, batch: Disk, x: Hash)
    requires Acyclic(rank, nodes) && x in nodes && Sure(nodes, d, batch)
    requires AllSaved(nodes, d, batch, ReachAll(rank, nodes, nodes[x].children.Keys))
    ensures KidsIn(x, nodes[x].blob) <= d.Keys + batch.Keys
  {
    hide KidsIn, Complete, Acyclic, Reach;
    forall k | k in KidsIn(x, nodes[x].blob) ensures k in d.Keys + batch.Keys {
      assert Keeps(nodes, d, x, k);
      if k !in d {
        ReachParts(rank, nodes, k);
        assert k in ReachAll(rank, nodes, nodes[x].children.Keys);
        assert Saved(nodes, d, batch, k);
      }
    }
  }

  lemma KeepingDropped(nodes: Nodes, d: Disk, gone: set<Hash>)
    requires Keeping(nodes, d) && forall x :: x in gone ==> x in d
    ensures Keeping(nodes - gone, d)
  {
    hide KidsIn;
    var left := nodes - gone;
    forall x, k | x in left && k in KidsIn(x, left[x].blob) ensures Keeps(left, d, x, k) {
      assert Keeps(nodes, d, x, k);
    }
  }

  /** The same nodes, with at least the children they kept before. */
  ghost predicate KeepsMore(nodes: Nodes, more: Nodes)
  {
    && more.Keys == nodes.Keys
    && forall x :: x in nodes ==> more[x].blob == nodes[x].blob && nodes[x].children.Keys <= more[x].children.Keys
  }

  lemma KeepsSame(nodes: Nodes)
    ensures KeepsMore(nodes, nodes)
  {
  }

  lemma KeepsTwice(a: Nodes, b: Nodes, c: Nodes)
    requires KeepsMore(a, b) && KeepsMore(b, c)
    ensures KeepsMore(a, c)
  {
  }

  lemma KeepsKeys(a: Nodes, b: Nodes, x: Hash)
    requires KeepsMore(a, b) && x in a
    ensures b.Keys == a.Keys && a[x].children.Keys <= b[x].children.Keys
  {
  }

  /** The node is cached, and no other bytes have changed. */
  ghost predicate Filed(nodes: Nodes, more: Nodes, x: Hash, blob: seq<byte>)
  {
    && more.Keys == nodes.Keys + {x}
    && forall y :: y in more ==> more[y].blob == if y in nodes then nodes[y].blob else blob
  }

  lemma FiledMore(was: Nodes, filled: Nodes, nodes: Nodes, x: Hash, blob: seq<byte>)
    requires filled == if x in was then was else was[x := Cached(blob, 0, map[])]
    requires KeepsMore(filled, nodes)
    ensures Filed(was, nodes, x, blob)
  {
  }

  /** The node refers to the given hashes only, and all of them are known already. */
  ghost predicate KidsThere(nodes: Nodes, d: Disk, x: Hash, blob: seq<byte>, kids: seq<Hash>)
  {
    forall k :: k in KidsIn(x, blob) ==> k in kids && (k in nodes || k in d)
  }

  /** A node whose children are stored before it keeps them. */
  lemma StoreKeeps(was: Nodes, filled: Nodes, nodes: Nodes, d: Disk, x: Hash, blob: seq<byte>, kids: seq<Hash>)
    requires Keeping(was, d) && KidsThere(was, d, x, blob, kids)
    requires filled == if x in was then was else was[x := Cached(blob, 0, map[])]
    requires KeepsMore(filled, nodes) && x in nodes &&
             forall j :: 0 <= j < |kids| && kids[j] in nodes ==> kids[j] in nodes[x].children
    ensures Keeping(nodes, d)
  {
    hide KidsIn;
    forall y, k | y in nodes && k in KidsIn(y, nodes[y].blob) ensures Keeps(nodes, d, y, k) {
      if y in was {
        assert Keeps(was, d, y, k);
      } else {
        assert k in kids;
      }
    }
  }

  /** secureKey */
  function SecureKey(x: Hash): seq<byte>
    requires |x| == 32
    ensures |SecureKey(x)| == 43
  {
    [0x73, 0x65, 0x63, 0x75, 0x72, 0x65, 0x2d, 0x6b, 0x65, 0x79, 0x2d] + x
  }

  /** The cache of a new database has an entry for the zero hash. */
  function NewNodes(): Nodes { map[ZeroHash() := Cached([], 0, map[])] }

  class Database {
    ghost const rank: Hash -> nat
    var disk: Disk
    var nodes: Nodes
    var preimages: map<Hash, seq<byte>>
    /** The batch being filled, its size, and how many more writes will succeed. */
    var batch: Disk
    var size: nat
    var writes: nat

    ghost predicate Valid()
      reads this
    {
      && Acyclic(rank, nodes) && (forall x :: x in nodes ==> |x| == 32) && (forall x :: x in preimages ==> |x| == 32)
    }

    /** NewDatabase */
    constructor (disk: Disk, writes: nat, ghost rank: Hash -> nat)
      ensures Valid() && this.disk == disk && nodes == NewNodes() && this.rank == rank
      ensures forall y :: Node(y) == if y == ZeroHash() then Some([]) else if y in disk then Some(disk[y]) else None
      ensures Keeping(nodes, disk)
    {
      this.rank, this.disk, nodes, preimages := rank, disk, NewNodes(), map[];
      batch, size, this.writes := map[], 0, writes;
      NothingIn(ZeroHash());
    }

    /** Node */
    function Node(x: Hash): Option<seq<byte>>
      reads this
    {
      Find(nodes, disk, x)
    }

    /** insert: a node that is not yet cached. */
    method Insert(x: Hash, blob: seq<byte>)
      requires Valid() && |x| == 32
      modifies this`nodes
      ensures Valid() && nodes == if x in old(nodes) then old(nodes) else old(nodes)[x := Cached(blob, 0, map[])]
      ensures forall y :: Node(y) == if y == x && x !in old(nodes) then Some(blob) else old(Node(y))
    {
      if x in nodes { return; }
      nodes := nodes[x := Cached(blob, 0, map[])];
    }

    /** reference: the parent keeps the child. */
    method Reference(child: Hash, parent: Hash)
      requires Valid() && parent in nodes && rank(child) < rank(parent)
      modifies this`nodes
      ensures Valid() && (forall y :: Node(y) == old(Node(y))) && KeepsMore(old(nodes), nodes)
      ensures parent in nodes && (child in nodes ==> child in nodes[parent].children)
    {
      if child !in nodes { return; }
      if child in nodes[parent].children && parent != ZeroHash() { return; }
      var n := nodes[child];
      nodes := nodes[child := n.(parents := n.parents + 1)];
      var p := nodes[parent];
      var count := if child in p.children then p.children[child] + 1 else 1;
      nodes := nodes[parent := p.(children := p.children[child := count])];
    }

    /** The database part of store (trie/hasher.go): a node is inserted and keeps its children. */
    method Store(x: Hash, blob: seq<byte>, kids: seq<Hash>)
      requires Valid() && |x| == 32 && forall k :: k in kids ==> rank(k) < rank(x)
      modifies this`nodes
      ensures Valid() && forall y :: Node(y) == if y == x && x !in old(nodes) then Some(blob) else old(Node(y))
      ensures Filed(old(nodes), nodes, x, blob)
      ensures old(Keeping(nodes, disk)) && KidsThere(old(nodes), disk, x, blob, kids) ==> Keeping(nodes, disk)
    {
      hide Acyclic, Keeping, KeepsMore, KidsThere, Find, Filed;
      ghost var was := nodes;
      Insert(x, blob);
      ghost var filled := nodes;
      KeepsSame(nodes);
      for i := 0 to |kids|
        invariant Valid() && KeepsMore(filled, nodes) && x in nodes && (forall y :: Node(y) == Find(filled, disk, y))
        invariant forall j :: 0 <= j < i && kids[j] in nodes ==> kids[j] in nodes[x].children
      {
        ghost var mid := nodes;
        Reference(kids[i], x);
        KeepsTwice(filled, mid, nodes);
        KeepsKeys(mid, nodes, x);
      }
      FiledMore(was, filled, nodes, x, blob);
      if Keeping(was, disk) && KidsThere(was, disk, x, blob, kids) {
        StoreKeeps(was, filled, nodes, disk, x, blob, kids);
      }
    }

    /** batch.Write and Reset; fails when no more writes succeed. */
    method Flush() returns (ok: bool)
      requires BatchFits(nodes, batch)
      modifies this`disk, this`batch, this`size, this`writes
      ensures Adds(nodes, old(disk), disk) && BatchFits(nodes, batch)
      ensures ok ==>
                batch == map[] && StaySaved(nodes, old(disk), old(batch), disk, batch)
      ensures !ok ==> disk == old(disk) && batch == old(batch)
      ensures old(Sure(nodes, disk, batch)) ==> Sure(nodes, disk, batch)
    {
      hide Sure;
      if writes == 0 { return false; }
      writes := writes - 1;
      if Sure(nodes, disk, batch) { SureFlushed(nodes, disk, batch); }
      disk := disk + batch;
      batch, size := map[], 0;
      return true;
    }

    /** batch.Put, and a write when the batch is large. */
    method Put(key: seq<byte>, value: seq<byte>, limit: nat) returns (ok: bool)
      requires BatchFits(nodes, batch) && (|key| == 32 || key in nodes ==> key in nodes && value == nodes[key].blob)
      modifies this`disk, this`batch, this`size, this`writes
      ensures Adds(nodes, old(disk), disk) && BatchFits(nodes, batch)
      ensures ok ==> StaySaved(nodes, old(disk), old(batch), disk, batch)
      ensures ok && |key| == 32 ==> Saved(nodes, disk, batch, key)
      ensures old(Sure(nodes, disk, batch)) && (|key| == 32 ==> KidsIn(key, value) <= old(disk.Keys + batch.Keys)) ==>
                Sure(nodes, disk, batch)
    {
      hide Adds, Sure, KidsIn;
      if Sure(nodes, disk, batch) && (|key| == 32 ==> KidsIn(key, value) <= disk.Keys + batch.Keys) {
        SurePut(nodes, disk, batch, key, value);
      }
      batch, size := batch[key := value], size + |value|;
      NoWrite(nodes, disk);
      if size >= limit {
        ok := Flush();
      } else {
        ok := true;
      }
    }

    /** commit: the children first, then the node itself. */
    method CommitNode(x: Hash) returns (ok: bool)
      requires Valid() && BatchFits(nodes, batch)
      modifies this`disk, this`batch, this`size, this`writes
      ensures Adds(nodes, old(disk), disk) && BatchFits(nodes, batch)
      ensures ok ==> AllSaved(nodes, disk, batch, Reach(rank, nodes, x))
      ensures ok ==> StaySaved(nodes, old(disk), old(batch), disk, batch)
      ensures old(Sure(nodes, disk, batch)) ==> Sure(nodes, disk, batch)
      decreases rank(x)
    {
      hide Adds, Saved, BatchFits, Reach, ReachAll, Acyclic, Sure, KidsIn, StaySaved, AllSaved;
      ReachParts(rank, nodes, x);
      NoWrite(nodes, disk);
      StaySelf(nodes, disk, batch);
      NoneSaved(nodes, disk, batch);
      if x !in nodes { return true; }
      var left := nodes[x].children.Keys;
      ghost var done: set<Hash> := {};
      NothingReached(rank, nodes);
      while left != {}
        invariant left + done == nodes[x].children.Keys
        invariant Adds(nodes, old(disk), disk) && BatchFits(nodes, batch)
        invariant AllSaved(nodes, disk, batch, ReachAll(rank, nodes, done))
        invariant old(Sure(nodes, disk, batch)) ==> Sure(nodes, disk, batch)
        invariant StaySaved(nodes, old(disk), old(batch), disk, batch)
        decreases |left|
      {
        var c :| c in left;
        ghost var mid, filled := disk, batch;
        ChildRank(rank, nodes, x, c);
        if c in nodes {
          ok := CommitNode(c);
          AddsTwice(nodes, old(disk), mid, disk);
          if !ok { return; }
          StayTwice(nodes, old(disk), old(batch), mid, filled, disk, batch);
          StayAll(nodes, mid, filled, disk, batch, ReachAll(rank, nodes, done));
        } else {
          NotReached(rank, nodes, c);
          NoneSaved(nodes, disk, batch);
        }
        AllSavedMore(nodes, disk, batch, ReachAll(rank, nodes, done), Reach(rank, nodes, c));
        ReachMore(rank, nodes, done, c);
        left, done := left - {c}, done + {c};
      }
      assert done == nodes[x].children.Keys;
      ghost var mid, filled := disk, batch;
      if Sure(nodes, disk, batch) { KidsSaved(rank, nodes, disk, batch, x); }
      ok := Put(x, nodes[x].blob, IDEAL_BATCH_SIZE);
      AddsTwice(nodes, old(disk), mid, disk);
      if ok {
        StayTwice(nodes, old(disk), old(batch), mid, filled, disk, batch);
        StayAll(nodes, mid, filled, disk, batch, ReachAll(rank, nodes, done));
        SavedOne(nodes, disk, batch, x);
        AllSavedMore(nodes, disk, batch, {x}, ReachAll(rank, nodes, done));
      }
    }

    /** uncache: the node and all cached nodes below it are dropped. */
    method Uncache(x: Hash)
      requires Valid()
      modifies this`nodes
      ensures Valid() && nodes == old(nodes) - Reach(rank, old(nodes), x)
      decreases rank(x)
    {
      hide Reach, Acyclic, ReachAll;
      ReachParts(rank, nodes, x);
      ghost var was := nodes;
      if x !in nodes { return; }
      var left := nodes[x].children.Keys;
      ghost var done: set<Hash> := {};
      NothingReached(rank, nodes);
      assert nodes - {} == nodes;
      while left != {}
        invariant left + done == was[x].children.Keys && Valid()
        invariant nodes == was - ReachAll(rank, was, done)
        decreases |left|
      {
        var c :| c in left;
        ChildRank(rank, was, x, c);
        ghost var gone := ReachAll(rank, was, done);
        DropChild(rank, was, done, c);
        if c in nodes {
          Uncache(c);
        } else {
          NotReached(rank, nodes, c);
        }
        assert nodes == was - gone - (Reach(rank, was, c) - gone) == was - (gone + Reach(rank, was, c));
        left, done := left - {c}, done + {c};
      }
      nodes := nodes - {x};
      FewerAcyclic(rank, was, Reach(rank, was, x));
      assert nodes == was - Reach(rank, was, x);
    }

    /**
     Commit: a node and all below it move from the cache to the disk. No lookup is
     affected, whether it succeeds or a write fails on the way, and every node on disk
     still has its children there.
     */
    method Commit(x: Hash) returns (ok: bool)
      requires Valid()
      modifies this
      ensures Valid() && Adds(old(nodes), old(disk), disk) && forall y :: |y| == 32 ==> Node(y) == old(Node(y))
      ensures ok ==> nodes == old(nodes) - Reach(rank, old(nodes), x)
      ensures !ok ==> nodes == old(nodes)
      ensures ok ==> forall y :: y in Reach(rank, old(nodes), x) ==> y in disk && Some(disk[y]) == old(Node(y))
      ensures old(Complete(disk) && Keeping(nodes, disk)) ==> Complete(disk) && Keeping(nodes, disk)
    {
      hide Adds, Saved, BatchFits, Reach, Acyclic, AllSaved, Complete, Keeping, Sure;
      batch, size := map[], 0;
      if Complete(disk) && Keeping(nodes, disk) { SureStart(nodes, disk); }
      NoBatch(nodes);
      NoWrite(nodes, disk);
      ReachCached(rank, nodes, x);
      ok := CommitPreimages();
      if ok {
        ghost var mid := disk;
        ok := CommitNode(x);
        AddsTwice(nodes, old(disk), mid, disk);
      }
      if ok {
        ghost var mid, filled := disk, batch;
        ok := Flush();
        AddsTwice(nodes, old(disk), mid, disk);
        if ok { AllWritten(nodes, mid, filled, disk, batch, Reach(rank, nodes, x)); }
      }
      FoundSame(nodes, old(disk), disk);
      SureIs(nodes, disk, batch);
      if ok {
        preimages := map[];
        ghost var was := nodes;
        Uncache(x);
        Dropped(was, disk, Reach(rank, was, x));
        if Keeping(was, disk) { KeepingDropped(was, disk, Reach(rank, was, x)); }
      }
    }

    /** The loop over the preimages in Commit. */
    method CommitPreimages() returns (ok: bool)
      requires Valid() && BatchFits(nodes, batch)
      modifies this`disk, this`batch, this`size, this`writes
      ensures Adds(nodes, old(disk), disk) && BatchFits(nodes, batch)
      ensures old(Sure(nodes, disk, batch)) ==> Sure(nodes, disk, batch)
    {
      hide Adds, BatchFits, Acyclic, Sure;
      NoWrite(nodes, disk);
      var left := preimages.Keys;
      while left != {}
        invariant left <= preimages.Keys && Adds(nodes, old(disk), disk) && BatchFits(nodes, batch)
        invariant old(Sure(nodes, disk, batch)) ==> Sure(nodes, disk, batch)
        decreases |left|
      {
        var x :| x in left;
        ghost var mid := disk;
        ok := Put(SecureKey(x), preimages[x], IDEAL_BATCH_SIZE + 1);
        AddsTwice(nodes, old(disk), mid, disk);
        if !ok { return; }
        left := left - {x};
      }
      return true;
    }
  }

  lemma SureIs(nodes: Nodes, d: Disk, batch: Disk)
    ensures Sure(nodes, d, batch) ==> Complete(d) && Keeping(nodes, d)
  {
    hide Complete, Keeping;
  }

  /** Nothing decodes from no bytes. */
  lemma NothingIn(x: Hash)
    ensures KidsIn(x, []) == {}
  {
  }

  lemma NoWrite(nodes: Nodes, d: Disk)
    ensures Adds(nodes, d, d)
  {
  }

  lemma ReachParts(rank: Hash -> nat, nodes: Nodes, x: Hash)
    requires Acyclic(rank, nodes)
    ensures Reach(rank, nodes, x) == if x in nodes then {x} + ReachAll(rank, nodes, nodes[x].children.Keys) else {}
  {
  }

  lemma NothingReached(rank: Hash -> nat, nodes: Nodes)
    requires Acyclic(rank, nodes)
    ensures ReachAll(rank, nodes, {}) == {}
  {
  }

  lemma NotReached(rank: Hash -> nat, nodes: Nodes, c: Hash)
    requires Acyclic(rank, nodes) && c !in nodes
    ensures Reach(rank, nodes, c) == {}
  {
  }

  lemma ChildRank(rank: Hash -> nat, nodes: Nodes, x: Hash, c: Hash)
    requires Acyclic(rank, nodes) && x in nodes && c in nodes[x].children
    ensures c in nodes ==> rank(c) < rank(x)
  {
  }

  /** After some children have been dropped, dropping another one drops what only it reaches. */
  lemma DropChild(rank: Hash -> nat, nodes: Nodes, done: set<Hash>, c: Hash)
    requires Acyclic(rank, nodes)
    ensures var gone := ReachAll(rank, nodes, done);
            && Acyclic(rank, nodes - gone) && Reach(rank, nodes - gone, c) == Reach(rank, nodes, c) - gone
            && ReachAll(rank, nodes, done + {c}) == gone + Reach(rank, nodes, c)
  {
    hide Reach;
    var gone := ReachAll(rank, nodes, done);
    FewerAcyclic(rank, nodes, gone);
    forall d | d in done ensures DownClosed(nodes, Reach(rank, nodes, d)) { ReachDownClosed(rank, nodes, d); }
    ReachMinus(rank, nodes, gone, c);
    ReachMore(rank, nodes, done, c);
  }

  lemma FewerAcyclic(rank: Hash -> nat, nodes: Nodes, gone: set<Hash>)
    requires Acyclic(rank, nodes)
    ensures Acyclic(rank, nodes - gone)
  {
  }

  lemma NoBatch(nodes: Nodes)
    ensures BatchFits(nodes, map[])
  {
  }

  lemma AllWritten(nodes: Nodes, mid: Disk, filled: Disk, disk: Disk, batch: Disk, xs: set<Hash>)
    requires AllSaved(nodes, mid, filled, xs) && batch == map[] && xs <= nodes.Keys
    requires StaySaved(nodes, mid, filled, disk, batch)
    ensures forall x :: x in xs ==> x in disk && disk[x] == nodes[x].blob
  {
  }

  lemma FoundSame(nodes: Nodes, d: Disk, e: Disk)
    requires Adds(nodes, d, e)
    ensures forall y :: |y| == 32 ==> Find(nodes, e, y) == Find(nodes, d, y)
  {
  }

  /** Dropping nodes that are on disk. */
  lemma Dropped(nodes: Nodes, disk: Disk, gone: set<Hash>)
    requires forall x :: x in gone ==> x in nodes && x in disk && disk[x] == nodes[x].blob
    ensures forall y :: Find(nodes - gone, disk, y) == Find(nodes, disk, y)
  {
  }
}
