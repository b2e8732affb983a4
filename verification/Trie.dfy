/**
 The trie object (trie/trie.go): a root node that is replaced on every change, a
 node database behind it and cache generations. It is shown to be a finite map
 whose root hash depends on the map alone, and that survives a commit.
 */
module Trie {
  import opened Bytes
  import opened HexPrefix
  import opened TrieTree
  import opened TrieNode
  import opened TrieRep
  import opened TrieHasher
  import Unique = TrieUnique
  import Ops = TrieOps

  type Map = map<seq<byte>, seq<byte>>

  /** What a map has under a key; nothing is the empty value. */
  function ValueAt(m: Map, key: seq<byte>): seq<byte> { if key in m then m[key] else [] }

  /** The map after an update; an empty value deletes. */
  function Put(m: Map, key: seq<byte>, value: seq<byte>): Map
  {
    if value == [] then m - {key} else m[key := value]
  }

  /** The tree stores exactly the map, each key under its hex path. */
  ghost predicate Stores(t: Tree, m: Map)
  {
    && (forall key :: Lookup(t, KeyHex(key)) == ValueAt(m, key))
    && (forall p :: Lookup(t, p) != [] ==> exists key :: p == KeyHex(key))
    && (forall key :: key in m ==> m[key] != [])
  }

  lemma StoresAt(t: Tree, m: Map, key: seq<byte>)
    requires Stores(t, m)
    ensures Lookup(t, KeyHex(key)) == ValueAt(m, key)
  {
  }

  lemma StoresPut(t: Tree, u: Tree, m: Map, key: seq<byte>, value: seq<byte>)
    requires Stores(t, m) && Updates(t, u, KeyHex(key), value)
    ensures Stores(u, Put(m, key, value))
  {
    hide KeyHex, Lookup;
    forall k ensures Lookup(u, KeyHex(k)) == ValueAt(Put(m, key, value), k) {
      if KeyHex(k) == KeyHex(key) { KeyHexInjective(k, key); }
    }
  }

  lemma KeyHexInjective(a: seq<byte>, b: seq<byte>)
    requires KeyHex(a) == KeyHex(b)
    ensures a == b
  {
    HexKeyOfKeyHex(a);
    HexKeyOfKeyHex(b);
  }

  /** Only one normal tree stores a given map. */
  lemma StoresCanonical(t: Tree, u: Tree, m: Map)
    requires Slot(t, false) && Slot(u, false) && Stores(t, m) && Stores(u, m)
    ensures t == u
  {
    hide KeyHex, Lookup, Slot;
    forall p ensures Lookup(t, p) == Lookup(u, p) {
      if exists key :: p == KeyHex(key) {
        var key :| p == KeyHex(key);
      }
    }
    Canonical(t, u, false);
  }

  lemma StoresNothing()
    ensures Stores(Tree.Empty, map[]) && Sound(Tree.Empty, false)
  {
  }

  lemma BoundedPut(t: Tree, u: Tree, key: seq<byte>, v: seq<byte>)
    requires Bounded(t) && Updates(t, u, key, v) && |key| < LIMIT && |v| < LIMIT
    ensures Bounded(u)
  {
    hide Lookup;
  }

  /** emptyRoot: the hash of the empty RLP string. */
  function EmptyRoot(h: Hasher): Hash { h([0x80]) }

  /** The hashes that New takes for an empty trie. */
  predicate BlankRoot(h: Hasher, root: Hash) { root == ZeroHash() || root == EmptyRoot(h) }

  /** The root hash computed from scratch. */
  function RootHash(h: Hasher, t: Tree): Hash { if t.Empty? then EmptyRoot(h) else HashOf(h, t) }

  /** Keys and values that fit a 64-bit machine. */
  predicate Fits(key: seq<byte>, value: seq<byte>) { 2 * |key| + 1 < LIMIT && |value| < LIMIT }

  /** The root node represents a normal tree that stores the map. */
  ghost predicate Intact(env: Env, root: Node, t: Tree, m: Map)
  {
    Rep(env, root, t, true) && Sound(t, false) && Stores(t, m)
  }

  class Trie {
    const h: Hasher
    /** Whether the database is known to have every node the trie refers to. */
    const strict: bool
    /** What the database has under which hash. */
    var db: Store
    var root: Node
    var cachegen: nat
    var cachelimit: nat
    ghost var tree: Tree
    ghost var content: Map

    function Ambient(): Env
      reads this
    {
      Env(h, db, strict)
    }

    ghost predicate Valid()
      reads this
    {
      Intact(Ambient(), root, tree, content)
    }

    /** An empty trie on a database. */
    constructor (h: Hasher, db: Store, strict: bool)
      ensures Valid() && tree == Tree.Empty && content == map[] && this.h == h && this.db == db && this.strict == strict
    {
      this.h, this.strict, this.db, root := h, strict, db, Nil;
      cachegen, cachelimit, tree, content := 0, 0, Tree.Empty, map[];
      StoresNothing();
    }

    /**
     New: the trie behind a root hash. If the database has the nodes of a tree with
     that hash, the new trie stores what that tree stores.
     */
    static method New(h: Hasher, db: Store, strict: bool, root: Hash, ghost t: Tree, ghost m: Map)
      returns (r: Result<Trie, TrieError>)
      requires Sound(t, false) && Stores(t, m) && (t.Empty? <==> BlankRoot(h, root))
      requires !t.Empty? ==> Rep(Env(h, db, strict), HashNode(root), t, true)
      ensures r.Ok? ==> fresh(r.value) && r.value.Valid() && r.value.content == m && r.value.tree == t
      ensures r.Ok? ==> r.value.h == h && r.value.db == db && r.value.strict == strict
      ensures r.Err? ==> r == Err(MissingNode(root)) && root !in db && !strict
    {
      hide Rep, Sound, Stores, ResolveHash, NodeOf, BlankRoot, Intact;
      var trie := new Trie(h, db, strict);
      if !BlankRoot(h, root) {
        var node := ResolveHash(trie.Ambient(), root, 0);
        IntactLoad(trie.Ambient(), root, t, m);
        if node.Err? { return Err(node.error); }
        trie.root := node.value;
        trie.tree, trie.content := t, m;
      } else {
        NothingStored(m);
      }
      return Ok(trie);
    }

    /** SetCacheLimit */
    method SetCacheLimit(l: nat)
      requires Valid()
      modifies this`cachelimit
      ensures Valid() && cachelimit == l
    {
      cachelimit := l;
    }

    /** TryGet returns the value of the map; it may load nodes, and changes nothing else. */
    method TryGet(key: seq<byte>) returns (r: Result<seq<byte>, TrieError>)
      requires Valid()
      modifies this`root
      ensures Valid()
      ensures r.Ok? ==> r.value == ValueAt(content, key)
      ensures r.Err? ==> Ops.OnlyMissing(Ambient(), r.error) && root == old(root)
    {
      hide Intact, Ops.Ready, Ops.TryGet, Ops.GetOk, Ops.OnlyMissing, KeyHex, ValueAt;
      var k := KeyHex(key);
      IntactReady(Ambient(), root, tree, content, k);
      var got := Ops.TryGet(Ambient(), root, k, cachegen, tree, true);
      IntactGet(Ambient(), root, tree, content, got, key);
      if got.Err? { return Err(got.error); }
      if got.value.resolved { root := got.value.node; }
      return Ok(got.value.value);
    }

    /** TryUpdate puts a value into the map, or deletes the key if the value is empty. */
    method TryUpdate(key: seq<byte>, value: seq<byte>) returns (r: Result<bool, TrieError>)
      requires Valid() && Fits(key, value)
      modifies this`root, this`tree, this`content
      ensures Valid()
      ensures r.Ok? ==> content == Put(old(content), key, value)
      ensures r.Ok? ==> (r.value <==> ValueAt(old(content), key) != value)
      ensures r.Err? ==> Ops.OnlyMissing(Ambient(), r.error) && root == old(root) && content == old(content)
    {
      hide Intact, Ops.Ready, Ops.Insert, Ops.Delete, Ops.ChangeOk, Ops.OnlyMissing, KeyHex, ValueAt, Put, Fits;
      var k := KeyHex(key);
      IntactReady(Ambient(), root, tree, content, k);
      var c;
      if |value| != 0 {
        c := Ops.Insert(Ambient(), root, k, value, cachegen, tree, true);
      } else {
        c := Ops.Delete(Ambient(), root, k, cachegen, tree, true);
      }
      ghost var u := IntactChange(Ambient(), root, tree, content, c, key, value);
      if c.Err? { return Err(c.error); }
      root := c.value.node;
      tree, content := u, Put(content, key, value);
      return Ok(c.value.dirty);
    }

    /** TryDelete removes a key. */
    method TryDelete(key: seq<byte>) returns (r: Result<bool, TrieError>)
      requires Valid() && Fits(key, [])
      modifies this`root, this`tree, this`content
      ensures Valid()
      ensures r.Ok? ==> content == old(content) - {key}
      ensures r.Ok? ==> (r.value <==> key in old(content))
      ensures r.Err? ==> Ops.OnlyMissing(Ambient(), r.error) && root == old(root) && content == old(content)
    {
      hide Intact, Ops.Ready, Ops.Delete, Ops.ChangeOk, Ops.OnlyMissing, KeyHex, ValueAt, Put, Fits;
      var k := KeyHex(key);
      IntactReady(Ambient(), root, tree, content, k);
      var c := Ops.Delete(Ambient(), root, k, cachegen, tree, true);
      ghost var u := IntactChange(Ambient(), root, tree, content, c, key, []);
      IntactKey(Ambient(), root, tree, content, key);
      if c.Err? { return Err(c.error); }
      root := c.value.node;
      tree, content := u, content - {key};
      return Ok(c.value.dirty);
    }

    /** Hash: the root hash from scratch, whatever is cached; caches are filled. */
    method Hash() returns (hash: Hash)
      requires Valid()
      modifies this`root
      ensures Valid() && hash == RootHash(h, tree)
    {
      hide Intact, HashRec, EmptyRoot, RootHash;
      IntactRoot(Ambient(), root, tree, content);
      if root.Nil? { return EmptyRoot(h); }
      var c := Hashing(cachegen, cachelimit, false);
      IntactHash(Ambient(), root, tree, content, c);
      var r := HashRec(h, db, root, c, true);
      root := r.cached;
      return r.hashed.hash;
    }

    /** Commit: also writes what is dirty, so that the trie can be loaded from the database. */
    method Commit() returns (hash: Hash)
      requires Valid() && Pure(h, db, Encs(h, tree))
      modifies this`root, this`db, this`cachegen
      ensures Valid() && hash == RootHash(h, tree)
      ensures Grows(h, Encs(h, tree), old(db), db)
      ensures !tree.Empty? ==> Rep(Ambient(), HashNode(hash), tree, true)
      ensures if old(root).Nil? then db == old(db)
              else db == HashRec(h, old(db), old(root), Hashing(old(cachegen), cachelimit, true), true).db
    {
      hide Intact, HashRec, EmptyRoot, RootHash, Rep, Grows, Pure, Encs;
      IntactRoot(Ambient(), root, tree, content);
      if root.Nil? {
        hash := EmptyRoot(h);
        GrowsNot(h, Encs(h, tree), db);
      } else {
        var c := Hashing(cachegen, cachelimit, true);
        IntactHash(Ambient(), root, tree, content, c);
        var r := HashRec(h, db, root, c, true);
        root, db := r.cached, r.db;
        hash := r.hashed.hash;
      }
      cachegen := (cachegen + 1) % 0x1_0000;
    }
  }

  lemma NothingStored(m: Map)
    requires Stores(Tree.Empty, m)
    ensures m == map[]
  {
    forall key ensures key !in m {
      if key in m { StoresAt(Tree.Empty, m, key); }
    }
  }

  lemma IntactLoad(env: Env, root: Hash, t: Tree, m: Map)
    requires Rep(env, HashNode(root), t, true) && Sound(t, false) && Stores(t, m)
    ensures var r := ResolveHash(env, root, 0);
            if r.Ok? then Intact(env, r.value, t, m) else r == Err(MissingNode(root)) && root !in env.db && !env.strict
  {
    hide Rep, Sound, Stores, ResolveHash, NodeOf;
    Resolves(env, root, t, true, 0);
  }

  lemma IntactKey(env: Env, root: Node, t: Tree, m: Map, key: seq<byte>)
    requires Intact(env, root, t, m)
    ensures ValueAt(m, key) != [] <==> key in m
    ensures Put(m, key, []) == m - {key}
  {
    hide Rep, Sound, Lookup, KeyHex;
  }

  lemma IntactReady(env: Env, root: Node, t: Tree, m: Map, k: seq<byte>)
    requires Intact(env, root, t, m) && HexPath(k)
    ensures Ops.Ready(env, root, t, true, k)
  {
    hide Rep, Slot, Bounded, Stores;
  }

  lemma IntactGet(env: Env, root: Node, t: Tree, m: Map, got: Result<Ops.Got, TrieError>, key: seq<byte>)
    requires Intact(env, root, t, m) && Ops.GetOk(env, got, t, true, KeyHex(key))
    ensures got.Err? ==> Ops.OnlyMissing(env, got.error)
    ensures got.Ok? ==> got.value.value == ValueAt(m, key) && Intact(env, got.value.node, t, m)
  {
    hide Rep, Sound, Stores, KeyHex, Lookup, ValueAt, Ops.OnlyMissing;
    StoresAt(t, m, key);
  }

  lemma IntactChange(env: Env, root: Node, t: Tree, m: Map, c: Result<Ops.Change, TrieError>, key: seq<byte>,
                     value: seq<byte>) returns (u: Tree)
    requires Intact(env, root, t, m) && Ops.ChangeOk(env, c, t, true, KeyHex(key), value) && Fits(key, value)
    ensures c.Err? ==> Ops.OnlyMissing(env, c.error)
    ensures c.Ok? ==> Intact(env, c.value.node, u, Put(m, key, value)) && (c.value.dirty <==> ValueAt(m, key) != value)
  {
    hide Rep, Slot, Bounded, Stores, KeyHex, Lookup, ValueAt, Put, Ops.OnlyMissing, Updates;
    u := t;
    if c.Ok? {
      u :| Ops.Leads(env, c.value, t, u, true, KeyHex(key), value);
      StoresAt(t, m, key);
      StoresPut(t, u, m, key, value);
      BoundedPut(t, u, KeyHex(key), value);
      assert KeyHex(key) != [];
    }
  }

  lemma IntactRoot(env: Env, root: Node, t: Tree, m: Map)
    requires Intact(env, root, t, m)
    ensures root.Nil? <==> t.Empty?
    ensures t.Empty? ==> RootHash(env.h, t) == EmptyRoot(env.h)
  {
    hide Stores, Bounded, Stored, FlagsOk, EmptyRoot, HashOf;
  }

  lemma GrowsNot(h: Hasher, encs: set<seq<byte>>, db: Store)
    ensures Grows(h, encs, db, db)
  {
  }

  lemma IntactHash(env: Env, root: Node, t: Tree, m: Map, c: Hashing)
    requires Intact(env, root, t, m) && !t.Empty? && (c.write ==> Pure(env.h, env.db, Encs(env.h, t)))
    ensures var r := HashRec(env.h, env.db, root, c, true);
            && r.hashed == HashNode(RootHash(env.h, t))
            && Intact(env.(db := r.db), r.cached, t, m)
            && Grows(env.h, Encs(env.h, t), env.db, r.db)
            && (!c.write ==> r.db == env.db)
            && (c.write ==> Rep(env.(db := r.db), r.hashed, t, true))
  {
    hide Rep, HashRec, Pure, Encs, Grows, Bounded, Stores, Norm, NodeRlp, RefItem, Held, Below, HashOf;
    HashCorrect(env, root, c, t, true, Encs(env.h, t));
    NormInner(t);
    if c.write {
      RepByHash(env.(db := HashRec(env.h, env.db, root, c, true).db), t);
    }
  }

  lemma RepByHash(env: Env, t: Tree)
    requires Inner(t) && Kept(env, t, true)
    ensures Rep(env, HashNode(HashOf(env.h, t)), t, true)
  {
    hide Held, Below, HashOf;
  }

  // ----- whole runs -----

  /** Two tries with the same content are the same tree, and have the same root hash. */
  lemma SameContent(t: Trie, u: Trie)
    requires t.Valid() && u.Valid() && t.content == u.content
    ensures t.tree == u.tree
    ensures t.h == u.h ==> RootHash(t.h, t.tree) == RootHash(u.h, u.tree)
  {
    hide Rep, Stores, Slot, Bounded, RootHash;
    StoresCanonical(t.tree, u.tree, t.content);
  }

  /**
   The converse: without collisions, tries with the same root hash have the same
   content. The empty RLP string is among the byte strings hashed.
   */
  lemma SameRoot(t: Trie, u: Trie, encs: set<seq<byte>>)
    requires t.Valid() && u.Valid() && t.h == u.h && RootHash(t.h, t.tree) == RootHash(u.h, u.tree)
    requires Distinct(t.h, encs) && [0x80] in encs && Encs(t.h, t.tree) <= encs && Encs(u.h, u.tree) <= encs
    ensures t.tree == u.tree && t.content == u.content
  {
    hide Rep, Stores, Norm, Bounded, Encs, Distinct, HashOf;
    if t.tree.Empty? {
      if !u.tree.Empty? { NotEmptyRoot(u.h, encs, u.tree); }
    } else if u.tree.Empty? {
      NotEmptyRoot(t.h, encs, t.tree);
    } else {
      Unique.SameHash(t.h, encs, t.tree, u.tree);
    }
    SameStores(t.tree, t.content, u.content);
  }

  lemma NotEmptyRoot(h: Hasher, encs: set<seq<byte>>, t: Tree)
    requires Norm(t) && Distinct(h, encs) && [0x80] in encs && Encs(h, t) <= encs
    ensures HashOf(h, t) != EmptyRoot(h)
  {
    hide Distinct;
    assert NodeItem(h, t).List?;
    assert Enc(h, t) != [0x80];
    if HashOf(h, t) == EmptyRoot(h) { DistinctAt(h, encs, Enc(h, t), [0x80]); }
  }

  lemma SameStores(t: Tree, m: Map, n: Map)
    requires Stores(t, m) && Stores(t, n)
    ensures m == n
  {
    hide KeyHex, Lookup;
    forall key ensures ValueAt(m, key) == ValueAt(n, key) { StoresAt(t, m, key); StoresAt(t, n, key); }
    forall key | key in m ensures key in n && m[key] == n[key] { assert ValueAt(m, key) == ValueAt(n, key); }
    forall key | key in n ensures key in m { assert ValueAt(m, key) == ValueAt(n, key); }
  }

  /** What a caller may do with a trie. */
  datatype Op = Update(key: seq<byte>, value: seq<byte>) | Delete(key: seq<byte>) | Get(key: seq<byte>)
              | HashNow | CommitNow | Limit(generations: nat)

  function Apply(m: Map, op: Op): Map
  {
    match op
    case Update(key, value) => Put(m, key, value)
    case Delete(key) => m - {key}
    case _ => m
  }

  function ApplyAll(m: Map, ops: seq<Op>): Map
  {
    if ops == [] then m else Apply(ApplyAll(m, ops[..|ops| - 1]), ops[|ops| - 1])
  }

  predicate OpFits(op: Op)
  {
    match op
    case Update(key, value) => Fits(key, value)
    case Delete(key) => Fits(key, [])
    case _ => true
  }

  /** The node encodings of the tree for a map are among those given. */
  ghost predicate Covers(h: Hasher, encs: set<seq<byte>>, m: Map)
  {
    forall t :: Slot(t, false) && Stores(t, m) ==> Encs(h, t) <= encs
  }

  /** Keys and values fit, and no two node encodings that are committed share a hash. */
  ghost predicate RunOk(h: Hasher, encs: set<seq<byte>>, ops: seq<Op>)
  {
    forall i :: 0 <= i < |ops| ==>
      OpFits(ops[i]) && (ops[i].CommitNow? ==> Distinct(h, encs) && Covers(h, encs, ApplyAll(map[], ops[..i])))
  }

  /** Any operation but a commit leaves the database alone. */
  method Edit(t: Trie, op: Op)
    requires t.Valid() && t.strict && OpFits(op) && !op.CommitNow?
    modifies t
    ensures t.Valid() && t.content == Apply(old(t.content), op) && t.db == old(t.db)
  {
    hide Intact, Fits, Put, Ops.OnlyMissing, RootHash, Rep, ValueAt;
    match op
    case Update(key, value) =>
      var r := t.TryUpdate(key, value);
      NoneMissing(t.Ambient(), r);
    case Delete(key) =>
      var r := t.TryDelete(key);
      NoneMissing(t.Ambient(), r);
    case Get(key) =>
      var r := t.TryGet(key);
    case HashNow =>
      var x := t.Hash();
    case Limit(l) =>
      t.SetCacheLimit(l);
  }

  method Do(t: Trie, op: Op, ghost encs: set<seq<byte>>)
    requires t.Valid() && t.strict && OpFits(op) && Grows(t.h, encs, map[], t.db)
    requires op.CommitNow? ==> Distinct(t.h, encs) && Covers(t.h, encs, t.content)
    modifies t
    ensures t.Valid() && t.content == Apply(old(t.content), op) && Grows(t.h, encs, map[], t.db)
  {
    hide Intact, OpFits, Covers, Encs, Grows, Distinct, RootHash, Rep, Pure;
    if op.CommitNow? {
      IntactPure(t.Ambient(), t.root, t.tree, t.content, encs);
      ghost var db := t.db;
      var x := t.Commit();
      GrowsMore(t.h, Encs(t.h, t.tree), encs, db, t.db);
    } else {
      Edit(t, op);
    }
  }

  lemma NoneMissing(env: Env, r: Result<bool, TrieError>)
    requires env.strict && (r.Err? ==> Ops.OnlyMissing(env, r.error))
    ensures r.Ok?
  {
  }

  lemma IntactPure(env: Env, root: Node, t: Tree, m: Map, encs: set<seq<byte>>)
    requires Intact(env, root, t, m) && Distinct(env.h, encs) && Covers(env.h, encs, m) &&
             Grows(env.h, encs, map[], env.db)
    ensures Pure(env.h, env.db, Encs(env.h, t)) && Encs(env.h, t) <= encs
  {
    hide Rep, Slot, Bounded, Stores, Encs, Distinct, Grows;
    DistinctPart(env.h, Encs(env.h, t), encs);
    GrownPure(env.h, env.db, encs);
  }

  lemma GrownPure(h: Hasher, db: Store, encs: set<seq<byte>>)
    requires Distinct(h, encs) && Grows(h, encs, map[], db)
    ensures Pure(h, db, encs)
  {
    hide Distinct;
    forall e | e in encs && h(e) in db ensures db[h(e)] == e { DistinctAt(h, encs, e, db[h(e)]); }
  }

  lemma DistinctPart(h: Hasher, some: set<seq<byte>>, encs: set<seq<byte>>)
    requires Distinct(h, encs) && some <= encs
    ensures Distinct(h, some)
  {
  }

  lemma GrowsMore(h: Hasher, some: set<seq<byte>>, encs: set<seq<byte>>, a: Store, b: Store)
    requires some <= encs && Grows(h, encs, map[], a) && Grows(h, some, a, b)
    ensures Grows(h, encs, map[], b)
  {
  }

  /** Any sequence of operations on a new trie: no error, and the map is the expected one. */
  method Replay(h: Hasher, ops: seq<Op>, ghost encs: set<seq<byte>>) returns (t: Trie)
    requires RunOk(h, encs, ops)
    ensures fresh(t) && t.Valid() && t.h == h && t.content == ApplyAll(map[], ops)
  {
    hide Intact, OpFits, Covers, Grows, Distinct, Apply;
    t := new Trie(h, map[], true);
    GrowsNot(h, encs, map[]);
    for i := 0 to |ops|
      invariant fresh(t) && t.Valid() && t.h == h && t.strict && t.content == ApplyAll(map[], ops[..i])
      invariant Grows(h, encs, map[], t.db)
    {
      assert ops[..i + 1][..i] == ops[..i];
      Do(t, ops[i], encs);
    }
    assert ops[..|ops|] == ops;
  }

  /**
   History independence: two runs of any operations that end in the same map end
   with the same root hash.
   */
  method TwoHistories(h: Hasher, a: seq<Op>, b: seq<Op>, ghost encsA: set<seq<byte>>, ghost encsB: set<seq<byte>>)
    returns (x: Hash, y: Hash)
    requires RunOk(h, encsA, a) && RunOk(h, encsB, b)
    ensures ApplyAll(map[], a) == ApplyAll(map[], b) ==> x == y
  {
    hide Intact, RunOk, RootHash, ApplyAll;
    var t := Replay(h, a, encsA);
    var u := Replay(h, b, encsB);
    if ApplyAll(map[], a) == ApplyAll(map[], b) { SameContent(t, u); }
    x := t.Hash();
    y := u.Hash();
  }

  /** Persistence: what New finds behind the hash returned by Commit is the same map. */
  method Reopen(t: Trie) returns (u: Trie, hash: Hash)
    requires t.Valid() && t.strict && Pure(t.h, t.db, Encs(t.h, t.tree))
    requires BlankRoot(t.h, RootHash(t.h, t.tree)) ==> t.tree.Empty?
    modifies t
    ensures fresh(u) && u.Valid() && t.Valid() && t.content == old(t.content)
    ensures u.content == t.content && u.tree == t.tree && hash == RootHash(u.h, u.tree)
  {
    hide Intact, RootHash, Rep, Grows, Pure, Encs, BlankRoot, Stores, Sound;
    IntactParts(t.Ambient(), t.root, t.tree, t.content);
    hash := t.Commit();
    var r := Trie.New(t.h, t.db, t.strict, hash, t.tree, t.content);
    u := r.value;
  }

  lemma IntactParts(env: Env, root: Node, t: Tree, m: Map)
    requires Intact(env, root, t, m)
    ensures Sound(t, false) && Stores(t, m) && (t.Empty? ==> BlankRoot(env.h, RootHash(env.h, t)))
  {
    hide Rep, Sound, Stores, EmptyRoot;
  }
}
