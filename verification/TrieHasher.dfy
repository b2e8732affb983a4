/**
 Hashing and committing (trie/hasher.go). Cached hashes are reused, clean nodes may
 be unloaded, and on a commit every node of 32 bytes or more goes to the database.
 */
module TrieHasher {
  import opened Bytes
  import opened RlpSpec
  import opened HexPrefix
  import opened TrieTree
  import opened TrieNode
  import opened TrieRep

  type Store = map<Hash, seq<byte>>

  /** The hasher: generation and limit of the cache, and whether there is a database to write to. */
  datatype Hashing = Hashing(gen: nat, limit: nat, write: bool)

  datatype Hashed = Hashed(hashed: Node, cached: Node, db: Store)

  datatype HashedKids = HashedKids(hashed: seq<Node>, cached: seq<Node>, db: Store)

  /** canUnload; the generations are 16-bit numbers that wrap around. */
  predicate CanUnload(f: Flags, c: Hashing) { !f.dirty && (c.gen - f.gen) % 0x1_0000 >= c.limit }

  /** What rlp.Encode makes of a collapsed node. */
  function NodeRlp(n: Node): Item
  {
    match n
    case Nil => Item.List([])
    case Value(v) => Str(v)
    case HashNode(x) => Str(x)
    case Short(k, v, _) => Item.List([Str(k), NodeRlp(v)])
    case Full(ns, _) => Item.List(NodesRlp(ns))
  }

  function NodesRlp(ns: seq<Node>): (items: seq<Item>)
    ensures |items| == |ns|
    ensures forall i :: 0 <= i < |ns| ==> items[i] == NodeRlp(ns[i])
  {
    if ns == [] then [] else [NodeRlp(ns[0])] + NodesRlp(ns[1..])
  }

  predicate Cached(n: Node) { (n.Short? || n.Full?) && n.flags.hash.Some? }

  /** store: nodes below 32 bytes stay embedded, others are replaced by their hash. */
  function StoreNode(h: Hasher, db: Store, n: Node, c: Hashing, force: bool): (Node, Store)
  {
    if n.HashNode? || n.Nil? then (n, db)
    else
      var enc := Encode(NodeRlp(n));
      if |enc| < 32 && !force then (n, db)
      else
        var x := if Cached(n) then n.flags.hash.value else h(enc);
        (HashNode(x), if c.write && x !in db then db[x := enc] else db)
  }

  /** hash: the collapsed form of a node and the node with its cache brought up to date. */
  function HashRec(h: Hasher, db: Store, n: Node, c: Hashing, force: bool): Hashed
    decreases n, 1
  {
    if Cached(n) && (!c.write || !n.flags.dirty) then
      var x := HashNode(n.flags.hash.value);
      Hashed(x, if c.write && CanUnload(n.flags, c) then x else n, db)
    else
      var kids := HashChildren(h, db, n, c);
      var (hashed, db') := StoreNode(h, kids.db, kids.hashed, c, force);
      Hashed(hashed, SetHash(kids.cached, hashed, c), db')
  }

  function SetHash(n: Node, hashed: Node, c: Hashing): Node
  {
    if n.Short? || n.Full? then
      n.(flags := n.flags.(hash := if hashed.HashNode? then Some(hashed.hash) else None,
                           dirty := n.flags.dirty && !c.write))
    else n
  }

  /** hashChildren: the node with collapsed children, and with cached children. */
  function HashChildren(h: Hasher, db: Store, n: Node, c: Hashing): Hashed
    decreases n, 0
  {
    match n
    case Short(k, v, f) =>
      var compact := if IsHex(k) then Compact(k) else [];
      if v.Value? then Hashed(Short(compact, v, f), n, db)
      else
        var r := HashRec(h, db, v, c, false);
        Hashed(Short(compact, NilToValue(r.hashed), f), Short(k, r.cached, f), r.db)
    case Full(ns, f) =>
      if |ns| != 17 then Hashed(n, n, db)
      else
        var r := HashKids(h, db, ns[..16], c);
        Hashed(Full(r.hashed + [NilToValue(ns[16])], f), Full(r.cached + [ns[16]], f), r.db)
    case _ => Hashed(n, n, db)
  }

  function NilToValue(n: Node): Node { if n.Nil? then Value([]) else n }

  /** The loop over the sixteen children of a full node. */
  function HashKids(h: Hasher, db: Store, ns: seq<Node>, c: Hashing): (r: HashedKids)
    ensures |r.hashed| == |ns| && |r.cached| == |ns|
    decreases ns, 2
  {
    if ns == [] then HashedKids([], [], db)
    else
      var first := if ns[0].Nil? then Hashed(Value([]), Nil, db) else HashRec(h, db, ns[0], c, false);
      var rest := HashKids(h, first.db, ns[1..], c);
      HashedKids([first.hashed] + rest.hashed, [first.cached] + rest.cached, rest.db)
  }

  // ----- collision freedom, on the nodes at hand -----

  /** The encodings of all nodes of a tree. */
  ghost function Encs(h: Hasher, t: Tree): set<seq<byte>>
  {
    match t
    case Ext(_, c) => {Enc(h, t)} + Encs(h, c)
    case Branch(cs) => {Enc(h, t)} + EncsAll(h, cs)
    case _ => {}
  }

  ghost function EncsAll(h: Hasher, ts: seq<Tree>): (s: set<seq<byte>>)
    ensures forall i :: 0 <= i < |ts| ==> Encs(h, ts[i]) <= s
  {
    if ts == [] then {} else Encs(h, ts[0]) + EncsAll(h, ts[1..])
  }

  /** No two of these byte strings share a hash. */
  ghost predicate Distinct(h: Hasher, encs: set<seq<byte>>)
  {
    forall a, b :: a in encs && b in encs && h(a) == h(b) ==> a == b
  }

  /** In addition, the database has none of their hashes for other bytes. */
  ghost predicate Pure(h: Hasher, db: Store, encs: set<seq<byte>>)
  {
    Distinct(h, encs) && forall e :: e in encs && h(e) in db ==> db[h(e)] == e
  }

  lemma DistinctAt(h: Hasher, encs: set<seq<byte>>, a: seq<byte>, b: seq<byte>)
    requires Distinct(h, encs) && a in encs && b in encs && h(a) == h(b)
    ensures a == b
  {
  }

  /** db' keeps everything in db and adds some of the given byte strings under their hashes. */
  ghost predicate Grows(h: Hasher, encs: set<seq<byte>>, db: Store, db': Store)
  {
    && (forall x :: x in db ==> x in db' && db'[x] == db[x])
    && (forall x :: x in db' && x !in db ==> db'[x] in encs && h(db'[x]) == x)
  }

  /** Nothing has changed, or the database has grown without collisions. */
  ghost predicate Grown(h: Hasher, encs: set<seq<byte>>, db: Store, db': Store)
  {
    db' == db || (Pure(h, db, encs) && Grows(h, encs, db, db'))
  }

  /** Collisions only matter when something is written. */
  ghost predicate Safe(h: Hasher, db: Store, encs: set<seq<byte>>, c: Hashing) { c.write ==> Pure(h, db, encs) }

  lemma GrowsTwice(h: Hasher, encs: set<seq<byte>>, a: Store, b: Store, c: Store)
    requires Grows(h, encs, a, b) && Grows(h, encs, b, c)
    ensures Grows(h, encs, a, c)
  {
  }

  lemma PureGrows(h: Hasher, encs: set<seq<byte>>, a: Store, b: Store)
    requires Pure(h, a, encs) && Grows(h, encs, a, b)
    ensures Pure(h, b, encs)
  {
    hide Distinct;
    forall e | e in encs && h(e) in b ensures b[h(e)] == e {
      if h(e) !in a { DistinctAt(h, encs, b[h(e)], e); }
    }
  }

  lemma HeldGrows(env: Env, db': Store, t: Tree, encs: set<seq<byte>>)
    requires Held(env, t) && Grown(env.h, encs, env.db, db') && Enc(env.h, t) in encs
    ensures Held(env.(db := db'), t)
  {
    hide Enc;
    if db' != env.db { PureGrows(env.h, encs, env.db, db'); }
  }

  lemma {:induction false} BelowGrows(env: Env, db': Store, t: Tree, encs: set<seq<byte>>)
    requires Below(env, t) && Grown(env.h, encs, env.db, db') && Encs(env.h, t) <= encs
    ensures Below(env.(db := db'), t)
  {
    hide Grown, Held, Enc, Big;
    match t
    case Ext(_, c) =>
      if Inner(c) {
        InnerGrows(env, db', c, encs);
        BelowGrows(env, db', c, encs);
      }
    case Branch(cs) =>
      forall i | 0 <= i < |cs| && Inner(cs[i])
        ensures (Big(env.h, cs[i]) ==> Held(env.(db := db'), cs[i])) && Below(env.(db := db'), cs[i])
      {
        InnerGrows(env, db', cs[i], encs);
        BelowGrows(env, db', cs[i], encs);
      }
    case _ =>
  }

  lemma InnerGrows(env: Env, db': Store, t: Tree, encs: set<seq<byte>>)
    requires Inner(t) && Grown(env.h, encs, env.db, db') && Encs(env.h, t) <= encs
    ensures Held(env, t) ==> Held(env.(db := db'), t)
  {
    hide Enc, Grown;
    assert Enc(env.h, t) in encs;
    if Held(env, t) { HeldGrows(env, db', t, encs); }
  }

  /** A node goes on representing its tree when the database grows. */
  lemma {:induction false} RepGrows(env: Env, db': Store, n: Node, t: Tree, root: bool, encs: set<seq<byte>>)
    requires Rep(env, n, t, root) && Grown(env.h, encs, env.db, db') && Encs(env.h, t) <= encs
    ensures Rep(env.(db := db'), n, t, root)
    decreases t
  {
    hide Grown, Stored, Hashable, FlagsOk;
    if Inner(t) { StoredGrows(env, db', t, encs); }
    match n
    case Short(_, v, f) =>
      FlagsGrow(env, db', f, t, root);
      RepGrows(env, db', v, t.child, false, encs);
    case Full(ns, f) =>
      FlagsGrow(env, db', f, t, root);
      forall i | 0 <= i < |ns| ensures Rep(env.(db := db'), ns[i], t.children[i], false) {
        RepGrows(env, db', ns[i], t.children[i], false, encs);
      }
    case HashNode(_) => HashableSame(env, db', t, root);
    case _ =>
  }

  lemma FlagsGrow(env: Env, db': Store, f: Flags, t: Tree, root: bool)
    requires FlagsOk(env, f, t, root) && (Stored(env, t) ==> Stored(env.(db := db'), t))
    ensures FlagsOk(env.(db := db'), f, t, root)
  {
    hide Stored, Enc;
  }

  lemma HashableSame(env: Env, db': Store, t: Tree, root: bool)
    ensures Hashable(env.(db := db'), t, root) <==> Hashable(env, t, root)
  {
    hide Enc;
  }

  lemma StoredGrows(env: Env, db': Store, t: Tree, encs: set<seq<byte>>)
    requires Inner(t) && Grown(env.h, encs, env.db, db') && Encs(env.h, t) <= encs
    ensures Stored(env, t) ==> Stored(env.(db := db'), t)
  {
    hide Grown, Held, Below, Enc;
    if Stored(env, t) {
      InnerGrows(env, db', t, encs);
      BelowGrows(env, db', t, encs);
    }
  }

  // ----- hashing with caches agrees with hashing from scratch -----

  /** What lies below t, and t itself if it goes by hash, can be loaded again. */
  ghost predicate Kept(env: Env, t: Tree, root: bool)
  {
    Below(env, t) && (Hashable(env, t, root) ==> Held(env, t))
  }

  ghost predicate HashOk(env: Env, r: Hashed, t: Tree, root: bool, c: Hashing, encs: set<seq<byte>>)
  {
    var env' := env.(db := r.db);
    && Grows(env.h, encs, env.db, r.db) && (c.write || r.db == env.db)
    && Rep(env', r.cached, t, root)
    && NodeRlp(r.hashed) == (if root then Str(HashOf(env.h, t)) else RefItem(env.h, t))
    && (root ==> r.hashed == HashNode(HashOf(env.h, t)))
    && !r.hashed.Nil?
    && (c.write ==> Kept(env', t, root))
  }

  /** n represents t if its own flags are left aside. */
  ghost predicate RepBody(env: Env, n: Node, t: Tree)
  {
    match n
    case Short(k, v, _) => t.Ext? && t.key == k && Rep(env, v, t.child, false)
    case Full(ns, _) =>
      t.Branch? && |ns| == |t.children| && forall i :: 0 <= i < |ns| ==> Rep(env, ns[i], t.children[i], false)
    case _ => false
  }

  ghost predicate KidsOk(env: Env, r: Hashed, n: Node, t: Tree, c: Hashing, encs: set<seq<byte>>)
    requires n.Short? || n.Full?
  {
    var env' := env.(db := r.db);
    && Grows(env.h, encs, env.db, r.db) && (c.write || r.db == env.db)
    && RepBody(env', r.cached, t) && r.cached.flags == n.flags
    && (r.hashed.Short? || r.hashed.Full?) && r.hashed.flags == n.flags
    && NodeRlp(r.hashed) == NodeItem(env.h, t)
    && (c.write ==> Below(env', t))
  }

  /**
   Hashing a node with any mix of cached, dirty, clean and unloaded parts gives the
   hash computed from scratch, and keeps what the node represents.
   */
  lemma {:induction false} HashCorrect(env: Env, n: Node, c: Hashing, t: Tree, root: bool, encs: set<seq<byte>>)
    requires Rep(env, n, t, root) && Norm(t) && Safe(env.h, env.db, encs, c) && Encs(env.h, t) <= encs
    ensures HashOk(env, HashRec(env.h, env.db, n, c, root), t, root, c, encs)
    decreases t, 1
  {
    hide Norm, Safe, Encs, Grows, Below, NodeItem, HashOk, KidsOk;
    RepInner(env, n, t, root);
    if n.HashNode? || (Cached(n) && (!c.write || !n.flags.dirty)) {
      HashShortcut(env, n, c, t, root, encs);
    } else {
      ChildrenCorrect(env, n, c, t, root, encs);
      StoreCorrect(env, n, c, t, root, encs);
    }
  }

  lemma RepInner(env: Env, n: Node, t: Tree, root: bool)
    requires Rep(env, n, t, root) && Norm(t)
    ensures Inner(t) && !n.Nil? && !n.Value?
  {
  }

  lemma {:induction false} HashShortcut(env: Env, n: Node, c: Hashing, t: Tree, root: bool, encs: set<seq<byte>>)
    requires Rep(env, n, t, root) && Inner(t)
    requires n.HashNode? || (Cached(n) && (!c.write || !n.flags.dirty))
    ensures HashOk(env, HashRec(env.h, env.db, n, c, root), t, root, c, encs)
  {
    hide Encs, Below, Held, Enc, Norm, NodeItem;
  }

  /** Putting a node with processed children into the database. */
  lemma StoreCorrect(env: Env, n: Node, c: Hashing, t: Tree, root: bool, encs: set<seq<byte>>)
    requires n.Short? || n.Full?
    requires Inner(t) && FlagsOk(env, n.flags, t, root) && !(Cached(n) && (!c.write || !n.flags.dirty))
    requires Safe(env.h, env.db, encs, c) && Encs(env.h, t) <= encs
    requires KidsOk(env, HashChildren(env.h, env.db, n, c), n, t, c, encs)
    ensures HashOk(env, HashRec(env.h, env.db, n, c, root), t, root, c, encs)
  {
    hide *;
    var kids := HashChildren(env.h, env.db, n, c);
    var (hashed, db') := StoreNode(env.h, kids.db, kids.hashed, c, root);
    HashRecUnfold(env.h, env.db, n, c, root);
    KidsFacts(env, n, c, t, root, encs);
    StoreShape(env, kids.db, kids.hashed, c, t, root);
    EncIn(env.h, t, encs);
    StoreGrows(env, kids.db, db', t, c, encs);
    StoreRep(env, n, kids, hashed, db', c, t, root, encs);
  }

  lemma HashRecUnfold(h: Hasher, db: Store, n: Node, c: Hashing, force: bool)
    requires !(Cached(n) && (!c.write || !n.flags.dirty))
    ensures var kids := HashChildren(h, db, n, c);
            var (hashed, db') := StoreNode(h, kids.db, kids.hashed, c, force);
            HashRec(h, db, n, c, force) == Hashed(hashed, SetHash(kids.cached, hashed, c), db')
  {
    hide HashChildren, StoreNode;
  }

  lemma KidsFacts(env: Env, n: Node, c: Hashing, t: Tree, root: bool, encs: set<seq<byte>>)
    requires (n.Short? || n.Full?) && KidsOk(env, HashChildren(env.h, env.db, n, c), n, t, c, encs)
    requires FlagsOk(env, n.flags, t, root)
    ensures var kids := HashChildren(env.h, env.db, n, c);
            && (kids.hashed.Short? || kids.hashed.Full?) && NodeRlp(kids.hashed) == NodeItem(env.h, t)
            && (Cached(kids.hashed) ==> kids.hashed.flags.hash.value == HashOf(env.h, t))
            && Grows(env.h, encs, env.db, kids.db)
  {
    hide HashChildren, NodeRlp, NodeItem, Enc, Grows, Rep, Below;
  }

  /** The node with its new hash and flags still represents the tree. */
  lemma {:induction false} StoreRep(env: Env, n: Node, kids: Hashed, hashed: Node, db': Store, c: Hashing, t: Tree,
                                    root: bool, encs: set<seq<byte>>)
    requires (n.Short? || n.Full?) && Inner(t) && KidsOk(env, kids, n, t, c, encs) && Encs(env.h, t) <= encs
    requires FlagsOk(env, n.flags, t, root) && !(Cached(n) && (!c.write || !n.flags.dirty))
    requires Grown(env.h, encs, kids.db, db') && Grows(env.h, encs, env.db, db')
    requires c.write && HashOf(env.h, t) in db' ==> Held(env.(db := db'), t)
    requires var x := HashOf(env.h, t);
             if Hashable(env, t, root) then
               hashed == HashNode(x) && db' == if c.write && x !in kids.db then kids.db[x := Enc(env.h, t)] else kids.db
             else hashed == kids.hashed && db' == kids.db
    ensures HashOk(env, Hashed(hashed, SetHash(kids.cached, hashed, c), db'), t, root, c, encs)
  {
    hide Grown, Grows, Encs, Enc, RepBody, Below, Held, NodeItem, RefItem, NodeRlp, Rep, Big, FlagsOk;
    StoreCached(env, n, kids, hashed, db', c, t, root, encs);
    RefByHash(env, t, root);
  }

  lemma {:induction false} StoreCached(env: Env, n: Node, kids: Hashed, hashed: Node, db': Store, c: Hashing, t: Tree,
                                       root: bool, encs: set<seq<byte>>)
    requires (n.Short? || n.Full?) && Inner(t) && KidsOk(env, kids, n, t, c, encs) && Encs(env.h, t) <= encs
    requires FlagsOk(env, n.flags, t, root) && !(Cached(n) && (!c.write || !n.flags.dirty))
    requires Grown(env.h, encs, kids.db, db')
    requires c.write && HashOf(env.h, t) in db' ==> Held(env.(db := db'), t)
    requires if Hashable(env, t, root) then hashed == HashNode(HashOf(env.h, t)) &&
             (c.write ==> HashOf(env.h, t) in db')
             else hashed == kids.hashed
    ensures Rep(env.(db := db'), SetHash(kids.cached, hashed, c), t, root)
    ensures c.write ==> Kept(env.(db := db'), t, root)
  {
    hide Grown, Encs, Enc, RepBody, Below, Held, Rep, Big, FlagsOk, KidsOk;
    var env' := env.(db := db');
    StoreBody(env, n, kids, db', c, t, encs);
    var f := n.flags.(hash := if Hashable(env, t, root) then Some(HashOf(env.h, t)) else None,
                      dirty := n.flags.dirty && !c.write);
    NewFlags(env, env', n.flags, c, t, root);
    RepFromBody(env', kids.cached, kids.cached.(flags := f), t, root);
  }

  lemma StoreBody(env: Env, n: Node, kids: Hashed, db': Store, c: Hashing, t: Tree, encs: set<seq<byte>>)
    requires (n.Short? || n.Full?) && KidsOk(env, kids, n, t, c, encs) && Encs(env.h, t) <= encs
    requires Grown(env.h, encs, kids.db, db')
    ensures RepBody(env.(db := db'), kids.cached, t) && (kids.cached.Short? || kids.cached.Full?)
    ensures kids.cached.flags == n.flags && !kids.hashed.HashNode?
    ensures c.write ==> Below(env.(db := db'), t)
  {
    hide Grown, Grows, Encs, Enc, RepBody, Below, NodeRlp, NodeItem;
    var mid := env.(db := kids.db);
    BodyGrows(mid, db', kids.cached, t, encs);
    if c.write { BelowGrows(mid, db', t, encs); }
    BodyIsNode(mid, kids.cached, t);
  }

  /** Flags after hashing: the hash if there is one, and clean after a commit. */
  lemma NewFlags(env: Env, env': Env, f: Flags, c: Hashing, t: Tree, root: bool)
    requires env'.h == env.h && FlagsOk(env, f, t, root) && !(f.hash.Some? && (!c.write || !f.dirty))
    requires c.write && Hashable(env, t, root) ==> Stored(env', t)
    ensures FlagsOk(env',
                    f.(hash := if Hashable(env, t, root) then Some(HashOf(env.h, t)) else None,
                       dirty := f.dirty && !c.write), t, root)
  {
    hide Stored, Big, HashOf;
  }

  lemma BodyIsNode(env: Env, n: Node, t: Tree)
    requires RepBody(env, n, t)
    ensures n.Short? || n.Full?
  {
  }

  /** A node goes by hash exactly if it is big or the root. */
  lemma {:induction false} StoreShape(env: Env, db: Store, n: Node, c: Hashing, t: Tree, root: bool)
    requires (n.Short? || n.Full?) && NodeRlp(n) == NodeItem(env.h, t)
    requires Cached(n) ==> n.flags.hash.value == HashOf(env.h, t)
    ensures var (hashed, db') := StoreNode(env.h, db, n, c, root);
            var x := HashOf(env.h, t);
            if Hashable(env, t, root) then
              hashed == HashNode(x) && db' == if c.write && x !in db then db[x := Enc(env.h, t)] else db
            else hashed == n && db' == db
  {
    hide NodeRlp, NodeItem, Encode, StoreNode;
    StoreAt(env.h, db, n, c, root, Enc(env.h, t));
  }

  lemma {:induction false} StoreAt(h: Hasher, db: Store, n: Node, c: Hashing, force: bool, enc: seq<byte>)
    requires (n.Short? || n.Full?) && Encode(NodeRlp(n)) == enc && (Cached(n) ==> n.flags.hash.value == h(enc))
    ensures StoreNode(h, db, n, c, force)
         == if |enc| < 32 && !force then (n, db)
            else (HashNode(h(enc)), if c.write && h(enc) !in db then db[h(enc) := enc] else db)
  {
    hide NodeRlp, Encode;
  }

  lemma RefByHash(env: Env, t: Tree, root: bool)
    requires Inner(t)
    ensures !root && Hashable(env, t, root) ==> RefItem(env.h, t) == Str(HashOf(env.h, t))
    ensures !Hashable(env, t, root) ==> !root && RefItem(env.h, t) == NodeItem(env.h, t)
    ensures forall x: Hash :: NodeRlp(HashNode(x)) == Str(x)
  {
    hide Enc, NodeItem;
  }

  lemma EncIn(h: Hasher, t: Tree, encs: set<seq<byte>>)
    requires Inner(t) && Encs(h, t) <= encs
    ensures Enc(h, t) in encs
  {
    hide Enc;
  }

  lemma RepFromBody(env: Env, n: Node, m: Node, t: Tree, root: bool)
    requires RepBody(env, n, t) && (n.Short? || n.Full?) && (m.Short? || m.Full?)
    requires m == n.(flags := m.flags) && FlagsOk(env, m.flags, t, root)
    ensures Rep(env, m, t, root)
  {
    hide FlagsOk;
  }

  lemma BodyGrows(env: Env, db': Store, n: Node, t: Tree, encs: set<seq<byte>>)
    requires RepBody(env, n, t) && Grown(env.h, encs, env.db, db') && Encs(env.h, t) <= encs
    ensures RepBody(env.(db := db'), n, t)
  {
    hide Grown, Rep, Enc;
    match n
    case Short(_, v, _) => RepGrows(env, db', v, t.child, false, encs);
    case Full(ns, _) =>
      forall i | 0 <= i < |ns| ensures Rep(env.(db := db'), ns[i], t.children[i], false) {
        RepGrows(env, db', ns[i], t.children[i], false, encs);
      }
  }

  lemma StoreGrows(env: Env, db: Store, db': Store, t: Tree, c: Hashing, encs: set<seq<byte>>)
    requires Safe(env.h, env.db, encs, c) && Grows(env.h, encs, env.db, db) && Enc(env.h, t) in encs
    requires db' == db || (c.write && HashOf(env.h, t) !in db && db' == db[HashOf(env.h, t) := Enc(env.h, t)])
    ensures Grown(env.h, encs, db, db') && Grows(env.h, encs, env.db, db')
    ensures c.write && HashOf(env.h, t) in db' ==> Held(env.(db := db'), t)
  {
    hide Enc, Pure, Grows;
    if c.write {
      PureGrows(env.h, encs, env.db, db);
      PutGrows(env.h, encs, db, db', Enc(env.h, t));
      GrowsTwice(env.h, encs, env.db, db, db');
      PureGrows(env.h, encs, db, db');
      if HashOf(env.h, t) in db' { PureHas(env.h, encs, db', Enc(env.h, t)); }
    }
  }

  lemma PutGrows(h: Hasher, encs: set<seq<byte>>, db: Store, db': Store, e: seq<byte>)
    requires e in encs && (db' == db || (h(e) !in db && db' == db[h(e) := e]))
    ensures Grows(h, encs, db, db')
  {
  }

  lemma PureHas(h: Hasher, encs: set<seq<byte>>, db: Store, e: seq<byte>)
    requires Pure(h, db, encs) && e in encs && h(e) in db
    ensures db[h(e)] == e
  {
    hide Distinct;
  }

  lemma {:induction false} ChildrenCorrect(env: Env, n: Node, c: Hashing, t: Tree, root: bool, encs: set<seq<byte>>)
    requires Rep(env, n, t, root) && Norm(t) && (n.Short? || n.Full?)
    requires Safe(env.h, env.db, encs, c) && Encs(env.h, t) <= encs
    ensures KidsOk(env, HashChildren(env.h, env.db, n, c), n, t, c, encs)
    decreases t, 0
  {
    hide Safe, Grows, Enc, Below, Held, KidsOk, HashRec, HashKids, Compact, IsHex;
    if n.Short? {
      if n.val.Value? {
        LeafKids(env, n, c, t, root, encs);
      } else {
        ExtChild(env, n, t, root, encs);
        HashCorrect(env, n.val, c, t.child, false, encs);
        ExtKids(env, n, c, t, root, encs);
      }
    } else {
      BranchChildren(env, n, t, root, encs);
      KidsCorrect(env, n.children[..16], t.children[..16], c, encs);
      BranchKids(env, n, c, t, root, encs);
    }
  }

  lemma {:induction false} LeafKids(env: Env, n: Node, c: Hashing, t: Tree, root: bool, encs: set<seq<byte>>)
    requires Rep(env, n, t, root) && Norm(t) && n.Short? && n.val.Value?
    ensures KidsOk(env, HashChildren(env.h, env.db, n, c), n, t, c, encs)
  {
    hide Compact, Norm, IsHex, Big, Held, FlagsOk, Encs;
    LeafShape(env, n, t, root);
    var r := HashChildren(env.h, env.db, n, c);
    assert r == Hashed(Short(Compact(n.key), n.val, n.flags), n, env.db);
    assert env.(db := r.db) == env;
    assert RepBody(env, r.cached, t);
    assert NodeRlp(r.hashed) == Item.List([Str(Compact(n.key)), Str(n.val.value)]);
    assert NodeItem(env.h, t) == Item.List([Str(Compact(n.key)), RefItem(env.h, t.child)]);
    assert Below(env, t);
    assert Grows(env.h, encs, env.db, r.db);
  }

  lemma LeafShape(env: Env, n: Node, t: Tree, root: bool)
    requires Rep(env, n, t, root) && Norm(t) && n.Short? && n.val.Value?
    ensures t == Ext(n.key, Val(n.val.value)) && IsHex(n.key)
  {
  }

  lemma ExtChild(env: Env, n: Node, t: Tree, root: bool, encs: set<seq<byte>>)
    requires Rep(env, n, t, root) && Norm(t) && n.Short? && !n.val.Value? && Encs(env.h, t) <= encs
    ensures t.Ext? && t.key == n.key && IsHex(t.key) && Norm(t.child) && Inner(t.child)
    ensures Rep(env, n.val, t.child, false) && Encs(env.h, t.child) <= encs
  {
    hide Enc;
  }

  lemma ExtKids(env: Env, n: Node, c: Hashing, t: Tree, root: bool, encs: set<seq<byte>>)
    requires n.Short? && !n.val.Value? && t.Ext? && n.key == t.key && IsHex(t.key) && Inner(t.child)
    requires HashOk(env, HashRec(env.h, env.db, n.val, c, false), t.child, false, c, encs)
    ensures KidsOk(env, HashChildren(env.h, env.db, n, c), n, t, c, encs)
  {
    hide HashRec, Grows, Rep, Enc, Compact, IsHex, Held;
  }

  /** Nodes and trees side by side: nothing, or a node for a normal tree. */
  ghost predicate Paired(env: Env, ns: seq<Node>, ts: seq<Tree>)
  {
    |ns| == |ts| && forall i :: 0 <= i < |ns| ==> Rep(env, ns[i], ts[i], false) && (ts[i].Empty? || Norm(ts[i]))
  }

  /** Every tree in a list that is a node is kept. */
  ghost predicate AllKept(env: Env, ts: seq<Tree>)
  {
    forall i :: 0 <= i < |ts| && Inner(ts[i]) ==> Kept(env, ts[i], false)
  }

  ghost predicate ListOk(env: Env, r: HashedKids, ts: seq<Tree>, c: Hashing, encs: set<seq<byte>>)
  {
    var env' := env.(db := r.db);
    && Grows(env.h, encs, env.db, r.db) && (c.write || r.db == env.db)
    && Paired(env', r.cached, ts)
    && NodesRlp(r.hashed) == RefItems(env.h, ts)
    && (c.write ==> AllKept(env', ts))
  }

  lemma {:induction false} KidsCorrect(env: Env, ns: seq<Node>, ts: seq<Tree>, c: Hashing, encs: set<seq<byte>>)
    requires Paired(env, ns, ts) && Safe(env.h, env.db, encs, c) && EncsAll(env.h, ts) <= encs
    ensures ListOk(env, HashKids(env.h, env.db, ns, c), ts, c, encs)
    decreases ts, 2
  {
    if ns == [] {
      assert Grows(env.h, encs, env.db, env.db);
    } else {
      FirstKid(env, ns, ts, c, encs);
      var first := if ns[0].Nil? then Hashed(Value([]), Nil, env.db) else HashRec(env.h, env.db, ns[0], c, false);
      if !ns[0].Nil? { HashCorrect(env, ns[0], c, ts[0], false, encs); }
      FirstOk(env, ns[0], ts[0], first, c, encs);
      var mid := env.(db := first.db);
      SafeGrows(env.h, encs, env.db, first.db, c);
      PairedGrows(env, first.db, ns[1..], ts[1..], encs);
      KidsCorrect(mid, ns[1..], ts[1..], c, encs);
      ListCons(env, first, HashKids(env.h, first.db, ns[1..], c), ns, ts, c, encs);
    }
  }

  lemma SafeGrows(h: Hasher, encs: set<seq<byte>>, db: Store, db': Store, c: Hashing)
    requires Safe(h, db, encs, c) && Grows(h, encs, db, db') && (c.write || db' == db)
    ensures Safe(h, db', encs, c) && Grown(h, encs, db, db')
  {
    hide Pure, Grows;
    if c.write { PureGrows(h, encs, db, db'); }
  }

  lemma FirstKid(env: Env, ns: seq<Node>, ts: seq<Tree>, c: Hashing, encs: set<seq<byte>>)
    requires ns != [] && Paired(env, ns, ts) && EncsAll(env.h, ts) <= encs
    ensures ts != [] && Rep(env, ns[0], ts[0], false) && (ts[0].Empty? || Norm(ts[0])) && Encs(env.h, ts[0]) <= encs
    ensures ns[0].Nil? <==> ts[0].Empty?
    ensures Paired(env, ns[1..], ts[1..]) && EncsAll(env.h, ts[1..]) <= encs
  {
    hide Enc, Encs, Stored;
  }

  /** The result for one child, or for no child. */
  ghost predicate OneOk(env: Env, r: Hashed, t: Tree, c: Hashing, encs: set<seq<byte>>)
  {
    var env' := env.(db := r.db);
    && Grows(env.h, encs, env.db, r.db) && (c.write || r.db == env.db)
    && Rep(env', r.cached, t, false) && (t.Empty? || Norm(t))
    && NodeRlp(r.hashed) == RefItem(env.h, t)
    && (c.write && Inner(t) ==> Kept(env', t, false))
  }

  lemma FirstOk(env: Env, n: Node, t: Tree, r: Hashed, c: Hashing, encs: set<seq<byte>>)
    requires Rep(env, n, t, false) && (t.Empty? || Norm(t)) && (n.Nil? <==> t.Empty?)
    requires if n.Nil? then r == Hashed(Value([]), Nil, env.db) else HashOk(env, r, t, false, c, encs)
    ensures OneOk(env, r, t, c, encs)
  {
    hide Norm, Enc, Encs, Stored, NodeItem;
  }

  lemma PairedGrows(env: Env, db': Store, ns: seq<Node>, ts: seq<Tree>, encs: set<seq<byte>>)
    requires Paired(env, ns, ts) && Grown(env.h, encs, env.db, db') && EncsAll(env.h, ts) <= encs
    ensures Paired(env.(db := db'), ns, ts)
  {
    hide Grown, Rep, Enc, Norm, Encs;
    forall i | 0 <= i < |ns| ensures Rep(env.(db := db'), ns[i], ts[i], false) {
      RepGrows(env, db', ns[i], ts[i], false, encs);
    }
  }

  lemma {:induction false} ListCons(env: Env, first: Hashed, rest: HashedKids, ns: seq<Node>, ts: seq<Tree>,
                                    c: Hashing, encs: set<seq<byte>>)
    requires ts != [] && Safe(env.h, env.db, encs, c) && Encs(env.h, ts[0]) <= encs
    requires OneOk(env, first, ts[0], c, encs) && ListOk(env.(db := first.db), rest, ts[1..], c, encs)
    ensures ListOk(env, HashedKids([first.hashed] + rest.hashed, [first.cached] + rest.cached, rest.db), ts, c, encs)
  {
    hide Safe, Grown, Rep, Enc, Encs, Norm, NodeItem, Below, Held, Grows, Paired, AllKept, NodesRlp, RefItems, NodeRlp,
         RefItem;
    var mid, env' := env.(db := first.db), env.(db := rest.db);
    SafeGrows(env.h, encs, env.db, first.db, c);
    SafeGrows(env.h, encs, first.db, rest.db, c);
    GrowsTwice(env.h, encs, env.db, first.db, rest.db);
    RepGrows(mid, rest.db, first.cached, ts[0], false, encs);
    if Inner(ts[0]) {
      InnerGrows(mid, rest.db, ts[0], encs);
      if c.write { BelowGrows(mid, rest.db, ts[0], encs); }
    }
    ConsRlp(env.h, first.hashed, rest.hashed, ts);
    ConsPaired(env', first.cached, rest.cached, ts);
    if c.write { ConsKept(env', ts); }
  }

  lemma ConsRlp(h: Hasher, n: Node, ns: seq<Node>, ts: seq<Tree>)
    requires ts != [] && NodeRlp(n) == RefItem(h, ts[0]) && NodesRlp(ns) == RefItems(h, ts[1..])
    ensures NodesRlp([n] + ns) == RefItems(h, ts)
  {
    hide NodeRlp, RefItem;
    assert ([n] + ns)[1..] == ns;
  }

  lemma ConsPaired(env: Env, n: Node, ns: seq<Node>, ts: seq<Tree>)
    requires ts != [] && Rep(env, n, ts[0], false) && (ts[0].Empty? || Norm(ts[0])) && Paired(env, ns, ts[1..])
    ensures Paired(env, [n] + ns, ts)
  {
    hide Rep, Norm;
  }

  lemma ConsKept(env: Env, ts: seq<Tree>)
    requires ts != [] && (Inner(ts[0]) ==> Kept(env, ts[0], false)) && AllKept(env, ts[1..])
    ensures AllKept(env, ts)
  {
    hide Kept;
    forall i | 0 <= i < |ts| && Inner(ts[i]) ensures Kept(env, ts[i], false) {
      if i > 0 { assert ts[1..][i - 1] == ts[i]; }
    }
  }

  lemma {:induction false} BranchChildren(env: Env, n: Node, t: Tree, root: bool, encs: set<seq<byte>>)
    requires Rep(env, n, t, root) && Norm(t) && n.Full? && Encs(env.h, t) <= encs
    ensures t.Branch? && |n.children| == |t.children| == 17
    ensures Paired(env, n.children[..16], t.children[..16]) && EncsAll(env.h, t.children[..16]) <= encs
    ensures Rep(env, n.children[16], t.children[16], false) && (t.children[16].Empty? || t.children[16].Val?)
  {
    hide Enc, Stored;
    EncsPrefix(env.h, t.children, 16);
  }

  lemma {:induction false} EncsPrefix(h: Hasher, ts: seq<Tree>, k: nat)
    requires k <= |ts|
    ensures EncsAll(h, ts[..k]) <= EncsAll(h, ts)
  {
    hide Encs, EncsAll;
    if k > 0 {
      EncsPrefix(h, ts[1..], k - 1);
      assert ts[..k][1..] == ts[1..][..k - 1];
      EncsCons(h, ts[..k]);
      EncsCons(h, ts);
    } else {
      NoEncs(h);
      assert ts[..0] == [];
    }
  }

  lemma EncsCons(h: Hasher, ts: seq<Tree>)
    requires ts != []
    ensures EncsAll(h, ts) == Encs(h, ts[0]) + EncsAll(h, ts[1..])
  {
    hide Encs;
  }

  lemma NoEncs(h: Hasher)
    ensures EncsAll(h, []) == {}
  {
  }

  lemma {:induction false} BranchKids(env: Env, n: Node, c: Hashing, t: Tree, root: bool, encs: set<seq<byte>>)
    requires n.Full? && t.Branch? && |n.children| == |t.children| == 17
    requires Rep(env, n.children[16], t.children[16], false) && (t.children[16].Empty? || t.children[16].Val?)
    requires ListOk(env, HashKids(env.h, env.db, n.children[..16], c), t.children[..16], c, encs)
    ensures KidsOk(env, HashChildren(env.h, env.db, n, c), n, t, c, encs)
  {
    hide HashKids, Grows, Enc, Norm, Rep, Held, NodeRlp, RefItem;
    var ns, ts := n.children, t.children;
    var r := HashKids(env.h, env.db, ns[..16], c);
    var env' := env.(db := r.db);
    LastRef(env, env', ns[16], ts[16]);
    SnocRlp(env.h, r.hashed, ts, NilToValue(ns[16]));
    SnocRep(env', r.cached, ts, ns[16], n.flags);
    if c.write { SnocKept(env', ts); }
    FullRlp(env.h, r.hashed + [NilToValue(ns[16])], ts, n.flags);
  }

  lemma LastRef(env: Env, env': Env, n: Node, t: Tree)
    requires Rep(env, n, t, false) && (t.Empty? || t.Val?)
    ensures NodeRlp(NilToValue(n)) == RefItem(env.h, t) && Rep(env', n, t, false)
  {
    hide Rep;
    LastNode(env, n, t);
    LeafRep(env', t);
  }

  lemma LastNode(env: Env, n: Node, t: Tree)
    requires Rep(env, n, t, false) && (t.Empty? || t.Val?)
    ensures n == if t.Empty? then Nil else Value(t.value)
  {
    hide Stored, FlagsOk, Enc;
  }

  lemma LeafRep(env: Env, t: Tree)
    requires t.Empty? || t.Val?
    ensures Rep(env, if t.Empty? then Nil else Value(t.value), t, false)
  {
  }

  lemma SnocRlp(h: Hasher, hashed: seq<Node>, ts: seq<Tree>, last: Node)
    requires |ts| == 17 && |hashed| == 16 && NodesRlp(hashed) == RefItems(h, ts[..16]) &&
             NodeRlp(last) == RefItem(h, ts[16])
    ensures NodesRlp(hashed + [last]) == RefItems(h, ts)
  {
    hide NodeRlp, RefItem, NodesRlp, RefItems;
    var all := NodesRlp(hashed + [last]);
    forall i | 0 <= i < 17 ensures all[i] == RefItem(h, ts[i]) {
      if i < 16 {
        assert NodesRlp(hashed)[i] == NodeRlp(hashed[i]) && RefItems(h, ts[..16])[i] == RefItem(h, ts[..16][i]);
      }
    }
    assert all == RefItems(h, ts);
  }

  lemma FullRlp(h: Hasher, ns: seq<Node>, ts: seq<Tree>, f: Flags)
    requires NodesRlp(ns) == RefItems(h, ts)
    ensures NodeRlp(Full(ns, f)) == NodeItem(h, Branch(ts))
  {
  }

  lemma SnocRep(env: Env, cached: seq<Node>, ts: seq<Tree>, last: Node, f: Flags)
    requires |ts| == 17 && Paired(env, cached, ts[..16]) && Rep(env, last, ts[16], false)
    ensures RepBody(env, Full(cached + [last], f), Branch(ts))
  {
    hide Rep, Norm;
    forall i | 0 <= i < 17 ensures Rep(env, (cached + [last])[i], ts[i], false) {
      if i < 16 { assert Rep(env, cached[i], ts[..16][i], false); }
    }
  }

  lemma SnocKept(env: Env, ts: seq<Tree>)
    requires |ts| == 17 && AllKept(env, ts[..16]) && !Inner(ts[16])
    ensures Below(env, Branch(ts))
  {
    hide Held, Enc;
    forall i | 0 <= i < 17 && Inner(ts[i]) ensures (Big(env.h, ts[i]) ==> Held(env, ts[i])) && Below(env, ts[i]) {
      assert Inner(ts[..16][i]) && Kept(env, ts[..16][i], false);
    }
  }
}
