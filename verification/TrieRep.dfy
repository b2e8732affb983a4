/**
 When a node in memory represents a tree: some subtrees may be loaded, some only
 known by hash, some nodes may carry a cached hash. A cached hash must be the one
 computed from scratch, and what is clean must be found in the database.
 */
module TrieRep {
  import opened Bytes
  import opened TrieTree
  import opened TrieNode

  /** Hash function, node database, and whether the database is known to lack nothing. */
  datatype Env = Env(h: Hasher, db: map<Hash, seq<byte>>, strict: bool)

  /** The database has nothing else under the hash of t, and in the strict case has t. */
  ghost predicate Held(env: Env, t: Tree)
  {
    var x := HashOf(env.h, t);
    if x in env.db then env.db[x] == Enc(env.h, t) else !env.strict
  }

  /** Every node below t that is referred to by hash is held. */
  ghost predicate Below(env: Env, t: Tree)
  {
    match t
    case Ext(_, c) => Inner(c) ==> (Big(env.h, c) ==> Held(env, c)) && Below(env, c)
    case Branch(cs) =>
      forall i :: 0 <= i < |cs| && Inner(cs[i]) ==> (Big(env.h, cs[i]) ==> Held(env, cs[i])) && Below(env, cs[i])
    case _ => true
  }

  ghost predicate Stored(env: Env, t: Tree) { Held(env, t) && Below(env, t) }

  /** Hash references are made for nodes of 32 bytes or more, and for the root. */
  ghost predicate Hashable(env: Env, t: Tree, root: bool) { root || Big(env.h, t) }

  ghost predicate FlagsOk(env: Env, f: Flags, t: Tree, root: bool)
  {
    if f.hash.Some? then
      && f.hash.value == HashOf(env.h, t)
      && Hashable(env, t, root)
      && (!f.dirty ==> Stored(env, t))
    else
      !f.dirty ==> !Hashable(env, t, root)
  }

  /** Node n, standing at the root or below it, represents tree t. */
  ghost predicate Rep(env: Env, n: Node, t: Tree, root: bool)
    decreases t
  {
    match n
    case Nil => t.Empty?
    case Value(v) => t == Val(v)
    case HashNode(x) => Inner(t) && x == HashOf(env.h, t) && Hashable(env, t, root) && Stored(env, t)
    case Short(k, v, f) => t.Ext? && t.key == k && Rep(env, v, t.child, false) && FlagsOk(env, f, t, root)
    case Full(ns, f) =>
      && t.Branch? && |ns| == |t.children|
      && (forall i :: 0 <= i < |ns| ==> Rep(env, ns[i], t.children[i], false))
      && FlagsOk(env, f, t, root)
  }

  /** A decoded node represents the tree whose bytes it was decoded from. */
  lemma {:induction false} RepNodeOf(env: Env, t: Tree, hash: Option<Hash>, gen: nat, root: bool)
    requires Inner(t) && Below(env, t) && FlagsOk(env, Flags(hash, gen, false), t, root)
    ensures Rep(env, NodeOf(env.h, t, hash, gen), t, root)
    decreases t, 0
  {
    match t
    case Ext(_, c) => RepRefNode(env, c, gen);
    case Branch(cs) =>
      forall i | 0 <= i < |cs| ensures Rep(env, RefNode(env.h, cs[i], gen), cs[i], false) {
        RepRefNode(env, cs[i], gen);
      }
  }

  lemma {:induction false} RepRefNode(env: Env, c: Tree, gen: nat)
    requires Inner(c) ==> (Big(env.h, c) ==> Held(env, c)) && Below(env, c)
    ensures Rep(env, RefNode(env.h, c, gen), c, false)
    decreases c, 1
  {
    if Inner(c) && !Big(env.h, c) {
      RepNodeOf(env, c, None, gen, false);
    }
  }

  // ----- loading -----

  datatype TrieError = MissingNode(hash: Hash) | Corrupt(node: NodeError)

  /** resolveHash: the node behind a hash; bytes that do not decode make the source panic. */
  function ResolveHash(env: Env, x: Hash, gen: nat): Result<Node, TrieError>
  {
    if x !in env.db then Err(MissingNode(x))
    else
      match DecodeNode(Some(x), env.db[x], gen)
      case Err(e) => Err(Corrupt(e))
      case Ok(n) => Ok(n)
  }

  /** Good for lookups and updates: normal, with lengths in range. */
  ghost predicate Sound(t: Tree, leaf: bool) { Slot(t, leaf) && Bounded(t) }

  /** Loading a node changes nothing; it fails only if the database lacks the node. */
  lemma Resolves(env: Env, x: Hash, t: Tree, root: bool, gen: nat)
    requires Rep(env, HashNode(x), t, root) && Sound(t, false)
    ensures x in env.db ==>
              && ResolveHash(env, x, gen) == Ok(NodeOf(env.h, t, Some(x), gen))
              && Rep(env, NodeOf(env.h, t, Some(x), gen), t, root)
    ensures x !in env.db ==> !env.strict && ResolveHash(env, x, gen) == Err(MissingNode(x))
  {
    if x in env.db {
      EncBounded(env.h, t);
      DecodeStored(env.h, t, Some(x), gen, []);
      assert Enc(env.h, t) + [] == Enc(env.h, t);
      RepNodeOf(env, t, Some(x), gen, root);
    }
  }
}
