/**
 The converse of history independence: without hash collisions among the nodes at
 hand, equal hashes mean equal trees. The proof decodes what was encoded.
 */
module TrieUnique {
  import opened Bytes
  import opened HexPrefix
  import opened TrieTree
  import opened TrieNode
  import opened TrieHasher

  /** A normal tree whose nodes are among those given. */
  ghost predicate Known(h: Hasher, encs: set<seq<byte>>, t: Tree)
  {
    Norm(t) && Bounded(t) && Encs(h, t) <= encs
  }

  lemma KnownExt(h: Hasher, encs: set<seq<byte>>, k: seq<byte>, c: Tree)
    requires Known(h, encs, Ext(k, c))
    ensures if HasTerm(k) then GoodVal(c) else Known(h, encs, c)
  {
    BoundedExt(k, c);
  }

  lemma KnownBranch(h: Hasher, encs: set<seq<byte>>, cs: seq<Tree>, i: nat)
    requires Known(h, encs, Branch(cs)) && i < 17
    ensures |cs| == 17 && (cs[i].Empty? || (if i == 16 then GoodVal(cs[i]) else Known(h, encs, cs[i])))
  {
    hide Enc, Bounded;
    if !cs[i].Empty? { BoundedBranch(cs, i); }
  }

  /** Trees with the same encoding are the same. */
  lemma {:induction false} SameEnc(h: Hasher, encs: set<seq<byte>>, t: Tree, u: Tree)
    requires Distinct(h, encs) && Known(h, encs, t) && Known(h, encs, u) && Enc(h, t) == Enc(h, u)
    ensures t == u
    decreases t, 2
  {
    hide Norm, Bounded, Encs, Enc, NodeOf, Distinct, DecodeNode;
    EncBounded(h, t);
    EncBounded(h, u);
    DecodeStored(h, t, None, 0, []);
    DecodeStored(h, u, None, 0, []);
    SameNode(h, encs, t, u);
  }

  lemma {:induction false} SameNode(h: Hasher, encs: set<seq<byte>>, t: Tree, u: Tree)
    requires Distinct(h, encs) && Known(h, encs, t) && Known(h, encs, u) &&
             NodeOf(h, t, None, 0) == NodeOf(h, u, None, 0)
    ensures t == u
    decreases t, 1
  {
    hide Known, RefNode, Distinct, Norm;
    KnownInner(h, encs, t);
    KnownInner(h, encs, u);
    match t
    case Ext(k, c) =>
      KnownExt(h, encs, k, c);
      KnownExt(h, encs, k, u.child);
      SameRef(h, encs, c, u.child);
    case Branch(cs) =>
      var ds := u.children;
      forall i | 0 <= i < 17 ensures cs[i] == ds[i] {
        KnownBranch(h, encs, cs, i);
        KnownBranch(h, encs, ds, i);
        assert RefNodes(h, cs, 0)[i] == RefNodes(h, ds, 0)[i];
        SameRef(h, encs, cs[i], ds[i]);
      }
  }

  lemma KnownInner(h: Hasher, encs: set<seq<byte>>, t: Tree)
    requires Known(h, encs, t)
    ensures Inner(t) && (t.Branch? ==> |t.children| == 17)
  {
  }

  lemma {:induction false} SameRef(h: Hasher, encs: set<seq<byte>>, c: Tree, d: Tree)
    requires Distinct(h, encs) && (c.Empty? || GoodVal(c) || Known(h, encs, c)) &&
             (d.Empty? || GoodVal(d) || Known(h, encs, d))
    requires RefNode(h, c, 0) == RefNode(h, d, 0)
    ensures c == d
    decreases c, 3
  {
    hide Known, NodeOf, Distinct, Enc, Norm;
    if Known(h, encs, c) { KnownInner(h, encs, c); }
    if Known(h, encs, d) { KnownInner(h, encs, d); }
    RefKind(h, c);
    RefKind(h, d);
    if Inner(c) {
      if Big(h, c) {
        KnownEnc(h, encs, c);
        KnownEnc(h, encs, d);
        DistinctAt(h, encs, Enc(h, c), Enc(h, d));
        SameEnc(h, encs, c, d);
      } else {
        SameNode(h, encs, c, d);
      }
    }
  }

  lemma RefKind(h: Hasher, c: Tree)
    ensures RefNode(h, c, 0).HashNode? <==> Inner(c) && Big(h, c)
    ensures RefNode(h, c, 0).Nil? <==> c.Empty?
    ensures RefNode(h, c, 0).Value? <==> c.Val?
  {
    hide Enc;
  }

  lemma KnownEnc(h: Hasher, encs: set<seq<byte>>, t: Tree)
    requires Known(h, encs, t)
    ensures Enc(h, t) in encs
  {
    hide Enc, Bounded;
  }

  /** Equal hashes, equal trees. */
  lemma SameHash(h: Hasher, encs: set<seq<byte>>, t: Tree, u: Tree)
    requires Distinct(h, encs) && Known(h, encs, t) && Known(h, encs, u) && HashOf(h, t) == HashOf(h, u)
    ensures t == u
  {
    hide Known, Distinct, Enc;
    KnownEnc(h, encs, t);
    KnownEnc(h, encs, u);
    DistinctAt(h, encs, Enc(h, t), Enc(h, u));
    SameEnc(h, encs, t, u);
  }

  lemma KnownNorm(h: Hasher, encs: set<seq<byte>>, t: Tree)
    requires Known(h, encs, t)
    ensures Norm(t) && Bounded(t)
  {
  }

  lemma KnownChild(h: Hasher, encs: set<seq<byte>>, t: Tree, c: Tree)
    requires Known(h, encs, t) && IsChild(t, c) && Inner(c)
    ensures Known(h, encs, c)
  {
    hide Known;
    KnownInner(h, encs, t);
    match t
    case Ext(k, d) => KnownExt(h, encs, k, d);
    case Branch(cs) =>
      var i :| 0 <= i < |cs| && cs[i] == c;
      KnownBranch(h, encs, cs, i);
  }

  /** The size of the tree with the given hash. */
  ghost function SizeBy(h: Hasher, encs: set<seq<byte>>, x: Hash): nat
  {
    if t :| Known(h, encs, t) && HashOf(h, t) == x then Size(t) else 0
  }

  lemma SizeIs(h: Hasher, encs: set<seq<byte>>, t: Tree)
    requires Distinct(h, encs) && Known(h, encs, t)
    ensures SizeBy(h, encs, HashOf(h, t)) == Size(t)
  {
    hide Distinct, Known, HashOf, Size;
    forall u | Known(h, encs, u) && HashOf(h, u) == HashOf(h, t) ensures u == t {
      SameHash(h, encs, t, u);
    }
  }
}
