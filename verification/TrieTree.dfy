/**
 The trie without caches and unloaded parts: what it stores, its normal form
 (Yellow Paper, Appendix D) and the theorem that the normal form is canonical.
 */
module TrieTree {
  import opened Bytes
  import opened HexPrefix

  /** Lengths in Go are 64-bit; paths and values stay far below that. */
  const LIMIT: nat := 0x1000_0000_0000_0000

  datatype Tree = Empty | Val(value: seq<byte>) | Ext(key: seq<byte>, child: Tree) | Branch(children: seq<Tree>)

  /** The value stored under the path p; empty if there is none. */
  function Lookup(t: Tree, p: seq<byte>): seq<byte>
  {
    match t
    case Empty => []
    case Val(v) => if p == [] then v else []
    case Ext(k, c) => if k <= p then Lookup(c, p[|k|..]) else []
    case Branch(cs) => if |p| > 0 && p[0] < |cs| then Lookup(cs[p[0]], p[1..]) else []
  }

  /** The same map. */
  ghost predicate Same(t: Tree, u: Tree)
  {
    forall p :: Lookup(t, p) == Lookup(u, p)
  }

  /** u is t with path key now leading to v; an empty v means that it leads nowhere. */
  ghost predicate Updates(t: Tree, u: Tree, key: seq<byte>, v: seq<byte>)
  {
    forall p :: Lookup(u, p) == if p == key then v else Lookup(t, p)
  }

  /**
   Normal form of a short or full node: no short node under a short node, at least
   two children per full node, the terminator only in front of a value, no empty values.
   */
  predicate Norm(t: Tree)
  {
    match t
    case Empty => false
    case Val(_) => false
    case Ext(k, c) =>
      if HasTerm(k) then HexPath(k) && GoodVal(c) else k != [] && AllNibbles(k) && c.Branch? && Norm(c)
    case Branch(cs) =>
      && |cs| == 17
      && (forall i :: 0 <= i < 16 ==> cs[i].Empty? || Norm(cs[i]))
      && (cs[16].Empty? || GoodVal(cs[16]))
      && exists i, j :: 0 <= i < j < 17 && !cs[i].Empty? && !cs[j].Empty?
  }

  predicate GoodVal(t: Tree) { t.Val? && t.value != [] }

  /** What may stand where a path ends (leaf) or goes on. */
  predicate Slot(t: Tree, leaf: bool) { t.Empty? || (if leaf then GoodVal(t) else Norm(t)) }

  /** The rest of a complete path: empty, or ending in the terminator. */
  predicate PathEnd(p: seq<byte>) { p == [] || HexPath(p) }

  // ----- every normal tree stores something -----

  /** A path that leads to a value; in a full node, one through child i. */
  function SomePath(t: Tree): (p: seq<byte>)
    requires Norm(t) || GoodVal(t)
    ensures Lookup(t, p) != [] && PathEnd(p) && (Norm(t) ==> p != [])
  {
    match t
    case Val(_) => []
    case Ext(k, c) =>
      var p := SomePath(c);
      assert (k + p)[|k|..] == p && k <= k + p;
      k + p
    case Branch(cs) =>
      var i: nat :| i < 17 && !cs[i].Empty? && forall j :: 0 <= j < i ==> cs[j].Empty?;
      PathVia(t, i)
  }

  function PathVia(t: Tree, i: nat): (p: seq<byte>)
    requires t.Branch? && Norm(t) && i < 17 && !t.children[i].Empty?
    ensures Lookup(t, p) != [] && HexPath(p) && p[0] == i
    decreases t, 0
  {
    var q := SomePath(t.children[i]);
    assert ([i] + q)[1..] == q;
    [i] + q
  }

  lemma TwoPaths(t: Tree, x: byte) returns (p: seq<byte>)
    requires t.Branch? && Norm(t)
    ensures Lookup(t, p) != [] && HexPath(p) && p[0] != x
  {
    var i, j :| 0 <= i < j < 17 && !t.children[i].Empty? && !t.children[j].Empty?;
    p := PathVia(t, if i == x then j else i);
  }

  lemma LookupExt(k: seq<byte>, c: Tree, q: seq<byte>)
    ensures Lookup(Ext(k, c), k + q) == Lookup(c, q)
  {
    assert (k + q)[|k|..] == q;
  }

  lemma LookupBranch(cs: seq<Tree>, i: byte, q: seq<byte>)
    requires i < |cs|
    ensures Lookup(Branch(cs), [i] + q) == Lookup(cs[i], q)
  {
    assert ([i] + q)[1..] == q;
  }

  // ----- the normal form is canonical -----

  /** Two normal trees that store the same map are the same tree. */
  lemma {:induction false} Canonical(t: Tree, u: Tree, leaf: bool)
    requires Slot(t, leaf) && Slot(u, leaf) && Same(t, u)
    ensures t == u
    decreases t
  {
    if t.Empty? || u.Empty? {
      if !u.Empty? { StoresSomething(u); }
      if !t.Empty? { StoresSomething(t); }
    } else if leaf {
      assert Lookup(t, []) == Lookup(u, []);
    } else {
      match (t, u)
      case (Branch(cs), Branch(ds)) =>
        forall i | 0 <= i < 17 ensures cs[i] == ds[i] {
          SameChild(cs, ds, i);
          Canonical(cs[i], ds[i], i == 16);
        }
      case (Ext(k, c), Ext(l, d)) =>
        SameKey(k, c, l, d);
        SameChildExt(k, c, d);
        Canonical(c, d, HasTerm(k));
      case (Ext(k, c), Branch(ds)) =>
        NotBoth(k, c, u);
      case (Branch(cs), Ext(l, d)) =>
        NotBoth(l, d, t);
    }
  }

  lemma StoresSomething(t: Tree)
    requires Norm(t) || GoodVal(t)
    ensures exists p :: Lookup(t, p) != []
  {
    var p := SomePath(t);
  }

  lemma SameChild(cs: seq<Tree>, ds: seq<Tree>, i: nat)
    requires |cs| == |ds| == 17 && i < 17 && Same(Branch(cs), Branch(ds))
    ensures Same(cs[i], ds[i])
  {
    forall q ensures Lookup(cs[i], q) == Lookup(ds[i], q) {
      LookupBranch(cs, i, q);
      LookupBranch(ds, i, q);
    }
  }

  lemma SameChildExt(k: seq<byte>, c: Tree, d: Tree)
    requires Same(Ext(k, c), Ext(k, d))
    ensures Same(c, d)
  {
    forall q ensures Lookup(c, q) == Lookup(d, q) {
      LookupExt(k, c, q);
      LookupExt(k, d, q);
    }
  }

  /** All paths of a short node share their first nibble; those of a full node do not. */
  lemma NotBoth(k: seq<byte>, c: Tree, u: Tree)
    requires Norm(Ext(k, c)) && u.Branch? && Norm(u)
    ensures !Same(Ext(k, c), u)
  {
    var p := TwoPaths(u, k[0]);
    assert Lookup(Ext(k, c), p) == [];
  }

  lemma SameKey(k: seq<byte>, c: Tree, l: seq<byte>, d: Tree)
    requires Norm(Ext(k, c)) && Norm(Ext(l, d)) && Same(Ext(k, c), Ext(l, d))
    ensures k == l
  {
    var p, q := SomePath(Ext(k, c)), SomePath(Ext(l, d));
    assert k <= p && l <= p;
    if |k| < |l| {
      NotLonger(k, c, l, d);
    } else if |l| < |k| {
      NotLonger(l, d, k, c);
    }
  }

  /** A key cannot go on where another one already branches. */
  lemma NotLonger(k: seq<byte>, c: Tree, l: seq<byte>, d: Tree)
    requires Norm(Ext(k, c)) && Norm(Ext(l, d)) && |k| < |l| && k <= l
    ensures !Same(Ext(k, c), Ext(l, d))
  {
    assert l[|k| - 1] == k[|k| - 1];
    var q := TwoPaths(c, l[|k|]);
    LookupExt(k, c, q);
    var p := k + q;
    assert p[|k|] != l[|k|];
    assert Lookup(Ext(l, d), p) == [];
  }

  // ----- what the update operations do to a tree -----

  lemma UpdateBranch(cs: seq<Tree>, c': Tree, key: seq<byte>, v: seq<byte>)
    requires |cs| == 17 && key != [] && key[0] < 17
    requires Updates(cs[key[0]], c', key[1..], v)
    ensures Updates(Branch(cs), Branch(cs[key[0] := c']), key, v)
  {
    var t, u := Branch(cs), Branch(cs[key[0] := c']);
    forall p ensures Lookup(u, p) == if p == key then v else Lookup(t, p) {
      if |p| > 0 && p[0] == key[0] {
        assert p == [p[0]] + p[1..] && key == [key[0]] + key[1..];
      }
    }
  }

  lemma UpdateExt(k: seq<byte>, c: Tree, c': Tree, key: seq<byte>, v: seq<byte>)
    requires k <= key && Updates(c, c', key[|k|..], v)
    ensures Updates(Ext(k, c), Ext(k, c'), key, v)
  {
    forall p ensures Lookup(Ext(k, c'), p) == if p == key then v else Lookup(Ext(k, c), p) {
      if k <= p {
        assert p == k + p[|k|..] && key == k + key[|k|..];
      }
    }
  }

  /** Two short nodes in a row store what one with the joined key stores. */
  lemma JoinExt(k: seq<byte>, l: seq<byte>, c: Tree)
    ensures Same(Ext(k, Ext(l, c)), Ext(k + l, c))
  {
    forall p ensures Lookup(Ext(k, Ext(l, c)), p) == Lookup(Ext(k + l, c), p) {
      if k <= p && l <= p[|k|..] {
        assert p == k + p[|k|..] && k + l <= p;
        assert p[|k|..][|l|..] == p[|k + l|..];
      }
    }
  }

  /** A full node with a single child stores what a one-nibble short node stores. */
  lemma CollapseBranch(cs: seq<Tree>, i: nat)
    requires |cs| == 17 && i < 17 && forall j :: 0 <= j < 17 && j != i ==> cs[j].Empty?
    ensures Same(Branch(cs), Ext([i], cs[i]))
  {
  }

  // ----- branching out -----

  /** A subtree at the end of a path. */
  function Hang(p: seq<byte>, c: Tree): Tree { if p == [] then c else Ext(p, c) }

  function Empties(): (cs: seq<Tree>)
    ensures |cs| == 17 && forall i :: 0 <= i < 17 ==> cs[i] == Empty
  {
    seq(17, _ => Empty)
  }

  /** The children of the full node that separates two paths. */
  function ForkKids(k: seq<byte>, c: Tree, key: seq<byte>, v: seq<byte>): (cs: seq<Tree>)
    requires k != [] && key != [] && k[0] < 17 && key[0] < 17
    ensures |cs| == 17
  {
    Empties()[k[0] := Hang(k[1..], c)][key[0] := Hang(key[1..], Val(v))]
  }

  lemma HangLookup(k: seq<byte>, c: Tree, q: seq<byte>)
    requires k != [] && q != [] && q[0] == k[0]
    ensures Lookup(Hang(k[1..], c), q[1..]) == Lookup(Ext(k, c), q)
  {
    if k[1..] == [] {
      assert k == [q[0]];
    } else if k <= q || k[1..] <= q[1..] {
      assert k == [k[0]] + k[1..] && q == [q[0]] + q[1..];
      assert k <= q && k[1..] <= q[1..];
      assert q[|k|..] == q[1..][|k[1..]|..];
    }
  }

  lemma ForkUpdates(k: seq<byte>, c: Tree, key: seq<byte>, v: seq<byte>)
    requires k != [] && key != [] && k[0] < 17 && key[0] < 17 && k[0] != key[0]
    ensures Updates(Ext(k, c), Branch(ForkKids(k, c, key, v)), key, v)
  {
    var u := Branch(ForkKids(k, c, key, v));
    forall q ensures Lookup(u, q) == if q == key then v else Lookup(Ext(k, c), q) {
      if q != [] && q[0] == k[0] {
        HangLookup(k, c, q);
      } else if q != [] && q[0] == key[0] {
        HangLookup(key, Val(v), q);
        ExtVal(key, v, q);
      }
    }
  }

  lemma ExtVal(key: seq<byte>, v: seq<byte>, q: seq<byte>)
    ensures Lookup(Ext(key, Val(v)), q) == if q == key then v else []
  {
    if key <= q && q[|key|..] == [] { assert q == key; }
    if q == key { assert q[|key|..] == []; }
  }

  lemma ForkNorm(k: seq<byte>, c: Tree, key: seq<byte>, v: seq<byte>)
    requires Norm(Ext(k, c)) && HexPath(key) && v != [] && k[0] != key[0]
    ensures Norm(Branch(ForkKids(k, c, key, v)))
  {
    var cs := ForkKids(k, c, key, v);
    HangSlot(k, c);
    HangSlot(key, Val(v));
    assert !cs[k[0]].Empty? && !cs[key[0]].Empty?;
  }

  lemma HangSlot(k: seq<byte>, c: Tree)
    requires Norm(Ext(k, c))
    ensures k[0] < 17 && !Hang(k[1..], c).Empty? && Slot(Hang(k[1..], c), k[0] == 16)
  {
    var l := k[1..];
    assert l != [] ==> l[|l| - 1] == k[|k| - 1];
  }

  /** Splitting a short node at a place where its key and the new path part. */
  function Fork(k: seq<byte>, c: Tree, key: seq<byte>, v: seq<byte>, m: nat): (u: Tree)
    requires m < |k| && m < |key| && k[m] < 17 && key[m] < 17
  {
    var b := Branch(ForkKids(k[m..], c, key[m..], v));
    if m == 0 then b else Ext(key[..m], b)
  }

  lemma ForkCorrect(k: seq<byte>, c: Tree, key: seq<byte>, v: seq<byte>, m: nat)
    requires Norm(Ext(k, c)) && HexPath(key) && v != []
    requires m < |k| && m < |key| && k[..m] == key[..m] && k[m] != key[m]
    ensures k[m] < 17 && key[m] < 17 && Norm(Fork(k, c, key, v, m)) && Updates(Ext(k, c), Fork(k, c, key, v, m), key, v)
  {
    var l, rest, head := k[m..], key[m..], key[..m];
    NormTail(k, c, m);
    HexTail(key, m);
    ForkNorm(l, c, rest, v);
    ForkUpdates(l, c, rest, v);
    var b := Branch(ForkKids(l, c, rest, v));
    UpdateExt(head, Ext(l, c), b, key, v);
    JoinExt(head, l, c);
    assert head + l == k;
    if m == 0 {
      assert l == k && rest == key;
    } else {
      assert AllNibbles(head);
    }
  }

  lemma NormTail(k: seq<byte>, c: Tree, m: nat)
    requires Norm(Ext(k, c)) && m < |k|
    ensures Norm(Ext(k[m..], c)) && k[m] < 17
  {
    assert k[m..][|k| - m - 1] == k[|k| - 1];
  }

  lemma HexTail(p: seq<byte>, m: nat)
    requires HexPath(p) && m < |p|
    ensures HexPath(p[m..]) && AllNibbles(p[..m]) && p[m] < 17
  {
  }

  // ----- children -----

  /** A tree right below another. */
  ghost predicate IsChild(t: Tree, c: Tree)
  {
    (t.Ext? && c == t.child) || (t.Branch? && c in t.children)
  }

  /** The number of nodes. */
  ghost function Size(t: Tree): nat
  {
    match t
    case Ext(_, c) => 1 + Size(c)
    case Branch(cs) => 1 + SizeAll(cs)
    case _ => 0
  }

  ghost function SizeAll(ts: seq<Tree>): (n: nat)
    ensures forall t :: t in ts ==> Size(t) <= n
  {
    if ts == [] then 0 else Size(ts[0]) + SizeAll(ts[1..])
  }

  lemma ChildSmaller(t: Tree, c: Tree)
    requires IsChild(t, c)
    ensures Size(c) < Size(t)
  {
  }
}
