/**
 Iteration over the nodes of a trie (trie/iterator.go). The specification is the
 list of all nodes in pre-order; the iterator with its stack is shown to walk it.
 */
module TrieIterator {
  import opened Bytes
  import opened HexPrefix
  import opened TrieTree
  import opened PathOrder

  // ----- the nodes of a tree in pre-order -----

  datatype Visit = Visit(path: seq<byte>, tree: Tree)

  /** All nodes of a subtree that stands at path p. */
  function Visits(t: Tree, p: seq<byte>): seq<Visit>
    decreases t, 1, 0
  {
    if t.Empty? then [] else [Visit(p, t)] + Kids(t, p, 0)
  }

  /** The nodes below t, from child number i on. */
  function Kids(t: Tree, p: seq<byte>, i: nat): seq<Visit>
    decreases t, 0, if t.Branch? then |t.children| - i else 0
  {
    match t
    case Ext(k, c) => if i == 0 then Visits(c, p + k) else []
    case Branch(cs) => if i < |cs| && i < 17 then Visits(cs[i], p + [i]) + Kids(t, p, i + 1) else []
    case _ => []
  }

  /** Iteration shows the root even if it is nil. */
  function All(t: Tree): seq<Visit> { [Visit([], t)] + Kids(t, [], 0) }

  ghost predicate Under(vs: seq<Visit>, p: seq<byte>)
  {
    forall v :: v in vs ==> p <= v.path
  }

  ghost predicate Sorted(vs: seq<Visit>)
  {
    forall i, j :: 0 <= i < j < |vs| ==> Less(vs[i].path, vs[j].path)
  }

  predicate Good(t: Tree) { Norm(t) || GoodVal(t) }

  lemma {:induction false} VisitsUnder(t: Tree, p: seq<byte>)
    ensures Under(Visits(t, p), p)
    decreases t, 1, 0
  {
    if !t.Empty? { KidsUnder(t, p, 0); }
  }

  lemma {:induction false} KidsUnder(t: Tree, p: seq<byte>, i: nat)
    ensures Under(Kids(t, p, i), p)
    decreases t, 0, if t.Branch? then |t.children| - i else 0
  {
    match t
    case Ext(k, c) =>
      if i == 0 { VisitsUnder(c, p + k); UnderLess(Visits(c, p + k), p, k); }
    case Branch(cs) =>
      if i < |cs| && i < 17 {
        VisitsUnder(cs[i], p + [i]);
        UnderLess(Visits(cs[i], p + [i]), p, [i]);
        KidsUnder(t, p, i + 1);
      }
    case _ =>
  }

  lemma UnderLess(vs: seq<Visit>, p: seq<byte>, q: seq<byte>)
    requires Under(vs, p + q)
    ensures Under(vs, p)
  {
    forall v | v in vs ensures p <= v.path { PrefixTrans(p, q, v.path); }
  }

  lemma PrefixTrans(p: seq<byte>, q: seq<byte>, r: seq<byte>)
    requires p + q <= r
    ensures p <= r && (q != [] ==> |r| > |p| && r[|p|] == q[0])
  {
    assert r[..|p + q|] == p + q;
    assert r[..|p|] == (p + q)[..|p|] == p;
    if q != [] { assert r[|p|] == (p + q)[|p|]; }
  }

  lemma {:induction false} VisitsSorted(t: Tree, p: seq<byte>)
    requires t.Empty? || Good(t)
    ensures Sorted(Visits(t, p))
    decreases t, 1, 0
  {
    if !t.Empty? {
      KidsSorted(t, p, 0);
      KidsFurther(t, p, 0);
      SortedCons(Visit(p, t), Kids(t, p, 0));
    }
  }

  lemma SortedCons(v: Visit, vs: seq<Visit>)
    requires Sorted(vs) && forall w :: w in vs ==> Less(v.path, w.path)
    ensures Sorted([v] + vs)
  {
  }

  lemma SortedConcat(vs: seq<Visit>, ws: seq<Visit>)
    requires Sorted(vs) && Sorted(ws) && forall v, w :: v in vs && w in ws ==> Less(v.path, w.path)
    ensures Sorted(vs + ws)
  {
    var all := vs + ws;
    forall i, j | 0 <= i < j < |all| ensures Less(all[i].path, all[j].path) {
      if i < |vs| <= j { assert all[i] in vs && all[j] in ws; }
    }
  }

  lemma {:induction false} KidsSorted(t: Tree, p: seq<byte>, i: nat)
    requires Good(t)
    ensures Sorted(Kids(t, p, i))
    decreases t, 0, if t.Branch? then |t.children| - i else 0
  {
    match t
    case Ext(k, c) => if i == 0 { VisitsSorted(c, p + k); }
    case Branch(cs) =>
      if i < |cs| && i < 17 {
        VisitsSorted(cs[i], p + [i]);
        KidsSorted(t, p, i + 1);
        ChildBefore(t, p, i);
        SortedConcat(Visits(cs[i], p + [i]), Kids(t, p, i + 1));
      }
    case _ =>
  }

  /** Everything below a full node from child i on goes on with a nibble not below i. */
  lemma {:induction false} KidsFurther(t: Tree, p: seq<byte>, i: nat)
    requires Good(t)
    ensures forall v :: v in Kids(t, p, i) ==>
                Less(p, v.path) && (t.Branch? ==> |v.path| > |p| && p <= v.path && i <= v.path[|p|])
    decreases if t.Branch? then |t.children| - i else 0
  {
    match t
    case Ext(k, c) =>
      if i == 0 {
        VisitsUnder(c, p + k);
        forall v | v in Visits(c, p + k) ensures Less(p, v.path) { StepFurther(p, k, v.path); }
      }
    case Branch(cs) =>
      if i < |cs| && i < 17 {
        VisitsUnder(cs[i], p + [i]);
        forall v | v in Visits(cs[i], p + [i])
          ensures Less(p, v.path) && |v.path| > |p| && p <= v.path && v.path[|p|] == i
        {
          StepFurther(p, [i], v.path);
        }
        KidsFurther(t, p, i + 1);
      }
    case _ =>
  }

  lemma StepFurther(p: seq<byte>, k: seq<byte>, q: seq<byte>)
    requires p + k <= q && k != []
    ensures Less(p, q) && |q| > |p| && p <= q && q[|p|] == k[0]
  {
    PrefixTrans(p, k, q);
    assert q == p + q[|p|..];
    LessPrefix(p, q[|p|..]);
  }

  lemma ChildBefore(t: Tree, p: seq<byte>, i: nat)
    requires Good(t) && t.Branch? && i < |t.children| && i < 17
    ensures forall v, w :: v in Visits(t.children[i], p + [i]) && w in Kids(t, p, i + 1) ==> Less(v.path, w.path)
  {
    VisitsUnder(t.children[i], p + [i]);
    KidsFurther(t, p, i + 1);
    forall v, w | v in Visits(t.children[i], p + [i]) && w in Kids(t, p, i + 1) ensures Less(v.path, w.path) {
      StepFurther(p, [i], v.path);
      LessAt(v.path, w.path, p);
    }
  }

  lemma LessAt(a: seq<byte>, b: seq<byte>, p: seq<byte>)
    requires p <= a && p <= b && |a| > |p| && |b| > |p| && a[|p|] < b[|p|]
    ensures Less(a, b)
  {
    assert a == p + a[|p|..] && b == p + b[|p|..];
    LessFront(p, a[|p|..], b[|p|..]);
  }

  /** The whole iteration visits paths in strictly increasing order. */
  lemma AllSorted(t: Tree)
    requires Slot(t, false)
    ensures Sorted(All(t))
  {
    if t.Empty? {
      assert All(t) == [Visit([], t)];
    } else {
      VisitsSorted(t, []);
    }
  }

  // ----- leaves -----

  /** The values that are visited are those that are stored, under their paths. */
  lemma {:induction false} VisitsLeaf(t: Tree, p: seq<byte>, q: seq<byte>, v: seq<byte>)
    requires t.Empty? || Good(t)
    ensures Visit(p + q, Val(v)) in Visits(t, p) <==> v != [] && Lookup(t, q) == v
    decreases t, 1, 0
  {
    match t
    case Empty =>
    case Val(w) => assert Visits(t, p) == [Visit(p, t)]; assert p + q == p <==> q == [];
    case _ => KidsLeaf(t, p, 0, q, v);
  }

  lemma {:induction false} KidsLeaf(t: Tree, p: seq<byte>, i: nat, q: seq<byte>, v: seq<byte>)
    requires Norm(t)
    ensures Visit(p + q, Val(v)) in Kids(t, p, i) <==>
              v != [] && Lookup(t, q) == v && (t.Branch? ==> q[0] >= i) && (t.Ext? ==> i == 0)
    decreases t, 0, if t.Branch? then |t.children| - i else 0
  {
    match t
    case Ext(k, c) =>
      if i == 0 {
        if k <= q {
          assert p + q == (p + k) + q[|k|..];
          VisitsLeaf(c, p + k, q[|k|..], v);
        } else {
          NotUnder(c, p, k, q, v);
        }
      }
    case Branch(cs) =>
      if i < 17 {
        KidsLeaf(t, p, i + 1, q, v);
        if q != [] && q[0] == i {
          assert p + q == (p + [i]) + q[1..];
          VisitsLeaf(cs[i], p + [i], q[1..], v);
        } else {
          NotUnder(cs[i], p, [i], q, v);
        }
      }
  }

  lemma NotUnder(t: Tree, p: seq<byte>, k: seq<byte>, q: seq<byte>, v: seq<byte>)
    requires !(k <= q)
    ensures Visit(p + q, Val(v)) !in Visits(t, p + k)
  {
    VisitsUnder(t, p + k);
    if p + k <= p + q { FrontPrefix(p, k, q); }
  }

  lemma FrontPrefix(p: seq<byte>, k: seq<byte>, q: seq<byte>)
    requires p + k <= p + q
    ensures k <= q
  {
    assert q[..|k|] == (p + q)[|p|..|p + k|];
  }

  /** What is visited is in normal form, and a value is visited exactly where a path ends. */
  lemma {:induction false} VisitsShape(t: Tree, p: seq<byte>, v: Visit)
    requires v in Visits(t, p) && AllNibbles(p) && Norm(t)
    ensures Good(v.tree) && (v.tree.Val? <==> HasTerm(v.path)) && (v.tree.Val? ==> HexPath(v.path))
    decreases t, 1, 0
  {
    if v != Visit(p, t) { KidsShape(t, p, 0, v); }
  }

  lemma {:induction false} KidsShape(t: Tree, p: seq<byte>, i: nat, v: Visit)
    requires v in Kids(t, p, i) && AllNibbles(p) && Norm(t)
    ensures Good(v.tree) && (v.tree.Val? <==> HasTerm(v.path)) && (v.tree.Val? ==> HexPath(v.path))
    decreases t, 0, if t.Branch? then |t.children| - i else 0
  {
    match t
    case Ext(k, c) =>
      if c.Val? { LeafVisit(c, p, k); } else { VisitsShape(c, p + k, v); }
    case Branch(cs) =>
      if v in Visits(cs[i], p + [i]) {
        if i == 16 { LeafVisit(cs[i], p, [16]); } else { VisitsShape(cs[i], p + [i], v); }
      } else {
        KidsShape(t, p, i + 1, v);
      }
  }

  lemma LeafVisit(c: Tree, p: seq<byte>, k: seq<byte>)
    requires c.Val? && AllNibbles(p) && HexPath(k)
    ensures Visits(c, p + k) == [Visit(p + k, c)] && HexPath(p + k) && HasTerm(p + k)
  {
  }

  /** A leaf of the whole iteration is a stored path with its value. */
  lemma AllLeaf(t: Tree, v: Visit)
    requires Slot(t, false)
    ensures v in All(t) && v.tree.Val? <==> v.tree.Val? && v.tree.value != [] && Lookup(t, v.path) == v.tree.value
    ensures v in All(t) ==> (v.tree.Val? <==> HasTerm(v.path)) && (v.tree.Val? ==> HexPath(v.path))
  {
    if !t.Empty? {
      assert All(t) == Visits(t, []);
      if v.tree.Val? {
        assert [] + v.path == v.path;
        VisitsLeaf(t, [], v.path, v.tree.value);
      }
      if v in All(t) { VisitsShape(t, [], v); }
    }
  }
}
