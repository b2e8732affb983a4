/**
 The difference iterator (trie/iterator.go): the leaves of trie b that are not in
 trie a. It walks both tries side by side and skips subtrees with equal hashes.
 */
module TrieDifference {
  import opened Bytes
  import opened HexPrefix
  import opened TrieTree
  import opened TrieNode
  import opened TrieRep
  import opened TrieHasher
  import opened TrieUnique
  import opened PathOrder
  import opened TrieIterator
  import opened TrieWalk
  import opened TrieEntries
  import opened Trie
  import Ops = TrieOps

  // ----- differences of lists -----

  /** What is in bs and not in as0, in order. */
  function Minus(bs: seq<Leaf>, as0: seq<Leaf>): seq<Leaf>
  {
    if bs == [] then [] else (if bs[0] in as0 then [] else [bs[0]]) + Minus(bs[1..], as0)
  }

  function Diff(b: seq<Visit>, a: seq<Visit>): seq<Leaf> { Minus(Leaves(b), Leaves(a)) }

  lemma {:induction false} InMinus(bs: seq<Leaf>, as0: seq<Leaf>, l: Leaf)
    ensures l in Minus(bs, as0) <==> l in bs && l !in as0
  {
    if bs != [] {
      InMinus(bs[1..], as0, l);
      assert bs == [bs[0]] + bs[1..];
    }
  }

  lemma {:induction false} MinusConcat(x: seq<Leaf>, y: seq<Leaf>, as0: seq<Leaf>)
    ensures Minus(x + y, as0) == Minus(x, as0) + Minus(y, as0)
  {
    if x == [] {
      assert x + y == y;
    } else {
      assert (x + y)[1..] == x[1..] + y;
      MinusConcat(x[1..], y, as0);
    }
  }

  lemma {:induction false} MinusSame(bs: seq<Leaf>, a0: seq<Leaf>, a1: seq<Leaf>)
    requires forall l :: l in bs ==> (l in a0 <==> l in a1)
    ensures Minus(bs, a0) == Minus(bs, a1)
  {
    if bs != [] {
      assert bs[0] in bs;
      MinusSame(bs[1..], a0, a1);
    }
  }

  lemma {:induction false} MinusAll(bs: seq<Leaf>, as0: seq<Leaf>)
    requires forall l :: l in bs ==> l in as0
    ensures Minus(bs, as0) == []
  {
    if bs != [] {
      assert bs[0] in bs;
      MinusAll(bs[1..], as0);
    }
  }

  lemma {:induction false} LeavesConcat(x: seq<Visit>, y: seq<Visit>)
    ensures Leaves(x + y) == Leaves(x) + Leaves(y)
  {
    hide Leaves;
    if x == [] {
      LeavesNone();
      assert x + y == y;
    } else {
      var rest := x[1..];
      LeavesConcat(rest, y);
      LeavesNext(x[0], rest);
      LeavesNext(x[0], rest + y);
      assert x == [x[0]] + rest && x + y == [x[0]] + (rest + y);
    }
  }

  /** No leaf of b is among the nodes x. */
  ghost predicate Apart(x: seq<Visit>, b: seq<Visit>)
  {
    forall v :: v in x && v in b ==> !v.tree.Val?
  }

  /** Nodes of a that share no leaf with b do not matter. */
  lemma DiffApart(x: seq<Visit>, b: seq<Visit>, a: seq<Visit>)
    requires Apart(x, b)
    ensures Diff(b, x + a) == Diff(b, a)
  {
    hide Leaves, Minus;
    LeavesConcat(x, a);
    forall l | l in Leaves(b) ensures l in Leaves(x + a) <==> l in Leaves(a) {
      InLeaves(b, l);
      InLeaves(x, l);
      assert l in Leaves(x) + Leaves(a) <==> l in Leaves(x) || l in Leaves(a);
    }
    MinusSame(Leaves(b), Leaves(x + a), Leaves(a));
  }

  /** Nodes of b whose leaves are all in a are left out. */
  lemma DiffDrop(y: seq<Visit>, b: seq<Visit>, a: seq<Visit>)
    requires forall v :: v in y && v.tree.Val? ==> v in a
    ensures Diff(y + b, a) == Diff(b, a)
  {
    hide Leaves, Minus;
    LeavesConcat(y, b);
    MinusConcat(Leaves(y), Leaves(b), Leaves(a));
    forall l | l in Leaves(y) ensures l in Leaves(a) {
      InLeaves(y, l);
      InLeaves(a, l);
    }
    MinusAll(Leaves(y), Leaves(a));
  }

  /** Nodes of b none of whose leaves is in a are kept. */
  lemma {:induction false} DiffKeep(v: Visit, b: seq<Visit>, a: seq<Visit>)
    requires v.tree.Val? ==> v !in a
    ensures Diff([v] + b, a) == (if v.tree.Val? then [Leaf(v.path, v.tree.value)] else []) + Diff(b, a)
  {
    hide Minus;
    LeavesNext(v, b);
    if v.tree.Val? {
      var l := Leaf(v.path, v.tree.value);
      InLeaves(a, l);
      MinusConcat([l], Leaves(b), Leaves(a));
      MinusOne(l, Leaves(a));
    } else {
      assert Leaves([v] + b) == Leaves(b);
    }
  }

  lemma MinusOne(l: Leaf, as0: seq<Leaf>)
    requires l !in as0
    ensures Minus([l], as0) == [l]
  {
  }

  // ----- one step on sorted lists -----

  /** a is behind, or at the same place with something else: it is passed over. */
  lemma PassA(va: Visit, a: seq<Visit>, vb: Visit, b: seq<Visit>)
    requires Sorted([vb] + b) && !Less(vb.path, va.path) && (va.tree.Val? ==> va != vb)
    ensures Diff([vb] + b, [va] + a) == Diff([vb] + b, a)
  {
    hide Leaves, Minus, Less;
    if va in [vb] + b { SortedFront(vb, b, va); }
    DiffApart([va], [vb] + b, a);
  }

  lemma SortedFront(v: Visit, vs: seq<Visit>, w: Visit)
    requires Sorted([v] + vs) && w in [v] + vs && !Less(v.path, w.path)
    ensures w == v
  {
    hide Less;
    var all := [v] + vs;
    var i :| 0 <= i < |all| && all[i] == w;
    assert all[0] == v;
  }

  /** b is behind, or at the same place with something else: it is shown. */
  lemma ShowB(vb: Visit, b: seq<Visit>, a: seq<Visit>)
    requires Sorted(a) && (a == [] || (!Less(a[0].path, vb.path) && (vb.tree.Val? ==> vb != a[0])))
    ensures Diff([vb] + b, a) == (if vb.tree.Val? then [Leaf(vb.path, vb.tree.value)] else []) + Diff(b, a)
  {
    hide Leaves, Minus, Less;
    if a != [] && vb in a {
      assert a == [a[0]] + a[1..];
      if vb.tree.Val? { SortedFront(a[0], a[1..], vb); }
    }
    DiffKeep(vb, b, a);
  }

  /** Both at the same node: neither it nor what is equal below it is shown. */
  lemma PassBoth(va: Visit, a: seq<Visit>, vb: Visit, b: seq<Visit>, kids: seq<Visit>)
    requires Sorted([vb] + kids + b) && va.path == vb.path && (va.tree.Val? || vb.tree.Val? ==> va == vb)
    ensures Diff([vb] + kids + b, [va] + kids + a) == Diff(b, a)
  {
    hide Leaves, Minus, Less;
    var y, x := [vb] + kids, [va] + kids;
    forall v | v in y && v.tree.Val? ensures v in x + a { }
    DiffDrop(y, b, x + a);
    forall v | v in x && v in b ensures !v.tree.Val? {
      if v in y { SortedApart(y, b, v); }
    }
    DiffApart(x, b, a);
  }

  lemma SortedApart(y: seq<Visit>, b: seq<Visit>, v: Visit)
    requires Sorted(y + b) && v in y
    ensures v !in b
  {
    hide Less;
    var i :| 0 <= i < |y| && y[i] == v;
    LessIrreflexive(v.path);
    forall j | 0 <= j < |b| ensures b[j] != v {
      assert Less((y + b)[i].path, (y + b)[|y| + j].path);
    }
  }

  lemma LessIrreflexive(p: seq<byte>)
    ensures !Less(p, p)
  {
    var c := Compare(p, p);
  }

  // ----- where an iterator stands -----

  ghost function Top(it: NodeIterator): Tree
    requires it.trees != []
    reads it
  {
    it.trees[|it.trees| - 1]
  }

  /** The current node and all that is ahead; nothing at the end. */
  ghost function Here(it: NodeIterator): seq<Visit>
    requires it.Valid() && |it.trees| == |it.stack|
    reads it
  {
    if it.stack == [] then [] else [Visit(it.path, Top(it))] + it.Ahead(true)
  }

  /** The iterator stands at a node of its trie just reached. */
  ghost predicate At(it: NodeIterator)
    reads it
  {
    && it.Valid() && it.stack != [] && |it.trees| == |it.stack| && it.err.NoError?
    && it.Ahead(true) == Kids(Top(it), it.path, 0) + it.Ahead(false)
    && Within(Here(it), it.tree) && Sorted(Here(it))
  }

  ghost predicate AtOrEnd(it: NodeIterator)
    reads it
  {
    if it.stack == [] then it.Valid() && it.trees == [] && it.err.End? else At(it)
  }

  lemma Moved(it: NodeIterator, ok: bool, ahead: seq<Visit>)
    requires it.Valid() && NextOk(it, ok, ahead) && Sorted(ahead) && Within(ahead, it.tree)
    ensures ok ==> At(it) && Here(it) == ahead
    ensures !ok && !it.err.Failed? ==> AtOrEnd(it) && ahead == [] && it.Ahead(true) == []
    ensures !ok ==> Sorted(it.Ahead(true)) && Within(it.Ahead(true), it.tree) && !it.err.SeekFailed?
  {
    hide Rep, Sound, HashFits, FrameOk, All, Kids, Sorted, Left, Skipped;
    SortedNone();
    if it.err.End? { EmptyStack(it.stack, it.trees, it.path, it.env); }
  }

  /** What can be seen of a node: path, hash, and the value of a leaf. */
  datatype Spot = Spot(path: seq<byte>, hash: Hash, blob: seq<byte>)

  function SpotOf(it: NodeIterator): Spot
    reads it
  {
    if it.stack == [] then Spot(it.path, ZeroHash(), [])
    else
      var top := it.stack[|it.stack| - 1];
      Spot(it.path, top.hash, if top.node.Value? then top.node.value else [])
  }

  /** compareNodes */
  function CompareNodes(a: Spot, b: Spot): (c: int)
    ensures c == -1 || c == 0 || c == 1
  {
    if Compare(a.path, b.path) != 0 then Compare(a.path, b.path)
    else if HasTerm(a.path) && !HasTerm(b.path) then -1
    else if HasTerm(b.path) && !HasTerm(a.path) then 1
    else if Compare(a.hash, b.hash) != 0 then Compare(a.hash, b.hash)
    else if HasTerm(a.path) && HasTerm(b.path) then Compare(a.blob, b.blob)
    else 0
  }

  ghost predicate SpotFits(h: Hasher, s: Spot, v: Visit)
  {
    && s.path == v.path && HashFits(h, s.hash, v.tree)
    && (HasTerm(s.path) <==> v.tree.Val?) && (v.tree.Val? ==> s.blob == v.tree.value)
  }

  lemma SpotAt(it: NodeIterator)
    requires At(it)
    ensures SpotFits(it.env.h, SpotOf(it), Visit(it.path, Top(it))) && Visit(it.path, Top(it)) in All(it.tree)
  {
    hide All, Rep, Bounded, Norm, Kids, Sorted, Rest, Placed, Left, Skipped, HashFits;
    var t := Top(it);
    assert Here(it)[0] == Visit(it.path, t);
    AllLeaf(it.tree, Visit(it.path, t));
    var top := it.stack[|it.stack| - 1];
    assert FrameOk(it.env, top, t, |it.stack| == 1);
    if t.Val? { ValueNode(it.env, top.node, t, |it.stack| == 1); }
  }

  /** What a comparison says about the nodes compared. */
  lemma Compared(h: Hasher, a: Spot, b: Spot, va: Visit, vb: Visit)
    requires SpotFits(h, a, va) && SpotFits(h, b, vb)
    ensures CompareNodes(a, b) == -1 ==> !Less(vb.path, va.path) && (va.tree.Val? ==> va != vb)
    ensures CompareNodes(a, b) == 1 ==> !Less(va.path, vb.path) && (vb.tree.Val? ==> va != vb)
    ensures CompareNodes(a, b) == 0 ==>
              va.path == vb.path && a.hash == b.hash && (va.tree.Val? || vb.tree.Val? ==> va == vb)
  {
    hide HashFits, HasTerm, Less;
    LessIrreflexive(va.path);
    LessAsymmetric(va.path, vb.path);
    if va.tree.Val? && vb.tree.Val? { LessIrreflexive(va.tree.value); NoLeafHash(h, a, va); NoLeafHash(h, b, vb); }
  }

  lemma NoLeafHash(h: Hasher, s: Spot, v: Visit)
    requires SpotFits(h, s, v) && v.tree.Val?
    ensures s.hash == ZeroHash()
  {
    hide ZeroHash, HasTerm;
  }

  lemma LessAsymmetric(p: seq<byte>, q: seq<byte>)
    ensures !(Less(p, q) && Less(q, p))
  {
    var c := Compare(p, q);
  }

  // ----- equal hashes -----

  ghost predicate KnownRoot(h: Hasher, encs: set<seq<byte>>, t: Tree) { t.Empty? || Known(h, encs, t) }

  lemma {:induction false} VisitsKnown(h: Hasher, encs: set<seq<byte>>, t: Tree, p: seq<byte>, v: Visit)
    requires Known(h, encs, t) && v in Visits(t, p) && Inner(v.tree)
    ensures Known(h, encs, v.tree)
    decreases t, 1, 0
  {
    hide Known;
    if v != Visit(p, t) { KidsKnown(h, encs, t, p, 0, v); }
  }

  lemma {:induction false} KidsKnown(h: Hasher, encs: set<seq<byte>>, t: Tree, p: seq<byte>, i: nat, v: Visit)
    requires Known(h, encs, t) && v in Kids(t, p, i) && Inner(v.tree)
    ensures Known(h, encs, v.tree)
    decreases t, 0, if t.Branch? then |t.children| - i else 0
  {
    hide Known, Kids, Visits;
    KidsStep(t, p, i, v);
    match t
    case Ext(k, c) =>
      KnownExt(h, encs, k, c);
      NoInnerLeaf(c, p + k, v);
      VisitsKnown(h, encs, c, p + k, v);
    case Branch(cs) =>
      KnownBranch(h, encs, cs, i);
      if v in Visits(cs[i], p + [i]) {
        NoInnerLeaf(cs[i], p + [i], v);
        VisitsKnown(h, encs, cs[i], p + [i], v);
      } else {
        KidsKnown(h, encs, t, p, i + 1, v);
      }
  }

  lemma KidsStep(t: Tree, p: seq<byte>, i: nat, v: Visit)
    requires v in Kids(t, p, i)
    ensures Inner(t)
    ensures t.Ext? ==> i == 0 && v in Visits(t.child, p + t.key)
    ensures t.Branch? ==> i < 17 && i < |t.children| && (v in Visits(t.children[i], p + [i]) || v in Kids(t, p, i + 1))
  {
  }

  lemma NoInnerLeaf(c: Tree, p: seq<byte>, v: Visit)
    requires v in Visits(c, p) && Inner(v.tree)
    ensures Inner(c)
  {
  }

  lemma AllKnown(h: Hasher, encs: set<seq<byte>>, t: Tree, v: Visit)
    requires KnownRoot(h, encs, t) && v in All(t) && Inner(v.tree)
    ensures Known(h, encs, v.tree)
  {
    hide Known;
    if !t.Empty? { VisitsKnown(h, encs, t, [], v); }
  }

  /** Nodes at the same place with the same hash are the same node. */
  lemma SameSpot(h: Hasher, encs: set<seq<byte>>, ta: Tree, tb: Tree, va: Visit, vb: Visit, x: Hash)
    requires Distinct(h, encs) && KnownRoot(h, encs, ta) && KnownRoot(h, encs, tb) && va in All(ta) && vb in All(tb)
    requires HashFits(h, x, va.tree) && HashFits(h, x, vb.tree) && x != ZeroHash()
    ensures va.tree == vb.tree
  {
    hide Known, All, ZeroHash, HashOf;
    AllKnown(h, encs, ta, va);
    AllKnown(h, encs, tb, vb);
    SameHash(h, encs, va.tree, vb.tree);
  }

  // ----- two iterators side by side -----

  /** The current node and what is ahead of it, what is ahead beyond the nodes below it, and what can be seen of it. */
  datatype Stand = Stand(here: seq<Visit>, ahead: seq<Visit>, beyond: seq<Visit>, spot: Spot)

  ghost function StandOf(it: NodeIterator): Stand
    requires it.Valid() && |it.trees| == |it.stack|
    reads it
  {
    Stand(Here(it), it.Ahead(true), it.Ahead(false), SpotOf(it))
  }

  ghost predicate StandOk(h: Hasher, t: Tree, s: Stand)
  {
    if s.here == [] then s == Stand([], [], [], Spot([], ZeroHash(), []))
    else
      var v := s.here[0];
      && s.here == [v] + s.ahead && s.ahead == Kids(v.tree, v.path, 0) + s.beyond
      && SpotFits(h, s.spot, v) && Sorted(s.here) && Within(s.here, t)
  }

  lemma AtStand(it: NodeIterator)
    requires AtOrEnd(it)
    ensures it.Valid() && |it.trees| == |it.stack| && StandOk(it.env.h, it.tree, StandOf(it))
    ensures it.stack == [] <==> StandOf(it).here == []
  {
    hide Rep, Sound, HashFits, All, Kids, Sorted, Left, Skipped, Walking, Within, ZeroHash, SpotFits;
    if it.stack == [] {
      EmptyStack(it.stack, it.trees, it.path, it.env);
    } else {
      SpotAt(it);
      assert Here(it)[0] == Visit(it.path, Top(it));
    }
  }

  /** What is ahead is in order too, and within the trie. */
  lemma Tails(h: Hasher, t: Tree, s: Stand)
    requires StandOk(h, t, s)
    ensures Sorted(s.ahead) && Sorted(s.beyond) && Within(s.ahead, t) && Within(s.beyond, t)
    ensures |s.beyond| <= |s.ahead| && (s.here != [] ==> |s.ahead| < |s.here|)
  {
    hide All, Kids, Sorted, SpotFits;
    SortedNone();
    if s.here != [] {
      SortedSuffix(s.here[..1], s.ahead);
      SortedSuffix(Kids(s.here[0].tree, s.here[0].path, 0), s.beyond);
    }
  }

  function LeafOf(v: Visit): seq<Leaf> { if v.tree.Val? then [Leaf(v.path, v.tree.value)] else [] }

  lemma DiffNothing(a: seq<Visit>)
    ensures Diff([], a) == []
  {
  }

  lemma SortedNone()
    ensures Sorted([])
  {
  }

  /** The current node of b is shown if nothing is left of a. */
  lemma Shown(h: Hasher, t: Tree, b: Stand)
    requires StandOk(h, t, b) && b.here != []
    ensures Diff(b.here, []) == LeafOf(b.here[0]) + Diff(b.ahead, [])
  {
    hide Kids, SpotFits, Diff, Less, Within;
    SortedNone();
    ShowB(b.here[0], b.ahead, []);
  }

  /** b is before a. */
  lemma BehindA(h: Hasher, ta: Tree, tb: Tree, a: Stand, b: Stand)
    requires StandOk(h, ta, a) && StandOk(h, tb, b) && b.here != [] && CompareNodes(a.spot, b.spot) == 1
    ensures Diff(b.here, a.here) == LeafOf(b.here[0]) + Diff(b.ahead, a.here)
  {
    hide Kids, SpotFits, Diff, Less, Within, Sorted, CompareNodes;
    if a.here != [] {
      Compared(h, a.spot, b.spot, a.here[0], b.here[0]);
    } else {
      SortedNone();
    }
    ShowB(b.here[0], b.ahead, a.here);
  }

  /** b has gone past a. */
  lemma PastA(h: Hasher, ta: Tree, tb: Tree, a: Stand, b: Stand)
    requires StandOk(h, ta, a) && StandOk(h, tb, b) && b.here != [] && CompareNodes(a.spot, b.spot) == -1
    ensures Diff(b.here, a.here) == Diff(b.here, a.ahead)
  {
    hide Kids, SpotFits, Diff, Less, Within, Sorted, CompareNodes;
    if a.here != [] {
      Compared(h, a.spot, b.spot, a.here[0], b.here[0]);
      PassA(a.here[0], a.ahead, b.here[0], b.ahead);
    }
  }

  /** Both stand at the same node: it is passed in both, with all that is below it if it has a hash. */
  lemma SameAsA(h: Hasher, encs: set<seq<byte>>, ta: Tree, tb: Tree, a: Stand, b: Stand)
    requires StandOk(h, ta, a) && StandOk(h, tb, b) && b.here != [] && CompareNodes(a.spot, b.spot) == 0
    requires Distinct(h, encs) && KnownRoot(h, encs, ta) && KnownRoot(h, encs, tb)
    ensures if a.spot.hash == ZeroHash() then Diff(b.here, a.here) == Diff(b.ahead, a.ahead)
            else Diff(b.here, a.here) == Diff(b.beyond, a.beyond)
  {
    hide *;
    StandFacts(h, tb, b);
    if a.here == [] {
      NotLeaf(h, ta, a, b.spot, b.here[0]);
      Shown(h, tb, b);
    } else {
      StandFacts(h, ta, a);
      Compared(h, a.spot, b.spot, a.here[0], b.here[0]);
      if a.spot.hash == ZeroHash() {
        PassBoth(a.here[0], a.ahead, b.here[0], b.ahead, []);
      } else {
        SpotHash(h, a.spot, a.here[0]);
        SpotHash(h, b.spot, b.here[0]);
        SameSpot(h, encs, ta, tb, a.here[0], b.here[0], a.spot.hash);
        PassBoth(a.here[0], a.beyond, b.here[0], b.beyond, Kids(a.here[0].tree, a.here[0].path, 0));
      }
    }
  }

  lemma StandFacts(h: Hasher, t: Tree, s: Stand)
    requires StandOk(h, t, s) && s.here != []
    ensures var v := s.here[0];
            && [v] + [] + s.ahead == s.here && [v] + Kids(v.tree, v.path, 0) + s.beyond == s.here
            && SpotFits(h, s.spot, v) && Sorted(s.here) && v in All(t)
  {
    hide Kids, SpotFits, Sorted, All;
  }

  lemma SpotHash(h: Hasher, s: Spot, v: Visit)
    requires SpotFits(h, s, v)
    ensures HashFits(h, s.hash, v.tree)
  {
    hide HashFits;
  }

  lemma NotLeaf(h: Hasher, t: Tree, a: Stand, b: Spot, v: Visit)
    requires StandOk(h, t, a) && a.here == [] && SpotFits(h, b, v) && CompareNodes(a.spot, b) == 0
    ensures a.spot.hash == ZeroHash() && a.ahead == [] && LeafOf(v) == []
  {
    hide ZeroHash, HashFits;
  }

  // ----- the iterator -----

  class DifferenceIterator {
    const a: NodeIterator
    const b: NodeIterator
    var eof: bool
    var count: nat
    ghost const encs: set<seq<byte>>

    ghost predicate Valid()
      reads this, a, b
    {
      && a != b && a.Valid() && b.Valid() && a.env.h == b.env.h
      && !a.err.SeekFailed? && !b.err.SeekFailed?
      && (!eof && !a.err.Failed? ==> AtOrEnd(a))
      && Sorted(b.Ahead(true)) && Within(b.Ahead(true), b.tree)
      && Distinct(a.env.h, encs) && KnownRoot(a.env.h, encs, a.tree) && KnownRoot(a.env.h, encs, b.tree)
    }

    /** What is left of a. */
    ghost function LeftA(): seq<Visit>
      requires Valid() && !a.err.Failed?
      reads this, a, b
    {
      if eof then [] else Here(a)
    }

    /** NewDifferenceIterator */
    constructor (a: NodeIterator, b: NodeIterator, ghost encs: set<seq<byte>>)
      requires a != b && a.Valid() && b.Valid() && a.env.h == b.env.h
      requires (a.err.NoError? || a.err.End?) && (b.err.NoError? || b.err.End?)
      requires Sorted(a.Ahead(true)) && Within(a.Ahead(true), a.tree) && Sorted(b.Ahead(true)) &&
               Within(b.Ahead(true), b.tree)
      requires Distinct(a.env.h, encs) && KnownRoot(a.env.h, encs, a.tree) && KnownRoot(a.env.h, encs, b.tree)
      modifies a
      ensures Valid() && this.a == a && this.b == b && b.Ahead(true) == old(b.Ahead(true)) && b.err == old(b.err)
      ensures if a.err.Failed? then Ops.OnlyMissing(a.env, a.err.error) else LeftA() == old(a.Ahead(true))
    {
      hide Rep, Sound, HashFits, FrameOk, All, Kids, Sorted, Left, Skipped, Within, Distinct, KnownRoot, Walking,
           Ops.OnlyMissing;
      ghost var ahead := a.Ahead(true);
      var ok := a.Next(true);
      this.a, this.b, this.encs := a, b, encs;
      eof, count := false, 0;
      new;
      Moved(a, ok, ahead);
    }

    ghost predicate NextDiff(ok: bool, bl: seq<Visit>, al: seq<Visit>)
      requires Valid() && !a.err.Failed?
      reads this, a, b
    {
      if ok then
        At(b) && |b.Ahead(true)| < |bl| && Diff(bl, al) == LeafOf(Visit(b.path, Top(b))) + Diff(b.Ahead(true), LeftA())
      else Diff(bl, al) == []
    }

    /** Moves b on. */
    method AdvanceB(descend: bool) returns (ok: bool)
      requires Valid() && !b.err.Failed? && Sorted(b.Ahead(descend)) && Within(b.Ahead(descend), b.tree)
      modifies this`count, b
      ensures Valid()
      ensures ok ==> At(b) && Here(b) == old(b.Ahead(descend))
      ensures !ok && !b.err.Failed? ==> old(b.Ahead(descend)) == []
      ensures b.err.Failed? ==> Ops.OnlyMissing(b.env, b.err.error)
    {
      hide Rep, Sound, HashFits, FrameOk, All, Kids, Sorted, Left, Skipped, Within, Distinct, KnownRoot, Walking,
           Ops.OnlyMissing;
      ghost var ahead := b.Ahead(descend);
      ok := b.Next(descend);
      Moved(b, ok, ahead);
      if ok {
        count := count + 1;
        AtStand(b);
        Tails(b.env.h, b.tree, StandOf(b));
      }
    }

    /** Moves a on, or notes that it has ended. */
    method AdvanceA(descend: bool) returns (ok: bool)
      requires Valid() && !eof && !a.err.Failed? && Sorted(a.Ahead(descend)) && Within(a.Ahead(descend), a.tree)
      modifies this`count, this`eof, a
      ensures Valid() && eof == !ok
      ensures ok ==> At(a) && Here(a) == old(a.Ahead(descend))
      ensures !ok && !a.err.Failed? ==> old(a.Ahead(descend)) == []
      ensures a.err.Failed? ==> Ops.OnlyMissing(a.env, a.err.error)
    {
      hide Rep, Sound, HashFits, FrameOk, All, Kids, Sorted, Left, Skipped, Within, Distinct, KnownRoot, Walking,
           Ops.OnlyMissing;
      ghost var ahead := a.Ahead(descend);
      ok := a.Next(descend);
      Moved(a, ok, ahead);
      if ok { count := count + 1; } else { eof := true; }
    }

    /** What Next looks at in its loop: neither has ended, and no leaf of the difference has been passed. */
    ghost predicate Level(bl: seq<Visit>, al: seq<Visit>)
      reads this, a, b
    {
      Valid() && !eof && !a.err.Failed? && At(b) && |Here(b)| <= |bl| && Diff(bl, al) == Diff(Here(b), Here(a))
    }

    /** What Next promises, with the nodes that were ahead before it. */
    ghost predicate Arrived(ok: bool, bl: seq<Visit>, al: seq<Visit>)
      reads this, a, b
    {
      && Valid() && (!a.err.Failed? && !b.err.Failed? ==> NextDiff(ok, bl, al))
      && (a.err.Failed? ==> Ops.OnlyMissing(a.env, a.err.error))
      && (b.err.Failed? ==> Ops.OnlyMissing(b.env, b.err.error))
    }

    ghost function Remaining(): nat
      reads this, a, b
    {
      if At(b) && AtOrEnd(a) then |Here(b)| + |Here(a)| else 0
    }

    /** Both stand at the same node: both move on, past all that is below it if it has a hash. */
    method Together(ghost bl: seq<Visit>, ghost al: seq<Visit>) returns (ok: bool, done: bool)
      requires Level(bl, al) && CompareNodes(SpotOf(a), SpotOf(b)) == 0
      modifies this`eof, this`count, a, b
      ensures if done then Arrived(ok, bl, al) else Level(bl, al) && Remaining() < old(Remaining())
    {
      hide Rep, Sound, HashFits, FrameOk, All, Kids, Sorted, Left, Skipped, Within, Distinct, KnownRoot, Walking,
           Ops.OnlyMissing, CompareNodes, Leaves, Minus, SpotOf, StandOk, Diff, LeafOf, ZeroHash, HasTerm;
      var descend := SpotOf(a).hash == ZeroHash();
      Beside(this, bl, al, descend);
      DiffNothing(a.Ahead(descend));
      ok := AdvanceB(descend);
      if !ok { return false, true; }
      AtStand(b);
      Shown(b.env.h, b.tree, StandOf(b));
      ok := AdvanceA(descend);
      return true, !ok;
    }

    /** One round of the loop in Next. */
    method Round(ghost bl: seq<Visit>, ghost al: seq<Visit>) returns (ok: bool, done: bool)
      requires Level(bl, al)
      modifies this`eof, this`count, a, b
      ensures if done then Arrived(ok, bl, al) else Level(bl, al) && Remaining() < old(Remaining())
    {
      hide Rep, Sound, HashFits, FrameOk, All, Kids, Sorted, Left, Skipped, Within, Distinct, KnownRoot, Walking,
           Ops.OnlyMissing, CompareNodes, Leaves, Minus, SpotOf, StandOk, Diff, LeafOf, ZeroHash, HasTerm;
      var c := CompareNodes(SpotOf(a), SpotOf(b));
      AtStand(a);
      AtStand(b);
      Tails(a.env.h, a.tree, StandOf(a));
      Tails(b.env.h, b.tree, StandOf(b));
      Shown(b.env.h, b.tree, StandOf(b));
      if c == 1 {
        BehindA(a.env.h, a.tree, b.tree, StandOf(a), StandOf(b));
        return true, true;
      } else if c == -1 {
        PastA(a.env.h, a.tree, b.tree, StandOf(a), StandOf(b));
        ok := AdvanceA(true);
        return true, !ok;
      } else {
        ok, done := Together(bl, al);
      }
    }

    /** Next: to the next node of b that is not in a. Every leaf passed on the way is in a. */
    method Next() returns (ok: bool)
      requires Valid() && !a.err.Failed? && !b.err.Failed?
      modifies this`eof, this`count, a, b
      ensures Valid()
      ensures !a.err.Failed? && !b.err.Failed? ==> NextDiff(ok, old(b.Ahead(true)), old(LeftA()))
      ensures a.err.Failed? ==> Ops.OnlyMissing(a.env, a.err.error)
      ensures b.err.Failed? ==> Ops.OnlyMissing(b.env, b.err.error)
    {
      hide Rep, Sound, HashFits, FrameOk, All, Kids, Sorted, Left, Skipped, Within, Distinct, KnownRoot, Walking,
           Ops.OnlyMissing, Leaves, Minus, StandOk, Diff, LeafOf, Remaining;
      ghost var bl, al := b.Ahead(true), LeftA();
      DiffNothing(al);
      ok := AdvanceB(true);
      if !ok { return; }
      AtStand(b);
      Shown(b.env.h, b.tree, StandOf(b));
      if eof { return true; }
      var done := false;
      while !done
        invariant if done then Arrived(ok, bl, al) else Level(bl, al)
        decreases !done, Remaining()
      {
        ok, done := Round(bl, al);
      }
    }
  }

  /** Where both stand at the same node, the difference is that of what lies behind it. */
  lemma Beside(it: DifferenceIterator, bl: seq<Visit>, al: seq<Visit>, descend: bool)
    requires it.Level(bl, al) && CompareNodes(SpotOf(it.a), SpotOf(it.b)) == 0
    requires descend == (SpotOf(it.a).hash == ZeroHash())
    ensures Diff(bl, al) == Diff(it.b.Ahead(descend), it.a.Ahead(descend))
    ensures Sorted(it.a.Ahead(descend)) && Within(it.a.Ahead(descend), it.a.tree)
    ensures Sorted(it.b.Ahead(descend)) && Within(it.b.Ahead(descend), it.b.tree)
    ensures |it.b.Ahead(descend)| < |Here(it.b)| && |it.a.Ahead(descend)| <= |Here(it.a)|
  {
    hide Rep, Sound, HashFits, FrameOk, All, Kids, Sorted, Left, Skipped, Within, Distinct, KnownRoot, Walking,
         CompareNodes, Leaves, Minus, SpotOf, StandOk, Diff, LeafOf, ZeroHash, HasTerm;
    AtStand(it.a);
    AtStand(it.b);
    Tails(it.a.env.h, it.a.tree, StandOf(it.a));
    Tails(it.b.env.h, it.b.tree, StandOf(it.b));
    SameAsA(it.a.env.h, it.encs, it.a.tree, it.b.tree, StandOf(it.a), StandOf(it.b));
  }

  // ----- a whole run -----

  lemma NoMissing(env: Env, e: IterError)
    requires env.strict && (e.Failed? ==> Ops.OnlyMissing(env, e.error))
    ensures !e.Failed?
  {
  }

  /** Nothing was missing so far, and nothing will be. */
  ghost predicate Going(it: DifferenceIterator)
    reads it, it.a, it.b
  {
    it.Valid() && !it.a.err.Failed? && !it.b.err.Failed? && it.a.env.strict && it.b.env.strict
  }

  /** The leaves still to come. */
  ghost function ToCome(it: DifferenceIterator): seq<Leaf>
    reads it, it.a, it.b
  {
    if Going(it) then Diff(it.b.Ahead(true), it.LeftA()) else []
  }

  ghost function Nodes(it: DifferenceIterator): nat
    reads it, it.a, it.b
  {
    if Going(it) then |it.b.Ahead(true)| else 0
  }

  /** One call of Next, and noting the leaf it stands on. */
  method Visited(it: DifferenceIterator, es: seq<Entry>, ghost content: Map) returns (ok: bool, r: seq<Entry>)
    requires Going(it) && Stores(it.b.tree, content)
    modifies it`eof, it`count, it.a, it.b
    ensures Going(it)
    ensures !ok ==> old(ToCome(it)) == [] && r == es
    ensures ok ==> Paths(es) + old(ToCome(it)) == Paths(r) + ToCome(it) && Nodes(it) < old(Nodes(it))
  {
    hide Rep, Sound, HashFits, FrameOk, All, Kids, Sorted, Left, Skipped, Within, Distinct, KnownRoot, Walking,
         Ops.OnlyMissing,
         Diff, LeafOf, HasTerm, KeyHex, HexKey, Paths, Stores, At, AtOrEnd, Here;
    ok := it.Next();
    NoMissing(it.a.env, it.a.err);
    NoMissing(it.b.env, it.b.err);
    r := es;
    if ok { r := Note(it.b, es, content); }
  }

  /** Calling Next until it returns false, and noting the leaves. */
  method Collect(it: DifferenceIterator, ghost content: Map) returns (es: seq<Entry>)
    requires Going(it) && Stores(it.b.tree, content)
    modifies it`eof, it`count, it.a, it.b
    ensures Paths(es) == old(ToCome(it))
  {
    hide *;
    es := [];
    PathsNone();
    var ok := true;
    ghost var all := ToCome(it);
    while ok
      invariant Going(it)
      invariant all == Paths(es) + if ok then ToCome(it) else []
      decreases ok, Nodes(it)
    {
      ok, es := Visited(it, es, content);
    }
  }

  /** Adds the entry the iterator stands on, if that is a leaf. */
  method Note(it: NodeIterator, es: seq<Entry>, ghost content: Map) returns (r: seq<Entry>)
    requires At(it) && Stores(it.tree, content)
    ensures it.trees != [] && Paths(r) == Paths(es) + LeafOf(Visit(it.path, Top(it)))
  {
    hide *;
    LeafAt(it, content);
    r := es;
    if HasTerm(it.path) {
      var e := Entry(HexKey(it.path), it.stack[|it.stack| - 1].node.value);
      PathsSnoc(es, e);
      r := es + [e];
    }
  }

  lemma LeafAt(it: NodeIterator, m: Map)
    requires At(it) && Stores(it.tree, m)
    ensures it.stack != [] && it.trees != []
    ensures HasTerm(it.path) ==>
              && IsHex(it.path) && |Bare(it.path)| % 2 == 0 && it.stack[|it.stack| - 1].node.Value?
              && LeafOf(Visit(it.path, Top(it))) == [Leaf(KeyHex(HexKey(it.path)), it.stack[|it.stack| - 1].node.value)]
    ensures !HasTerm(it.path) ==> LeafOf(Visit(it.path, Top(it))) == []
  {
    hide All, Rep, Sound, Kids, Sorted, Rest, Placed, Left, Skipped, HashFits, Stores, HasTerm, KeyHex, HexKey, Walking,
         Bare, IsHex;
    assert Here(it)[0] == Visit(it.path, Top(it));
    LeafHere(it, m);
  }

  /** An iterator on a trie that lacks no node. */
  method Standing(t: Trie, start: seq<byte>, ghost encs: set<seq<byte>>) returns (it: NodeIterator)
    requires t.Valid() && t.strict && RootHash(t.h, t.tree) != EmptyState(t.h) && Encs(t.h, t.tree) <= encs
    modifies t`root
    ensures fresh(it) && it.Valid() && t.Valid() && it.env == t.Ambient() && it.tree == t.tree
    ensures (it.err.NoError? || it.err.End?) && it.Ahead(true) == Above(All(t.tree), SeekKey(start))
    ensures KnownRoot(t.h, encs, t.tree) && Sorted(it.Ahead(true)) && Within(it.Ahead(true), t.tree)
    ensures Sound(t.tree, false) && Stores(t.tree, t.content)
  {
    hide Intact, All, Above, SeekKey, Rep, Sound, EmptyState, RootHash, Less, Ops.OnlyMissing, Stores, Walking, HashFits,
         Left, Skipped, Within, KnownRoot, Encs, Sorted;
    it := NewNodeIterator(t, start);
    NoSeekError(it.env, it.err);
    KnownTrie(t.Ambient(), t.root, t.tree, t.content, encs, SeekKey(start));
  }

  /** The difference iterator before its first step. */
  method Opened(a: Trie, b: Trie, start: seq<byte>, ghost encs: set<seq<byte>>) returns (it: DifferenceIterator)
    requires a != b && a.Valid() && b.Valid() && a.strict && b.strict && a.h == b.h
    requires RootHash(a.h, a.tree) != EmptyState(a.h) && RootHash(b.h, b.tree) != EmptyState(b.h)
    requires Distinct(a.h, encs) && Encs(a.h, a.tree) + Encs(b.h, b.tree) <= encs
    modifies a`root, b`root
    ensures fresh(it) && fresh(it.a) && fresh(it.b) && a.Valid() && b.Valid() && Going(it) && it.b.tree == b.tree
    ensures ToCome(it) == Diff(Above(All(b.tree), SeekKey(start)), Above(All(a.tree), SeekKey(start)))
    ensures Sound(a.tree, false) && Stores(a.tree, a.content) && Sound(b.tree, false) && Stores(b.tree, b.content)
  {
    hide Intact, All, Above, SeekKey, Rep, Sound, EmptyState, RootHash, Less, Ops.OnlyMissing, Stores, Walking, HashFits,
         Left, Skipped, Within, Distinct, KnownRoot, Encs, Diff, Sorted, At, AtOrEnd, Here, Going, ToCome;
    var ia := Standing(a, start, encs);
    var ib := Standing(b, start, encs);
    it := new DifferenceIterator(ia, ib, encs);
    NoMissing(it.a.env, it.a.err);
    GoingIs(it);
  }

  lemma GoingIs(it: DifferenceIterator)
    requires it.Valid() && !it.a.err.Failed? && !it.b.err.Failed? && it.a.env.strict && it.b.env.strict
    ensures Going(it) && ToCome(it) == Diff(it.b.Ahead(true), it.LeftA())
  {
    hide Diff, Sorted, Within, Distinct, KnownRoot, AtOrEnd, Here, Left, Skipped, Walking;
  }

  /** The entries of b that a does not have, from a start key on: exactly those, in path order. */
  method Differences(a: Trie, b: Trie, start: seq<byte>, ghost encs: set<seq<byte>>) returns (es: seq<Entry>)
    requires a != b && a.Valid() && b.Valid() && a.strict && b.strict && a.h == b.h
    requires RootHash(a.h, a.tree) != EmptyState(a.h) && RootHash(b.h, b.tree) != EmptyState(b.h)
    requires Distinct(a.h, encs) && Encs(a.h, a.tree) + Encs(b.h, b.tree) <= encs
    modifies a`root, b`root
    ensures a.Valid() && b.Valid()
    ensures forall k, v :: Entry(k, v) in es <==>
              k in b.content && b.content[k] == v && !(k in a.content && a.content[k] == v) &&
              !Less(KeyHex(k), SeekKey(start))
    ensures forall i, j :: 0 <= i < j < |es| ==> Less(KeyHex(es[i].key), KeyHex(es[j].key))
  {
    hide *;
    var it := Opened(a, b, start, encs);
    es := Collect(it, b.content);
    DiffExact(a.tree, b.tree, a.content, b.content, es, SeekKey(start));
  }

  lemma KnownTrie(env: Env, root: Node, t: Tree, m: Map, encs: set<seq<byte>>, key: seq<byte>)
    requires Intact(env, root, t, m) && Encs(env.h, t) <= encs
    ensures KnownRoot(env.h, encs, t) && Sorted(Above(All(t), key)) && Within(Above(All(t), key), t) &&
            Sound(t, false) && Stores(t, m)
  {
    hide Rep, Norm, Bounded, Stores, Encs, All, Above, Sorted, Within;
    AllSorted(t);
    AboveSorted(All(t), key);
    AboveWithin(t, key);
  }

  lemma {:induction false} MinusSorted(bs: seq<Leaf>, as0: seq<Leaf>)
    requires SortedLeaves(bs)
    ensures SortedLeaves(Minus(bs, as0))
  {
    if bs != [] {
      var rest := bs[1..];
      assert forall i, j :: 0 <= i < j < |rest| ==> rest[i] == bs[i + 1] && rest[j] == bs[j + 1];
      MinusSorted(rest, as0);
      var ms := Minus(rest, as0);
      forall j | 0 <= j < |ms| ensures Less(bs[0].path, ms[j].path) {
        InMinus(rest, as0, ms[j]);
        var i :| 0 <= i < |rest| && rest[i] == ms[j];
        assert bs[i + 1] == ms[j];
      }
    }
  }

  lemma DiffExact(ta: Tree, tb: Tree, ma: Map, mb: Map, es: seq<Entry>, key: seq<byte>)
    requires Sound(ta, false) && Sound(tb, false) && Stores(ta, ma) && Stores(tb, mb)
    requires Paths(es) == Diff(Above(All(tb), key), Above(All(ta), key))
    ensures forall k, v :: Entry(k, v) in es <==> k in mb && mb[k] == v && !(k in ma && ma[k] == v) && !Less(KeyHex(k), key)
    ensures forall i, j :: 0 <= i < j < |es| ==> Less(KeyHex(es[i].key), KeyHex(es[j].key))
  {
    hide All, Above, KeyHex, Less, Leaves, Norm, Bounded, Lookup, Minus, Stores;
    AllSorted(tb);
    AboveSorted(All(tb), key);
    LeavesSorted(Above(All(tb), key));
    MinusSorted(Leaves(Above(All(tb), key)), Leaves(Above(All(ta), key)));
    assert forall i :: 0 <= i < |es| ==> Paths(es)[i].path == KeyHex(es[i].key);
    forall k, v ensures Entry(k, v) in es <==> k in mb && mb[k] == v && !(k in ma && ma[k] == v) && !Less(KeyHex(k), key) {
      InPaths(es, Entry(k, v));
      InMinus(Leaves(Above(All(tb), key)), Leaves(Above(All(ta), key)), Leaf(KeyHex(k), v));
      EntryListed(ta, ma, key, k, v);
      EntryListed(tb, mb, key, k, v);
    }
  }
}
