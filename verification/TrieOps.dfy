/**
 Lookup, insertion and deletion (trie/trie.go). They walk down a node, load what
 is only known by hash and return a new node; nothing is changed in place. The
 ghost arguments t and root say which tree the node represents.
 */
module TrieOps {
  import opened Bytes
  import opened HexPrefix
  import opened TrieTree
  import opened TrieNode
  import opened TrieRep

  function NewFlag(gen: nat): Flags { Flags(None, gen, true) }

  /** Node n represents t, and p is the rest of a complete path below it. */
  ghost predicate Ready(env: Env, n: Node, t: Tree, root: bool, p: seq<byte>)
  {
    PathEnd(p) && Sound(t, p == []) && Rep(env, n, t, root)
  }

  /** Errors other than a missing node do not occur, and that one only if it is missing. */
  ghost predicate OnlyMissing(env: Env, e: TrieError)
  {
    e.MissingNode? && e.hash !in env.db && !env.strict
  }

  // ----- one step down a path -----

  lemma StepExt(k: seq<byte>, c: Tree, p: seq<byte>)
    requires Sound(Ext(k, c), false) && HexPath(p) && k <= p
    ensures k != [] && PathEnd(p[|k|..]) && Sound(c, p[|k|..] == [])
  {
    BoundedExt(k, c);
    assert p[|k| - 1] == k[|k| - 1];
  }

  lemma StepBranch(cs: seq<Tree>, p: seq<byte>)
    requires Sound(Branch(cs), false) && HexPath(p)
    ensures |cs| == 17 && p[0] < 17 && PathEnd(p[1..]) && Sound(cs[p[0]], p[1..] == [])
  {
    BoundedBranch(cs, p[0]);
  }

  lemma ReadyShort(env: Env, n: Node, t: Tree, root: bool, p: seq<byte>)
    requires Ready(env, n, t, root, p) && n.Short?
    ensures t.Ext? && t.key == n.key && p != [] && n.key != [] && Sound(t, false) && HexPath(p)
    ensures n.key <= p ==> Ready(env, n.val, t.child, false, p[|n.key|..])
  {
    hide Bounded, Big, HashOf, Stored, IsHex;
    if n.key <= p { StepExt(t.key, t.child, p); }
  }

  lemma ReadyFull(env: Env, n: Node, t: Tree, root: bool, p: seq<byte>)
    requires Ready(env, n, t, root, p) && n.Full?
    ensures t.Branch? && p != [] && |n.children| == |t.children| == 17 && p[0] < 17 && Sound(t, false) && HexPath(p)
    ensures Ready(env, n.children[p[0]], t.children[p[0]], false, p[1..])
  {
    hide Bounded, Big, HashOf, Stored, IsHex;
    StepBranch(t.children, p);
  }

  /** A node that is only known by hash is loaded, or found to be missing. */
  lemma ReadyHash(env: Env, n: Node, t: Tree, root: bool, p: seq<byte>, gen: nat)
    requires Ready(env, n, t, root, p) && n.HashNode?
    ensures var r := ResolveHash(env, n.hash, gen);
            if r.Ok? then Ready(env, r.value, t, root, p) && !r.value.HashNode? else OnlyMissing(env, r.error)
  {
    hide Bounded, Big, HashOf, Stored, IsHex, DecodeNode;
    Resolves(env, n.hash, t, root, gen);
  }

  // ----- tryGet -----

  datatype Got = Got(value: seq<byte>, node: Node, resolved: bool)

  /** The value stored under p, and a node that still represents t. */
  ghost predicate GetOk(env: Env, r: Result<Got, TrieError>, t: Tree, root: bool, p: seq<byte>)
  {
    match r
    case Ok(g) => g.value == Lookup(t, p) && Rep(env, g.node, t, root)
    case Err(e) => OnlyMissing(env, e)
  }

  function GetUp(n: Node, r: Result<Got, TrieError>, gen: nat, i: byte): Result<Got, TrieError>
    requires n.Short? || (n.Full? && i < |n.children|)
  {
    if r.Err? then r
    else if !r.value.resolved then Ok(r.value.(node := n))
    else if n.Short? then Ok(r.value.(node := Short(n.key, r.value.node, n.flags.(gen := gen))))
    else Ok(r.value.(node := Full(n.children[i := r.value.node], n.flags.(gen := gen))))
  }

  /** tryGet returns the stored value; p is the source's key[pos:]. The node it returns may have more parts loaded. */
  function TryGet(env: Env, n: Node, p: seq<byte>, gen: nat, ghost t: Tree, ghost root: bool): (r: Result<Got, TrieError>)
    requires Ready(env, n, t, root, p)
    ensures GetOk(env, r, t, root, p)
    decreases t, if n.HashNode? then 1 else 0
  {
    hide *;
    match n {
      case Nil => GetLeaf(env, n, t, root, p); Ok(Got([], n, false))
      case Value(v) => GetLeaf(env, n, t, root, p); Ok(Got(v, n, false))
      case Short(k, v, _) =>
        ReadyShort(env, n, t, root, p);
        if !(k <= p) then
          GetMiss(env, n, t, root, p);
          Ok(Got([], n, false))
        else
          var r := TryGet(env, v, p[|k|..], gen, t.child, false);
          GetShort(env, n, t, root, p, r, gen);
          GetUp(n, r, gen, 0)
      case Full(cs, _) =>
        ReadyFull(env, n, t, root, p);
        var r := TryGet(env, cs[p[0]], p[1..], gen, t.children[p[0]], false);
        GetFull(env, n, t, root, p, r, gen);
        GetUp(n, r, gen, p[0])
      case HashNode(x) =>
        ReadyHash(env, n, t, root, p, gen);
        var child := ResolveHash(env, x, gen);
        if child.Err? then GetErr(env, child.error, t, root, p); Err(child.error)
        else
          var r := TryGet(env, child.value, p, gen, t, root);
          GetResolved(env, r, t, root, p);
          if r.Err? then r else Ok(r.value.(resolved := true))
    }
  }

  lemma GetLeaf(env: Env, n: Node, t: Tree, root: bool, p: seq<byte>)
    requires Ready(env, n, t, root, p) && (n.Nil? || n.Value?)
    ensures GetOk(env, Ok(Got(if n.Nil? then [] else n.value, n, false)), t, root, p)
  {
  }

  lemma GetMiss(env: Env, n: Node, t: Tree, root: bool, p: seq<byte>)
    requires Ready(env, n, t, root, p) && n.Short? && !(n.key <= p)
    ensures GetOk(env, Ok(Got([], n, false)), t, root, p)
  {
  }

  lemma GetErr(env: Env, e: TrieError, t: Tree, root: bool, p: seq<byte>)
    requires OnlyMissing(env, e)
    ensures GetOk(env, Err(e), t, root, p)
  {
  }

  lemma GetResolved(env: Env, r: Result<Got, TrieError>, t: Tree, root: bool, p: seq<byte>)
    requires GetOk(env, r, t, root, p)
    ensures GetOk(env, if r.Err? then r else Ok(r.value.(resolved := true)), t, root, p)
  {
  }

  lemma GetShort(env: Env, n: Node, t: Tree, root: bool, p: seq<byte>, r: Result<Got, TrieError>, gen: nat)
    requires Ready(env, n, t, root, p) && n.Short? && t.Ext? && n.key == t.key <= p
    requires GetOk(env, r, t.child, false, p[|n.key|..])
    ensures GetOk(env, GetUp(n, r, gen, 0), t, root, p)
  {
    hide Sound, PathEnd, Big, HashOf, Stored;
  }

  lemma GetFull(env: Env, n: Node, t: Tree, root: bool, p: seq<byte>, r: Result<Got, TrieError>, gen: nat)
    requires Ready(env, n, t, root, p) && n.Full? && t.Branch? && p != []
    requires |n.children| == |t.children| == 17 && p[0] < 17
    requires GetOk(env, r, t.children[p[0]], false, p[1..])
    ensures GetOk(env, GetUp(n, r, gen, p[0]), t, root, p)
  {
    hide Sound, PathEnd, Big, HashOf, Stored;
  }

  // ----- insert -----

  datatype Change = Change(dirty: bool, node: Node)

  /** The new node represents u, which is t with v under key; dirty tells whether that changed anything. */
  ghost predicate Leads(env: Env, c: Change, t: Tree, u: Tree, root: bool, key: seq<byte>, v: seq<byte>)
  {
    && Rep(env, c.node, u, root)
    && Slot(u, key == [])
    && Updates(t, u, key, v)
    && (c.dirty <==> Lookup(t, key) != v)
    && (!c.dirty ==> u == t)
    && (c.dirty ==> !c.node.HashNode?)
  }

  ghost predicate ChangeOk(env: Env, r: Result<Change, TrieError>, t: Tree, root: bool, key: seq<byte>, v: seq<byte>)
  {
    match r
    case Ok(c) => exists u :: Leads(env, c, t, u, root, key, v)
    case Err(e) => OnlyMissing(env, e)
  }

  function Nils(): (ns: seq<Node>)
    ensures |ns| == 17 && forall i :: 0 <= i < 17 ==> ns[i] == Nil
  {
    seq(17, _ => Nil)
  }

  /** insert into nil: the node itself at the end of a path, else a short node in front of it. */
  function HangNode(p: seq<byte>, n: Node, gen: nat): Node
  {
    if p == [] then n else Short(p, n, NewFlag(gen))
  }

  /** A full node where the key of a short node and the new path part. */
  function ForkNode(n: Node, key: seq<byte>, v: seq<byte>, m: nat, gen: nat): Node
    requires n.Short? && m < |n.key| && m < |key| && n.key[m] < 17 && key[m] < 17
  {
    var kids := Nils()[n.key[m] := HangNode(n.key[m + 1..], n.val, gen)][key[m] := HangNode(key[m + 1..], Value(v), gen)];
    var branch := Full(kids, NewFlag(gen));
    if m == 0 then branch else Short(key[..m], branch, NewFlag(gen))
  }

  /** What insert and delete make of a short node when its child has changed into c. */
  function ShortUp(n: Node, r: Result<Change, TrieError>, gen: nat): Result<Change, TrieError>
    requires n.Short?
  {
    if r.Err? then r
    else if !r.value.dirty then Ok(Change(false, n))
    else Ok(Change(true, Short(n.key, r.value.node, NewFlag(gen))))
  }

  function FullUp(n: Node, i: byte, r: Result<Change, TrieError>, gen: nat): Result<Change, TrieError>
    requires n.Full? && i < |n.children|
  {
    if r.Err? then r
    else if !r.value.dirty then Ok(Change(false, n))
    else Ok(Change(true, Full(n.children[i := r.value.node], NewFlag(gen))))
  }

  /** insert. The prefix argument of the source only serves error messages. */
  function Insert(env: Env, n: Node, key: seq<byte>, v: seq<byte>, gen: nat, ghost t: Tree, ghost root: bool)
    : (r: Result<Change, TrieError>)
    requires Ready(env, n, t, root, key) && v != []
    ensures ChangeOk(env, r, t, root, key, v)
    decreases t, if n.HashNode? then 1 else 0
  {
    hide *;
    if key == [] then
      InsertAtEnd(env, n, t, root, v);
      Ok(Change(!(n.Value? && n.value == v), Value(v)))
    else match n {
      case Short(k, w, _) =>
        ReadyShort(env, n, t, root, key);
        var m := CommonPrefix(key, k);
        if m == |k| then
          var r := Insert(env, w, key[m..], v, gen, t.child, false);
          ChangeShort(env, n, t, root, key, v, r, gen);
          ShortUp(n, r, gen)
        else
          InsertFork(env, n, t, root, key, v, gen);
          Ok(Change(true, ForkNode(n, key, v, m, gen)))
      case Full(cs, _) =>
        ReadyFull(env, n, t, root, key);
        var r := Insert(env, cs[key[0]], key[1..], v, gen, t.children[key[0]], false);
        InsertFull(env, n, t, root, key, v, r, gen);
        FullUp(n, key[0], r, gen)
      case Nil =>
        InsertNil(env, t, root, key, v, gen);
        Ok(Change(true, Short(key, Value(v), NewFlag(gen))))
      case HashNode(x) =>
        ReadyHash(env, n, t, root, key, gen);
        var rn := ResolveHash(env, x, gen);
        if rn.Err? then ChangeErr(env, rn.error, t, root, key, v); Err(rn.error)
        else
          var r := Insert(env, rn.value, key, v, gen, t, root);
          ChangeResolved(env, rn.value, r, t, root, key, v);
          LoadedUp(rn.value, r)
      case Value(_) =>
        NoValueHere(env, n, t, root, key);
        Err(Corrupt(Panics))
    }
  }

  /** After loading a node: the loaded node stays if nothing changed below. */
  function LoadedUp(rn: Node, r: Result<Change, TrieError>): Result<Change, TrieError>
  {
    if r.Err? then r else if !r.value.dirty then Ok(Change(false, rn)) else r
  }

  lemma InsertAtEnd(env: Env, n: Node, t: Tree, root: bool, v: seq<byte>)
    requires Ready(env, n, t, root, []) && v != []
    ensures ChangeOk(env, Ok(Change(!(n.Value? && n.value == v), Value(v))), t, root, [], v)
  {
    hide Bounded;
    assert Leads(env, Change(!(n.Value? && n.value == v), Value(v)), t, Val(v), root, [], v);
  }

  lemma NoValueHere(env: Env, n: Node, t: Tree, root: bool, key: seq<byte>)
    requires Ready(env, n, t, root, key) && n.Value?
    ensures key == []
  {
  }

  lemma InsertNil(env: Env, t: Tree, root: bool, key: seq<byte>, v: seq<byte>, gen: nat)
    requires Ready(env, Nil, t, root, key) && key != [] && v != []
    ensures ChangeOk(env, Ok(Change(true, Short(key, Value(v), NewFlag(gen)))), t, root, key, v)
  {
    var u := Ext(key, Val(v));
    assert t == Empty && HexPath(key) && Norm(u) && Slot(u, key == []);
    assert Updates(t, u, key, v) by {
      forall q ensures Lookup(u, q) == if q == key then v else Lookup(t, q) { ExtVal(key, v, q); }
    }
    assert Leads(env, Change(true, Short(key, Value(v), NewFlag(gen))), t, u, root, key, v);
  }

  lemma ChangeErr(env: Env, e: TrieError, t: Tree, root: bool, key: seq<byte>, v: seq<byte>)
    requires OnlyMissing(env, e)
    ensures ChangeOk(env, Err(e), t, root, key, v)
  {
  }

  lemma ChangeResolved(env: Env, rn: Node, r: Result<Change, TrieError>, t: Tree, root: bool, key: seq<byte>,
                       v: seq<byte>)
    requires Rep(env, rn, t, root) || Ready(env, rn, t, root, key)
    requires ChangeOk(env, r, t, root, key, v)
    ensures ChangeOk(env, LoadedUp(rn, r), t, root, key, v)
  {
    hide Rep, Slot, Updates;
    if r.Ok? && !r.value.dirty {
      var u :| Leads(env, r.value, t, u, root, key, v);
      assert Leads(env, Change(false, rn), t, u, root, key, v);
    }
  }

  /** A change below a short node whose child stays a full node or a value. */
  lemma {:induction false} ChangeShort(env: Env, n: Node, t: Tree, root: bool, key: seq<byte>, v: seq<byte>,
                                       r: Result<Change, TrieError>, gen: nat)
    requires Ready(env, n, t, root, key) && n.Short? && t.Ext? && n.key == t.key <= key && v != []
    requires ChangeOk(env, r, t.child, false, key[|n.key|..], v)
    ensures ChangeOk(env, ShortUp(n, r, gen), t, root, key, v)
  {
    var k := n.key;
    if r.Ok? {
      var c :| Leads(env, r.value, t.child, c, false, key[|k|..], v);
      UpdateExt(k, t.child, c, key, v);
      NormShort(t, c, key, v);
      var d := ShortUp(n, r, gen).value;
      assert Lookup(t, key) == Lookup(t.child, key[|k|..]);
      assert Leads(env, d, t, if d.dirty then Ext(k, c) else t, root, key, v);
    }
  }

  /** Inserting below a normal short node leaves it normal. */
  lemma NormShort(t: Tree, c: Tree, key: seq<byte>, v: seq<byte>)
    requires Norm(t) && t.Ext? && t.key <= key && HexPath(key) && v != []
    requires Slot(c, key[|t.key|..] == []) && Updates(t.child, c, key[|t.key|..], v)
    ensures Norm(Ext(t.key, c))
  {
    var k := t.key;
    assert Lookup(c, key[|k|..]) == v;
    assert key[|k| - 1] == k[|k| - 1];
    if !HasTerm(k) {
      var p := TwoPaths(t.child, key[|k|]);
      StillBranch(c, p, key[|k|..]);
    }
  }

  lemma StillBranch(c: Tree, p: seq<byte>, q: seq<byte>)
    requires Norm(c) && p != [] && q != [] && p[0] != q[0] && Lookup(c, p) != [] && Lookup(c, q) != []
    ensures c.Branch?
  {
  }

  lemma InsertFull(env: Env, n: Node, t: Tree, root: bool, key: seq<byte>, v: seq<byte>, r: Result<Change, TrieError>,
                   gen: nat)
    requires Ready(env, n, t, root, key) && n.Full? && t.Branch? && key != [] && v != []
    requires |n.children| == |t.children| == 17 && key[0] < 17
    requires ChangeOk(env, r, t.children[key[0]], false, key[1..], v)
    ensures ChangeOk(env, FullUp(n, key[0], r, gen), t, root, key, v)
  {
    if r.Ok? {
      var cs, i := t.children, key[0];
      var c :| Leads(env, r.value, cs[i], c, false, key[1..], v);
      assert Lookup(c, key[1..]) == v;
      NormFull(cs, c, key);
      FullLeads(env, n, t, root, key, v, r.value, c, gen);
    }
  }

  lemma FullLeads(env: Env, n: Node, t: Tree, root: bool, key: seq<byte>, v: seq<byte>, d: Change, c: Tree, gen: nat)
    requires n.Full? && t.Branch? && Rep(env, n, t, root) && Norm(t) && key != []
    requires |n.children| == |t.children| == 17 && key[0] < 17
    requires Leads(env, d, t.children[key[0]], c, false, key[1..], v)
    requires Norm(Branch(t.children[key[0] := c]))
    ensures ChangeOk(env, FullUp(n, key[0], Ok(d), gen), t, root, key, v)
  {
    hide Norm, Stored, HashOf, Big;
    var cs, i := t.children, key[0];
    UpdateBranch(cs, c, key, v);
    var e, u := FullUp(n, i, Ok(d), gen).value, Branch(cs[i := c]);
    assert Lookup(t, key) == Lookup(cs[i], key[1..]);
    if d.dirty {
      RepFull(env, n, t, root, i, d.node, c, gen);
      assert Leads(env, e, t, u, root, key, v);
    } else {
      assert cs[i := c] == cs;
      assert Leads(env, e, t, t, root, key, v);
    }
  }

  lemma RepFull(env: Env, n: Node, t: Tree, root: bool, i: nat, m: Node, c: Tree, gen: nat)
    requires n.Full? && t.Branch? && Rep(env, n, t, root) && i < |n.children| && Rep(env, m, c, false)
    ensures Rep(env, Full(n.children[i := m], NewFlag(gen)), Branch(t.children[i := c]), root)
  {
  }

  lemma NormFull(cs: seq<Tree>, c: Tree, key: seq<byte>)
    requires Norm(Branch(cs)) && HexPath(key) && !c.Empty? && Slot(c, key[1..] == [])
    ensures Norm(Branch(cs[key[0] := c]))
  {
    var ds := cs[key[0] := c];
    var i, j :| 0 <= i < j < 17 && !cs[i].Empty? && !cs[j].Empty?;
    assert !ds[i].Empty? && !ds[j].Empty?;
  }

  lemma {:induction false} InsertFork(env: Env, n: Node, t: Tree, root: bool, key: seq<byte>, v: seq<byte>, gen: nat)
    requires Ready(env, n, t, root, key) && n.Short? && t.Ext? && n.key == t.key && HexPath(key) && v != []
    requires CommonPrefix(key, n.key) < |n.key|
    ensures var m := CommonPrefix(key, n.key);
            && m < |key| && n.key[m] < 17 && key[m] < 17
            && ChangeOk(env, Ok(Change(true, ForkNode(n, key, v, m, gen))), t, root, key, v)
  {
    var m := CommonPrefix(key, n.key);
    PartBeforeEnd(n.key, key);
    ForkCorrect(t.key, t.child, key, v, m);
    var u := Fork(t.key, t.child, key, v, m);
    ForkRep(env, n, t, root, key, v, m, gen);
    assert Lookup(t, key) == [];
    assert Leads(env, Change(true, ForkNode(n, key, v, m, gen)), t, u, root, key, v);
  }

  lemma PartBeforeEnd(k: seq<byte>, key: seq<byte>)
    requires HexPath(key) && IsHex(k) && CommonPrefix(key, k) < |k|
    ensures CommonPrefix(key, k) < |key|
  {
    var m := CommonPrefix(key, k);
    assert m > 0 ==> key[..m][m - 1] == k[..m][m - 1];
  }

  lemma {:induction false} ForkRep(env: Env, n: Node, t: Tree, root: bool, key: seq<byte>, v: seq<byte>, m: nat,
                                   gen: nat)
    requires n.Short? && Rep(env, n, t, root)
    requires m < |n.key| && m < |key| && n.key[m] < 17 && key[m] < 17
    ensures Rep(env, ForkNode(n, key, v, m, gen), Fork(t.key, t.child, key, v, m), root)
  {
    var k := n.key;
    assert k[m..][1..] == k[m + 1..] && key[m..][1..] == key[m + 1..];
    var kids := ForkKids(k[m..], t.child, key[m..], v);
    var nodes := Nils()[k[m] := HangNode(k[m + 1..], n.val, gen)][key[m] := HangNode(key[m + 1..], Value(v), gen)];
    forall i | 0 <= i < 17 ensures Rep(env, nodes[i], kids[i], false) {
    }
  }

  // ----- delete -----

  /**
   The child-counting loop: -1 if all children are nil, the index if one is not,
   -2 if there are more.
   */
  function Scan(ns: seq<Node>, i: nat, pos: int): (r: int)
    requires i <= |ns| && -1 <= pos < i
    requires forall j :: 0 <= j < i ==> (ns[j].Nil? <==> j != pos)
    ensures -2 <= r < |ns|
    ensures r >= -1 ==> forall j :: 0 <= j < |ns| ==> (ns[j].Nil? <==> j != r)
    ensures r == -2 ==> exists j, l :: 0 <= j < l < |ns| && !ns[j].Nil? && !ns[l].Nil?
    decreases |ns| - i
  {
    if i == |ns| then pos
    else if ns[i].Nil? then Scan(ns, i + 1, pos)
    else if pos == -1 then Scan(ns, i + 1, i)
    else
      assert !ns[pos].Nil? && !ns[i].Nil?;
      -2
  }

  method ScanChildren(ns: seq<Node>) returns (pos: int)
    ensures pos == Scan(ns, 0, -1)
  {
    pos := -1;
    for i := 0 to |ns|
      invariant -1 <= pos < i
      invariant forall j :: 0 <= j < i ==> (ns[j].Nil? <==> j != pos)
      invariant Scan(ns, i, pos) == Scan(ns, 0, -1)
    {
      if !ns[i].Nil? {
        if pos == -1 {
          pos := i;
        } else {
          return -2;
        }
      }
    }
  }

  /** resolve: loads a node if it is only known by hash. */
  function Resolve(env: Env, n: Node, gen: nat): Result<Node, TrieError>
  {
    if n.HashNode? then ResolveHash(env, n.hash, gen) else Ok(n)
  }

  /** delete on a short node after its child has changed: two short nodes are merged. */
  function MergeUp(n: Node, r: Result<Change, TrieError>, gen: nat): Result<Change, TrieError>
    requires n.Short?
  {
    if r.Ok? && r.value.dirty && r.value.node.Short? then
      Ok(Change(true, Short(n.key + r.value.node.key, r.value.node.val, NewFlag(gen))))
    else ShortUp(n, r, gen)
  }

  /** A full node with a single child left becomes a short node. */
  function CollapseNode(env: Env, kids: seq<Node>, pos: byte, gen: nat): Result<Change, TrieError>
    requires pos < |kids| == 17
  {
    if pos == 16 then Ok(Change(true, Short([pos], kids[pos], NewFlag(gen))))
    else
      var cnode := Resolve(env, kids[pos], gen);
      if cnode.Err? then Err(cnode.error)
      else if cnode.value.Short? then Ok(Change(true, Short([pos] + cnode.value.key, cnode.value.val, NewFlag(gen))))
      else Ok(Change(true, Short([pos], kids[pos], NewFlag(gen))))
  }

  function ReduceUp(env: Env, n: Node, i: byte, r: Result<Change, TrieError>, gen: nat): Result<Change, TrieError>
    requires n.Full? && i < |n.children| == 17
  {
    if r.Err? then r
    else if !r.value.dirty then Ok(Change(false, n))
    else
      var kids := n.children[i := r.value.node];
      var pos := Scan(kids, 0, -1);
      if pos >= 0 then CollapseNode(env, kids, pos, gen) else Ok(Change(true, Full(kids, NewFlag(gen))))
  }

  /** delete */
  function Delete(env: Env, n: Node, key: seq<byte>, gen: nat, ghost t: Tree, ghost root: bool)
    : (r: Result<Change, TrieError>)
    requires Ready(env, n, t, root, key)
    ensures ChangeOk(env, r, t, root, key, [])
    decreases t, if n.HashNode? then 1 else 0
  {
    hide *;
    match n {
      case Short(k, w, _) =>
        ReadyShort(env, n, t, root, key);
        var m := CommonPrefix(key, k);
        if m < |k| then
          DeleteMiss(env, n, t, root, key);
          Ok(Change(false, n))
        else if m == |key| then
          DeleteLeaf(env, n, t, root, key);
          Ok(Change(true, Nil))
        else
          var r := Delete(env, w, key[|k|..], gen, t.child, false);
          DeleteShort(env, n, t, root, key, r, gen);
          MergeUp(n, r, gen)
      case Full(cs, _) =>
        ReadyFull(env, n, t, root, key);
        var r := Delete(env, cs[key[0]], key[1..], gen, t.children[key[0]], false);
        DeleteFull(env, n, t, root, key, r, gen);
        ReduceUp(env, n, key[0], r, gen)
      case Value(_) =>
        DeleteValue(env, n, t, root, key);
        Ok(Change(true, Nil))
      case Nil =>
        DeleteNil(env, t, root, key);
        Ok(Change(false, Nil))
      case HashNode(x) =>
        ReadyHash(env, n, t, root, key, gen);
        var rn := ResolveHash(env, x, gen);
        if rn.Err? then ChangeErr(env, rn.error, t, root, key, []); Err(rn.error)
        else
          var r := Delete(env, rn.value, key, gen, t, root);
          ChangeResolved(env, rn.value, r, t, root, key, []);
          LoadedUp(rn.value, r)
    }
  }

  lemma DeleteMiss(env: Env, n: Node, t: Tree, root: bool, key: seq<byte>)
    requires Ready(env, n, t, root, key) && n.Short? && t.Ext? && t.key == n.key && CommonPrefix(key, n.key) < |n.key|
    ensures ChangeOk(env, Ok(Change(false, n)), t, root, key, [])
  {
    hide Rep, Norm, Bounded;
    assert !(n.key <= key);
    Unchanged(env, n, t, root, key);
  }

  lemma Unchanged(env: Env, n: Node, t: Tree, root: bool, key: seq<byte>)
    requires Ready(env, n, t, root, key) && Lookup(t, key) == []
    ensures ChangeOk(env, Ok(Change(false, n)), t, root, key, [])
  {
    hide Rep, Slot, Bounded, Lookup;
    assert Leads(env, Change(false, n), t, t, root, key, []);
  }

  /** How to show that a changed node is right. */
  lemma Changed(env: Env, n: Node, t: Tree, u: Tree, root: bool, key: seq<byte>)
    requires Rep(env, n, u, root) && Slot(u, key == []) && Updates(t, u, key, []) && Lookup(t, key) != [] &&
             !n.HashNode?
    ensures ChangeOk(env, Ok(Change(true, n)), t, root, key, [])
  {
    hide Rep, Slot, Updates, Lookup;
    assert Leads(env, Change(true, n), t, u, root, key, []);
  }

  lemma DeleteNil(env: Env, t: Tree, root: bool, key: seq<byte>)
    requires Ready(env, Nil, t, root, key)
    ensures ChangeOk(env, Ok(Change(false, Nil)), t, root, key, [])
  {
    hide Norm, Bounded;
    assert Leads(env, Change(false, Nil), t, t, root, key, []);
  }

  lemma DeleteValue(env: Env, n: Node, t: Tree, root: bool, key: seq<byte>)
    requires Ready(env, n, t, root, key) && n.Value?
    ensures ChangeOk(env, Ok(Change(true, Nil)), t, root, key, [])
  {
    hide Bounded;
    NoValueHere(env, n, t, root, key);
    assert Leads(env, Change(true, Nil), t, Empty, root, key, []);
  }

  /** The whole key matches: the short node holds the value itself. */
  lemma DeleteLeaf(env: Env, n: Node, t: Tree, root: bool, key: seq<byte>)
    requires Ready(env, n, t, root, key) && n.Short? && t.Ext? && t.key == n.key
    requires CommonPrefix(key, n.key) == |n.key| == |key|
    ensures ChangeOk(env, Ok(Change(true, Nil)), t, root, key, [])
  {
    hide Rep, Bounded, Lookup, CommonPrefix, Norm, IsHex;
    WholeKey(key, n.key);
    LeafChild(t);
    LeafRemoved(key, t.child.value);
    RepNothing(env, root);
    Changed(env, Nil, t, Empty, root, key);
  }

  lemma WholeKey(key: seq<byte>, k: seq<byte>)
    requires |key| == |k| && key[..|k|] == k[..|k|]
    ensures key == k
  {
    assert key == key[..|k|] && k == k[..|k|];
  }

  lemma LeafChild(t: Tree)
    requires t.Ext? && Norm(t) && HexPath(t.key)
    ensures t.child.Val? && t.child.value != []
  {
  }

  lemma RepNothing(env: Env, root: bool)
    ensures Rep(env, Nil, Empty, root)
  {
  }

  lemma LeafRemoved(key: seq<byte>, v: seq<byte>)
    requires v != []
    ensures Updates(Ext(key, Val(v)), Empty, key, []) && Lookup(Ext(key, Val(v)), key) != []
  {
    forall q ensures Lookup(Empty, q) == if q == key then [] else Lookup(Ext(key, Val(v)), q) { ExtVal(key, v, q); }
    ExtVal(key, v, key);
  }

  /** Deleting one path from a normal full node leaves something. */
  lemma NotAll(t: Tree, u: Tree, key: seq<byte>)
    requires t.Branch? && Norm(t) && key != [] && Updates(t, u, key, [])
    ensures !u.Empty?
  {
    var p := TwoPaths(t, key[0]);
    assert Lookup(u, p) == Lookup(t, p);
  }

  lemma {:induction false} DeleteShort(env: Env, n: Node, t: Tree, root: bool, key: seq<byte>,
                                       r: Result<Change, TrieError>, gen: nat)
    requires Ready(env, n, t, root, key) && n.Short? && t.Ext? && n.key == t.key && HexPath(key)
    requires CommonPrefix(key, n.key) == |n.key| < |key|
    requires ChangeOk(env, r, t.child, false, key[|n.key|..], [])
    ensures ChangeOk(env, MergeUp(n, r, gen), t, root, key, [])
  {
    hide Rep, Norm, Updates, Bounded, IsHex, CommonPrefix, Lookup;
    var k := n.key;
    if r.Ok? {
      var c :| Leads(env, r.value, t.child, c, false, key[|k|..], []);
      ShortKeyOpen(t, key);
      NotAll(t.child, c, key[|k|..]);
      UpdateExt(k, t.child, c, key, []);
      LookupDown(t, key);
      if !r.value.dirty {
        Unchanged(env, n, t, root, key);
      } else {
        ShortLeads(env, n, t, root, key, r.value.node, c, gen);
      }
    }
  }

  lemma LookupDown(t: Tree, key: seq<byte>)
    requires t.Ext? && t.key <= key
    ensures Lookup(t, key) == Lookup(t.child, key[|t.key|..])
  {
  }

  lemma ShortKeyOpen(t: Tree, key: seq<byte>)
    requires t.Ext? && Norm(t) && HexPath(key) && t.key <= key && |t.key| < |key|
    ensures AllNibbles(t.key) && t.key != [] && !HasTerm(t.key) && t.child.Branch? && Norm(t.child)
  {
    assert key[|t.key| - 1] == t.key[|t.key| - 1];
  }

  lemma ShortLeads(env: Env, n: Node, t: Tree, root: bool, key: seq<byte>, m: Node, c: Tree, gen: nat)
    requires n.Short? && t.Ext? && n.key == t.key && Rep(env, n, t, root) && Lookup(t, key) != [] && key != []
    requires AllNibbles(n.key) && n.key != [] && Norm(c) && Rep(env, m, c, false) && !m.HashNode?
    requires Updates(t, Ext(n.key, c), key, [])
    ensures ChangeOk(env, MergeUp(n, Ok(Change(true, m)), gen), t, root, key, [])
  {
    hide Bounded, Stored, HashOf, Big;
    var d := MergeUp(n, Ok(Change(true, m)), gen).value;
    if m.Short? {
      JoinExt(n.key, c.key, c.child);
      JoinNorm(n.key, c.key, c.child);
      assert Leads(env, d, t, Ext(n.key + c.key, c.child), root, key, []);
    } else {
      assert Leads(env, d, t, Ext(n.key, c), root, key, []);
    }
  }

  lemma JoinNorm(k: seq<byte>, l: seq<byte>, c: Tree)
    requires AllNibbles(k) && Norm(Ext(l, c))
    ensures Norm(Ext(k + l, c))
  {
    assert (k + l)[|k + l| - 1] == l[|l| - 1];
  }

  lemma {:induction false} DeleteFull(env: Env, n: Node, t: Tree, root: bool, key: seq<byte>,
                                      r: Result<Change, TrieError>, gen: nat)
    requires Ready(env, n, t, root, key) && n.Full? && t.Branch? && key != [] && Sound(t, false) && HexPath(key)
    requires |n.children| == |t.children| == 17 && key[0] < 17
    requires ChangeOk(env, r, t.children[key[0]], false, key[1..], [])
    ensures ChangeOk(env, ReduceUp(env, n, key[0], r, gen), t, root, key, [])
  {
    if r.Ok? {
      var cs, i := t.children, key[0];
      var c :| Leads(env, r.value, cs[i], c, false, key[1..], []);
      UpdateBranch(cs, c, key, []);
      assert Lookup(t, key) == Lookup(cs[i], key[1..]);
      if !r.value.dirty {
        Unchanged(env, n, t, root, key);
      } else {
        ReduceLeads(env, n, t, root, key, r.value.node, c, gen);
      }
    }
  }

  lemma {:induction false} ReduceLeads(env: Env, n: Node, t: Tree, root: bool, key: seq<byte>, m: Node, c: Tree,
                                       gen: nat)
    requires n.Full? && t.Branch? && Rep(env, n, t, root) && Sound(t, false) && HexPath(key) && key[0] < 17
    requires |n.children| == |t.children| == 17 && Lookup(t, key) != []
    requires Rep(env, m, c, false) && !m.HashNode? && Slot(c, key[1..] == [])
    requires Updates(t, Branch(t.children[key[0] := c]), key, [])
    ensures ChangeOk(env, ReduceUp(env, n, key[0], Ok(Change(true, m)), gen), t, root, key, [])
  {
    hide Rep, Norm, Bounded, Updates, Lookup, IsHex;
    var i := key[0];
    var kids, ds := n.children[i := m], t.children[i := c];
    RepKids(env, n, t, root, i, m, c);
    var pos := Scan(kids, 0, -1);
    SlotKids(t.children, c, key);
    SomeLeft(env, kids, ds, t, key, pos);
    if pos >= 0 {
      CollapseLeads(env, kids, ds, t, root, key, pos, gen);
    } else {
      RepBranch(env, kids, ds, root, gen);
      Changed(env, Full(kids, NewFlag(gen)), t, Branch(ds), root, key);
    }
  }

  ghost predicate RepAll(env: Env, kids: seq<Node>, ds: seq<Tree>)
  {
    |kids| == |ds| == 17 && forall j :: 0 <= j < 17 ==> Rep(env, kids[j], ds[j], false)
  }

  lemma RepBranch(env: Env, kids: seq<Node>, ds: seq<Tree>, root: bool, gen: nat)
    requires RepAll(env, kids, ds)
    ensures Rep(env, Full(kids, NewFlag(gen)), Branch(ds), root)
  {
  }

  lemma RepKids(env: Env, n: Node, t: Tree, root: bool, i: nat, m: Node, c: Tree)
    requires n.Full? && t.Branch? && Rep(env, n, t, root) && |n.children| == |t.children| == 17 && i < 17
    requires Rep(env, m, c, false)
    ensures RepAll(env, n.children[i := m], t.children[i := c])
    ensures forall j :: 0 <= j < 17 && j != i ==> n.children[i := m][j] == n.children[j]
  {
  }

  ghost predicate SlotAll(ds: seq<Tree>) { |ds| == 17 && forall j :: 0 <= j < 17 ==> Slot(ds[j], j == 16) }

  lemma SlotKids(cs: seq<Tree>, c: Tree, key: seq<byte>)
    requires Norm(Branch(cs)) && HexPath(key) && Slot(c, key[1..] == [])
    ensures key[0] < 17 && SlotAll(cs[key[0] := c])
  {
  }

  /** After a deletion a full node has a child left; with two it is still normal. */
  lemma SomeLeft(env: Env, kids: seq<Node>, ds: seq<Tree>, t: Tree, key: seq<byte>, pos: int)
    requires RepAll(env, kids, ds) && pos == Scan(kids, 0, -1)
    requires t.Branch? && Norm(t) && key != [] && Updates(t, Branch(ds), key, [])
    requires SlotAll(ds)
    ensures pos != -1
    ensures pos == -2 ==> Norm(Branch(ds))
    ensures pos >= 0 ==> !ds[pos].Empty? && forall j :: 0 <= j < 17 && j != pos ==> ds[j].Empty?
  {
    hide Bounded, Stored, HashOf, Big;
    forall j | 0 <= j < 17 ensures kids[j].Nil? <==> ds[j].Empty? {
      assert Rep(env, kids[j], ds[j], false);
    }
    if pos == -1 {
      NotAllEmpty(t, ds, key);
    }
  }

  lemma NotAllEmpty(t: Tree, ds: seq<Tree>, key: seq<byte>)
    requires t.Branch? && Norm(t) && key != [] && Updates(t, Branch(ds), key, []) && |ds| == 17
    ensures exists j :: 0 <= j < 17 && !ds[j].Empty?
  {
    var p := TwoPaths(t, key[0]);
    assert Lookup(Branch(ds), p) == Lookup(t, p);
  }

  lemma {:induction false} CollapseLeads(env: Env, kids: seq<Node>, ds: seq<Tree>, t: Tree, root: bool,
                                         key: seq<byte>, pos: byte, gen: nat)
    requires RepAll(env, kids, ds) && pos < 17 && key != [] && Lookup(t, key) != [] && Bounded(t)
    requires Updates(t, Branch(ds), key, []) && Slot(ds[pos], pos == 16) && !ds[pos].Empty?
    requires forall j :: 0 <= j < 17 && j != pos ==> ds[j].Empty?
    ensures ChangeOk(env, CollapseNode(env, kids, pos, gen), t, root, key, [])
  {
    hide Norm, Bounded, IsHex, Stored, HashOf, Big;
    var d := ds[pos];
    CollapseUpdates(t, ds, pos, key);
    if pos == 16 {
      LeafNorm(d);
      Changed(env, Short([pos], kids[pos], NewFlag(gen)), t, Ext([pos], d), root, key);
    } else {
      BoundedAfter(t, Branch(ds), key);
      BoundedBranch(ds, pos);
      CollapseShort(env, kids[pos], d, t, root, key, pos, gen);
    }
  }

  lemma CollapseUpdates(t: Tree, ds: seq<Tree>, pos: nat, key: seq<byte>)
    requires |ds| == 17 && pos < 17 && Updates(t, Branch(ds), key, [])
    requires forall j :: 0 <= j < 17 && j != pos ==> ds[j].Empty?
    ensures Updates(t, Ext([pos], ds[pos]), key, [])
  {
    hide Lookup;
    CollapseBranch(ds, pos);
  }

  lemma LeafNorm(d: Tree)
    requires GoodVal(d)
    ensures Norm(Ext([TERM], d))
  {
  }

  lemma BoundedAfter(t: Tree, u: Tree, key: seq<byte>)
    requires Bounded(t) && Updates(t, u, key, [])
    ensures Bounded(u)
  {
  }

  lemma {:induction false} CollapseShort(env: Env, kid: Node, d: Tree, t: Tree, root: bool, key: seq<byte>, pos: byte,
                                         gen: nat)
    requires Rep(env, kid, d, false) && Norm(d) && Bounded(d) && pos < 16 && key != [] && Lookup(t, key) != []
    requires Updates(t, Ext([pos], d), key, [])
    ensures var cnode := Resolve(env, kid, gen);
            && (cnode.Err? ==> OnlyMissing(env, cnode.error))
            && (cnode.Ok? && cnode.value.Short? ==>
                  ChangeOk(env, Ok(Change(true, Short([pos] + cnode.value.key, cnode.value.val, NewFlag(gen)))),
                           t, root, key, []))
            && (cnode.Ok? && !cnode.value.Short? ==>
                  ChangeOk(env, Ok(Change(true, Short([pos], kid, NewFlag(gen)))), t, root, key, []))
  {
    hide Bounded, Stored, HashOf, Big, DecodeNode, Lookup, Updates, IsHex, Norm;
    if kid.HashNode? { Resolves(env, kid.hash, d, false, gen); }
    var cnode := Resolve(env, kid, gen);
    if cnode.Ok? {
      var m := cnode.value;
      assert Rep(env, m, d, false) && !m.HashNode?;
      if m.Short? {
        JoinUpdates(t, [pos], d, key);
        JoinNorm([pos], d.key, d.child);
        Changed(env, Short([pos] + m.key, m.val, NewFlag(gen)), t, Ext([pos] + d.key, d.child), root, key);
      } else {
        NormInner(d);
        NibbleNorm(pos, d);
        Changed(env, Short([pos], kid, NewFlag(gen)), t, Ext([pos], d), root, key);
      }
    }
  }

  lemma JoinUpdates(t: Tree, k: seq<byte>, d: Tree, key: seq<byte>)
    requires d.Ext? && Updates(t, Ext(k, d), key, [])
    ensures Updates(t, Ext(k + d.key, d.child), key, [])
  {
    hide Lookup;
    JoinExt(k, d.key, d.child);
  }

  lemma NibbleNorm(pos: byte, d: Tree)
    requires pos < 16 && Norm(d) && d.Branch?
    ensures Norm(Ext([pos], d))
  {
  }
}
