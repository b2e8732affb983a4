/**
 Trie nodes (trie/node.go), how a tree is laid out in bytes, and the proof that
 decoding a stored node gives that node back.
 */
module TrieNode {
  import opened Bytes
  import opened RlpSpec
  import opened RlpRaw
  import opened HexPrefix
  import opened TrieTree

  type Hash = seq<byte>

  /** common.Hash{}, which stands for no hash. */
  function ZeroHash(): Hash { seq(32, _ => 0 as byte) }

  /** Keccak-256 as far as the trie is concerned: some function to 32 bytes. */
  type Hasher = h: seq<byte> -> Hash | forall x :: |h(x)| == 32 witness (_: seq<byte>) => seq(32, _ => 0 as byte)

  /** nodeFlag: the cached hash if there is one, the cache generation, not yet committed. */
  datatype Flags = Flags(hash: Option<Hash>, gen: nat, dirty: bool)

  datatype Node =
    | Nil
    | Value(value: seq<byte>)
    | Short(key: seq<byte>, val: Node, flags: Flags)
    | Full(children: seq<Node>, flags: Flags)
    | HashNode(hash: Hash)

  // ----- the bytes of a tree -----

  /** The RLP value of a short or full node; children of 32 bytes or more appear by hash. */
  function NodeItem(h: Hasher, t: Tree): Item
    decreases t, 0
  {
    match t
    case Ext(k, c) => Item.List([Str(if IsHex(k) then Compact(k) else []), RefItem(h, c)])
    case Branch(cs) => Item.List(RefItems(h, cs))
    case _ => Str([])
  }

  function Enc(h: Hasher, t: Tree): seq<byte> decreases t, 1 { Encode(NodeItem(h, t)) }

  predicate Big(h: Hasher, t: Tree) decreases t, 2 { |Enc(h, t)| >= 32 }

  /** How a parent refers to a child. */
  function RefItem(h: Hasher, t: Tree): Item
    decreases t, 3
  {
    match t
    case Empty => Str([])
    case Val(v) => Str(v)
    case _ => if Big(h, t) then Str(h(Enc(h, t))) else NodeItem(h, t)
  }

  function RefItems(h: Hasher, ts: seq<Tree>): (items: seq<Item>)
    ensures |items| == |ts|
    ensures forall i :: 0 <= i < |ts| ==> items[i] == RefItem(h, ts[i])
    decreases ts, 4
  {
    if ts == [] then [] else [RefItem(h, ts[0])] + RefItems(h, ts[1..])
  }

  predicate Inner(t: Tree) { t.Ext? || t.Branch? }

  lemma NormInner(t: Tree)
    requires Norm(t)
    ensures Inner(t)
  {
  }

  /** The hash of a node computed from scratch. */
  function HashOf(h: Hasher, t: Tree): Hash { h(Enc(h, t)) }

  lemma HashIs(h: Hasher, t: Tree)
    ensures HashOf(h, t) == h(Enc(h, t))
  {
    hide Enc;
  }

  // ----- decoding -----

  datatype NodeError = BadRlp(rlp: Error) | BadCount | BadRef | Panics

  datatype Ref = Ref(node: Node, rest: seq<byte>)

  datatype Refs = Refs(nodes: seq<Node>, rest: seq<byte>)

  /** decodeNode */
  function DecodeNode(hash: Option<Hash>, buf: seq<byte>, gen: nat): Result<Node, NodeError>
    decreases |buf|, 0
  {
    match SplitList(buf)
    case Err(e) => Err(BadRlp(e))
    case Ok(p) =>
      SplitShrinks(buf);
      match CountOf(p.content)
      case Count(2) => DecodeShort(hash, p.content, gen)
      case Count(17) => DecodeFull(hash, p.content, gen)
      case _ => Err(BadCount)
  }

  /** decodeShort; an empty key makes compactToHex panic. */
  function DecodeShort(hash: Option<Hash>, elems: seq<byte>, gen: nat): Result<Node, NodeError>
    decreases |elems|, 2
  {
    match SplitString(elems)
    case Err(e) => Err(BadRlp(e))
    case Ok(p) =>
      if p.content == [] then Err(Panics)
      else
        var key := Uncompact(p.content);
        if HasTerm(key) then
          match SplitString(p.rest)
          case Err(e) => Err(BadRlp(e))
          case Ok(q) => Ok(Short(key, Value(q.content), Flags(hash, gen, false)))
        else
          SplitShrinks(elems);
          match DecodeRef(p.rest, gen)
          case Err(e) => Err(e)
          case Ok(r) => Ok(Short(key, r.node, Flags(hash, gen, false)))
  }

  /** decodeFull: sixteen references, then the value. */
  function DecodeFull(hash: Option<Hash>, elems: seq<byte>, gen: nat): Result<Node, NodeError>
    decreases |elems|, 3
  {
    match DecodeRefs(elems, 16, gen)
    case Err(e) => Err(e)
    case Ok(r) =>
      match SplitString(r.rest)
      case Err(e) => Err(BadRlp(e))
      case Ok(q) =>
        Ok(Full(r.nodes + [if q.content == [] then Nil else Value(q.content)], Flags(hash, gen, false)))
  }

  function DecodeRefs(elems: seq<byte>, n: nat, gen: nat): Result<Refs, NodeError>
    decreases |elems|, 2, n
  {
    if n == 0 then Ok(Refs([], elems))
    else
      match DecodeRef(elems, gen)
      case Err(e) => Err(e)
      case Ok(r) =>
        match DecodeRefs(r.rest, n - 1, gen)
        case Err(e) => Err(e)
        case Ok(rs) => Ok(Refs([r.node] + rs.nodes, rs.rest))
  }

  /** decodeRef: an embedded node, nothing, or a hash. */
  function DecodeRef(buf: seq<byte>, gen: nat): (r: Result<Ref, NodeError>)
    ensures r.Ok? ==> |r.value.rest| < |buf|
    decreases |buf|, 1
  {
    match Split(buf)
    case Err(e) => Err(BadRlp(e))
    case Ok(p) =>
      SplitShrinks(buf);
      if p.kind == KList then
        if |buf| - |p.rest| > 32 then Err(BadRef)
        else
          match DecodeNode(None, buf, gen)
          case Err(e) => Err(e)
          case Ok(n) => Ok(Ref(n, p.rest))
      else if p.kind == KString && |p.content| == 0 then Ok(Ref(Nil, p.rest))
      else if p.kind == KString && |p.content| == 32 then Ok(Ref(HashNode(p.content), p.rest))
      else Err(BadRef)
  }

  lemma SplitShrinks(b: seq<byte>)
    requires Split(b).Ok?
    ensures |Split(b).value.rest| < |b|
    ensures Split(b).value.kind == KList ==> |Split(b).value.content| < |b|
  {
  }

  // ----- decoding what was stored -----

  /** The node that the bytes of t decode to: children of 32 bytes or more are not loaded. */
  function NodeOf(h: Hasher, t: Tree, hash: Option<Hash>, gen: nat): Node
    decreases t, 0
  {
    match t
    case Ext(k, c) => Short(k, RefNode(h, c, gen), Flags(hash, gen, false))
    case Branch(cs) => Full(RefNodes(h, cs, gen), Flags(hash, gen, false))
    case _ => Nil
  }

  function RefNode(h: Hasher, t: Tree, gen: nat): Node
    decreases t, 1
  {
    match t
    case Empty => Nil
    case Val(v) => Value(v)
    case _ => if Big(h, t) then HashNode(HashOf(h, t)) else NodeOf(h, t, None, gen)
  }

  function RefNodes(h: Hasher, ts: seq<Tree>, gen: nat): (ns: seq<Node>)
    ensures |ns| == |ts|
    ensures forall i :: 0 <= i < |ts| ==> ns[i] == RefNode(h, ts[i], gen)
    decreases ts, 2
  {
    if ts == [] then [] else [RefNode(h, ts[0], gen)] + RefNodes(h, ts[1..], gen)
  }

  /** Decoding the stored bytes of a normal node gives that node back. */
  lemma {:induction false} DecodeStored(h: Hasher, t: Tree, hash: Option<Hash>, gen: nat, rest: seq<byte>)
    requires Norm(t) && |Enc(h, t)| < TWO_64
    ensures DecodeNode(hash, Enc(h, t) + rest, gen) == Ok(NodeOf(h, t, hash, gen))
    decreases t, 0
  {
    var items := NodeItem(h, t).items;
    SplitEncode(NodeItem(h, t), rest);
    CountEncodeAll(items);
    DecodeNodeStep(hash, Enc(h, t) + rest, gen, items, rest);
    match t
    case Ext(k, c) => DecodeStoredShort(h, k, c, hash, gen);
    case Branch(cs) => DecodeStoredFull(h, cs, hash, gen);
  }

  lemma DecodeNodeStep(hash: Option<Hash>, buf: seq<byte>, gen: nat, items: seq<Item>, rest: seq<byte>)
    requires Split(buf) == Ok(Part(KList, EncodeAll(items), rest))
    requires CountOf(EncodeAll(items)) == Count(|items|)
    ensures |items| == 2 ==> DecodeNode(hash, buf, gen) == DecodeShort(hash, EncodeAll(items), gen)
    ensures |items| == 17 ==> DecodeNode(hash, buf, gen) == DecodeFull(hash, EncodeAll(items), gen)
  {
  }

  lemma {:induction false} DecodeStoredShort(h: Hasher, k: seq<byte>, c: Tree, hash: Option<Hash>, gen: nat)
    requires Norm(Ext(k, c)) && |Enc(h, Ext(k, c))| < TWO_64
    ensures DecodeShort(hash, EncodeAll(NodeItem(h, Ext(k, c)).items), gen)
         == Ok(Short(k, RefNode(h, c, gen), Flags(hash, gen, false)))
    decreases c, 2
  {
    var first, second := Str(Compact(k)), RefItem(h, c);
    EncodeAllTwo(first, second);
    UncompactOfCompact(k);
    if HasTerm(k) {
      DecodeLeaf(k, c.value, hash, gen);
    } else {
      DecodeStoredRef(h, c, gen, []);
      DecodeExtension(k, second, RefNode(h, c, gen), hash, gen);
    }
  }

  lemma DecodeLeaf(k: seq<byte>, v: seq<byte>, hash: Option<Hash>, gen: nat)
    requires IsHex(k) && HasTerm(k) && Uncompact(Compact(k)) == k
    requires |Encode(Str(Compact(k)))| < TWO_64 && |Encode(Str(v))| < TWO_64
    ensures DecodeShort(hash, Encode(Str(Compact(k))) + Encode(Str(v)), gen) ==
            Ok(Short(k, Value(v), Flags(hash, gen, false)))
  {
    SplitEncode(Str(Compact(k)), Encode(Str(v)));
    SplitEncode(Str(v), []);
    assert Encode(Str(v)) + [] == Encode(Str(v));
  }

  lemma DecodeExtension(k: seq<byte>, ref: Item, n: Node, hash: Option<Hash>, gen: nat)
    requires IsHex(k) && !HasTerm(k) && Uncompact(Compact(k)) == k
    requires |Encode(Str(Compact(k)))| < TWO_64
    requires DecodeRef(Encode(ref) + [], gen) == Ok(Ref(n, []))
    ensures DecodeShort(hash, Encode(Str(Compact(k))) + Encode(ref), gen) == Ok(Short(k, n, Flags(hash, gen, false)))
  {
    SplitEncode(Str(Compact(k)), Encode(ref));
    assert Encode(ref) + [] == Encode(ref);
  }

  lemma EncodeAllTwo(v: Item, w: Item)
    ensures EncodeAll([v, w]) == Encode(v) + Encode(w)
  {
    assert [v, w][1..] == [w];
    EncodeAllOne(w);
  }

  lemma {:induction false} DecodeStoredRef(h: Hasher, c: Tree, gen: nat, rest: seq<byte>)
    requires c.Empty? || Norm(c)
    ensures DecodeRef(Encode(RefItem(h, c)) + rest, gen) == Ok(Ref(RefNode(h, c, gen), rest))
    decreases c, 1
  {
    if c.Empty? {
      DecodeRefString([], gen, rest);
    } else if Big(h, c) {
      DecodeRefString(HashOf(h, c), gen, rest);
    } else {
      DecodeStored(h, c, None, gen, rest);
      SplitEncode(NodeItem(h, c), rest);
    }
  }

  lemma DecodeRefString(b: seq<byte>, gen: nat, rest: seq<byte>)
    requires |b| == 0 || |b| == 32
    ensures DecodeRef(EncodeStr(b) + rest, gen) == Ok(Ref(if b == [] then Nil else HashNode(b), rest))
  {
    assert EncodeStr(b) == Encode(Str(b));
    SplitEncode(Str(b), rest);
  }

  lemma {:induction false} DecodeStoredFull(h: Hasher, cs: seq<Tree>, hash: Option<Hash>, gen: nat)
    requires Norm(Branch(cs)) && |Enc(h, Branch(cs))| < TWO_64
    ensures DecodeFull(hash, EncodeAll(RefItems(h, cs)), gen) == Ok(Full(RefNodes(h, cs, gen), Flags(hash, gen, false)))
    decreases cs, 5
  {
    var v := if cs[16].Empty? then [] else cs[16].value;
    assert RefItem(h, cs[16]) == Str(v);
    RefItemsSnoc(h, cs);
    DecodeStoredRefs(h, cs[..16], gen, Encode(Str(v)));
    DecodeFullStep(EncodeAll(RefItems(h, cs)), RefNodes(h, cs[..16], gen), v, hash, gen);
    RefNodesSnoc(h, cs, gen);
  }

  lemma RefNodesSnoc(h: Hasher, cs: seq<Tree>, gen: nat)
    requires |cs| == 17
    ensures RefNodes(h, cs, gen) == RefNodes(h, cs[..16], gen) + [RefNode(h, cs[16], gen)]
  {
  }

  lemma DecodeFullStep(elems: seq<byte>, ns: seq<Node>, v: seq<byte>, hash: Option<Hash>, gen: nat)
    requires DecodeRefs(elems, 16, gen) == Ok(Refs(ns, Encode(Str(v)))) && |Encode(Str(v))| < TWO_64
    ensures DecodeFull(hash, elems, gen) == Ok(Full(ns + [if v == [] then Nil else Value(v)], Flags(hash, gen, false)))
  {
    SplitEncode(Str(v), []);
    assert Encode(Str(v)) + [] == Encode(Str(v));
  }

  lemma {:induction false} RefItemsSnoc(h: Hasher, cs: seq<Tree>)
    requires |cs| == 17
    ensures EncodeAll(RefItems(h, cs)) == EncodeAll(RefItems(h, cs[..16])) + Encode(RefItem(h, cs[16]))
    ensures |Encode(RefItem(h, cs[16]))| <= |EncodeAll(RefItems(h, cs))|
  {
    var front, last := RefItems(h, cs[..16]), RefItem(h, cs[16]);
    assert RefItems(h, cs) == front + [last];
    EncodeAllConcat(front, [last]);
    EncodeAllOne(last);
  }

  lemma {:induction false} DecodeStoredRefs(h: Hasher, ts: seq<Tree>, gen: nat, rest: seq<byte>)
    requires forall i :: 0 <= i < |ts| ==> ts[i].Empty? || Norm(ts[i])
    ensures DecodeRefs(EncodeAll(RefItems(h, ts)) + rest, |ts|, gen) == Ok(Refs(RefNodes(h, ts, gen), rest))
    decreases ts, 3
  {
    if ts == [] {
      assert [] + rest == rest;
    } else {
      var tail := EncodeAll(RefItems(h, ts[1..])) + rest;
      DecodeStoredRef(h, ts[0], gen, tail);
      DecodeStoredRefs(h, ts[1..], gen, rest);
      DecodeRefsStep(Encode(RefItem(h, ts[0])) + tail, |ts| - 1, gen, RefNode(h, ts[0], gen), tail,
                     RefNodes(h, ts[1..], gen), rest);
      ConsBefore(RefItem(h, ts[0]), RefItems(h, ts[1..]), rest);
    }
  }

  lemma ConsBefore(v: Item, vs: seq<Item>, rest: seq<byte>)
    ensures EncodeAll([v] + vs) + rest == Encode(v) + (EncodeAll(vs) + rest)
  {
    assert ([v] + vs)[1..] == vs;
  }

  lemma DecodeRefsStep(buf: seq<byte>, n: nat, gen: nat, first: Node, tail: seq<byte>, ns: seq<Node>, rest: seq<byte>)
    requires DecodeRef(buf, gen) == Ok(Ref(first, tail)) && DecodeRefs(tail, n, gen) == Ok(Refs(ns, rest))
    ensures DecodeRefs(buf, n + 1, gen) == Ok(Refs([first] + ns, rest))
  {
  }

  // ----- sizes -----

  /** Stored paths and values have lengths that a 64-bit machine can hold. */
  ghost predicate Bounded(t: Tree)
  {
    forall p :: Lookup(t, p) != [] ==> |p| < LIMIT && |Lookup(t, p)| < LIMIT
  }

  lemma BoundedExt(k: seq<byte>, c: Tree)
    requires Bounded(Ext(k, c)) && (Norm(c) || GoodVal(c))
    ensures Bounded(c) && |k| < LIMIT
  {
    forall q | Lookup(c, q) != [] ensures |q| < LIMIT && |Lookup(c, q)| < LIMIT && |k| < LIMIT {
      LookupExt(k, c, q);
    }
    var q := SomePath(c);
  }

  lemma BoundedBranch(cs: seq<Tree>, i: nat)
    requires Bounded(Branch(cs)) && i < |cs| == 17
    ensures Bounded(cs[i])
  {
    forall q | Lookup(cs[i], q) != [] ensures |q| < LIMIT && |Lookup(cs[i], q)| < LIMIT {
      LookupBranch(cs, i, q);
    }
  }

  /** What a bounded node is stored as decodes to it. */
  lemma Decoded(h: Hasher, t: Tree, x: Hash)
    requires Norm(t) && Bounded(t)
    ensures DecodeNode(Some(x), Enc(h, t), 0) == Ok(NodeOf(h, t, Some(x), 0))
  {
    hide *;
    EncBounded(h, t);
    DecodeStored(h, t, Some(x), 0, []);
    assert Enc(h, t) + [] == Enc(h, t);
  }

  /** A bounded node has an encoding. */
  lemma {:induction false} EncBounded(h: Hasher, t: Tree)
    requires Norm(t) && Bounded(t)
    ensures |Enc(h, t)| < TWO_64
  {
    match t
    case Ext(k, c) =>
      BoundedExt(k, c);
      StrBound(Compact(k));
      RefBound(h, c);
      EncodeAllTwo(Str(Compact(k)), RefItem(h, c));
      HeadBound(|EncodeAll(NodeItem(h, t).items)|);
    case Branch(cs) =>
      RefItemsSnoc(h, cs);
      RefsBound(h, cs[..16]);
      BoundedBranch(cs, 16);
      RefBound(h, cs[16]);
      HeadBound(|EncodeAll(RefItems(h, cs))|);
  }

  lemma HeadBound(n: nat)
    requires n < TWO_64
    ensures |ListHead(n)| <= 9 && |StrHead(n)| <= 9
  {
    MinimalFits64(n);
  }

  lemma StrBound(b: seq<byte>)
    requires |b| < TWO_64
    ensures |Encode(Str(b))| <= |b| + 9
  {
    HeadBound(|b|);
  }

  lemma RefBound(h: Hasher, c: Tree)
    requires c.Val? ==> Bounded(c)
    ensures |Encode(RefItem(h, c))| <= LIMIT + 9
    ensures !c.Val? ==> |Encode(RefItem(h, c))| <= 41
  {
    if c.Val? {
      assert Lookup(c, []) == c.value;
      StrBound(c.value);
    } else if c.Empty? {
      StrBound([]);
    } else {
      InnerRefBound(h, c);
    }
  }

  lemma InnerRefBound(h: Hasher, c: Tree)
    requires Inner(c)
    ensures |Encode(RefItem(h, c))| <= 41
  {
    if Big(h, c) {
      var x := HashOf(h, c);
      StrBound(x);
      assert RefItem(h, c) == Str(x);
    } else {
      assert Encode(RefItem(h, c)) == Enc(h, c);
    }
  }

  lemma {:induction false} RefsBound(h: Hasher, ts: seq<Tree>)
    requires forall i :: 0 <= i < |ts| ==> ts[i].Empty? || Norm(ts[i])
    ensures |EncodeAll(RefItems(h, ts))| <= 41 * |ts|
  {
    if ts != [] {
      RefBound(h, ts[0]);
      RefsBound(h, ts[1..]);
      ConsBefore(RefItem(h, ts[0]), RefItems(h, ts[1..]), []);
    }
  }
}
