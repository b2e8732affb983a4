/**
 The buffer layout behind rlp/encode.go: string data in one piece, list headers in
 a side list. Splicing the headers back in is proved equal to the recursive encoding.
 */
module RlpSplice {
  import opened Bytes
  import opened RlpSpec

  /** Offset of a header in the string data, and the size of the list's content. */
  datatype ListMark = ListMark(offset: nat, size: nat)

  /** The string data of a value: its encoding without any list header. */
  function Flat(v: Item): seq<byte>
  {
    match v
    case Str(b) => EncodeStr(b)
    case List(items) => FlatAll(items)
  }

  function FlatAll(vs: seq<Item>): seq<byte>
  {
    if vs == [] then [] else Flat(vs[0]) + FlatAll(vs[1..])
  }

  /** The list headers of a value whose string data starts at off. */
  function Marks(v: Item, off: nat): seq<ListMark>
  {
    match v
    case Str(_) => []
    case List(items) => [ListMark(off, |EncodeAll(items)|)] + MarksAll(items, off)
  }

  function MarksAll(vs: seq<Item>, off: nat): seq<ListMark>
  {
    if vs == [] then [] else Marks(vs[0], off) + MarksAll(vs[1..], off + |Flat(vs[0])|)
  }

  /** The total size of the encoded headers. */
  function HeadBytes(heads: seq<ListMark>): nat
  {
    if heads == [] then 0 else |ListHead(heads[0].size)| + HeadBytes(heads[1..])
  }

  /** Headers stand in order of their offsets, all between from and to. */
  predicate Ordered(heads: seq<ListMark>, from: nat, to: nat)
  {
    if heads == [] then from <= to
    else from <= heads[0].offset && Ordered(heads[1..], heads[0].offset, to)
  }

  predicate Fits(heads: seq<ListMark>) { forall m :: m in heads ==> m.size < TWO_64 }

  /** The bytes from strpos on, with each header put where it belongs. */
  function Splice(str: seq<byte>, heads: seq<ListMark>, strpos: nat): seq<byte>
    requires Ordered(heads, strpos, |str|)
  {
    OrderedBounds(heads, strpos, |str|);
    if heads == [] then str[strpos..]
    else
      OrderedBounds(heads[1..], heads[0].offset, |str|);
      str[strpos..heads[0].offset] + ListHead(heads[0].size) + Splice(str, heads[1..], heads[0].offset)
  }

  lemma {:induction false} OrderedBounds(heads: seq<ListMark>, from: nat, to: nat)
    requires Ordered(heads, from, to)
    ensures from <= to
  {
    if heads != [] {
      OrderedBounds(heads[1..], heads[0].offset, to);
    }
  }

  lemma {:induction false} HeadBytesConcat(a: seq<ListMark>, b: seq<ListMark>)
    ensures HeadBytes(a + b) == HeadBytes(a) + HeadBytes(b)
  {
    if a == [] {
      assert a + b == b;
    } else {
      HeadBytesConcat(a[1..], b);
      assert (a + b)[1..] == a[1..] + b;
    }
  }

  /** String data and headers together are as long as the encoding. */
  lemma {:induction false} EncodedSize(v: Item, off: nat)
    ensures |Encode(v)| == |Flat(v)| + HeadBytes(Marks(v, off))
    decreases v
  {
    if v.List? {
      EncodedSizeAll(v.items, off);
      var m := Marks(v, off);
      assert m[1..] == MarksAll(v.items, off);
    }
  }

  lemma {:induction false} EncodedSizeAll(vs: seq<Item>, off: nat)
    ensures |EncodeAll(vs)| == |FlatAll(vs)| + HeadBytes(MarksAll(vs, off))
    decreases vs
  {
    if vs != [] {
      var next := off + |Flat(vs[0])|;
      EncodedSize(vs[0], off);
      EncodedSizeAll(vs[1..], next);
      HeadBytesConcat(Marks(vs[0], off), MarksAll(vs[1..], next));
    }
  }

  lemma {:induction false} MarksFit(v: Item, off: nat)
    requires Encodable(v)
    ensures Fits(Marks(v, off))
    decreases v
  {
    if v.List? {
      MarksAllFit(v.items, off);
    }
  }

  lemma {:induction false} MarksAllFit(vs: seq<Item>, off: nat)
    requires |EncodeAll(vs)| < TWO_64
    ensures Fits(MarksAll(vs, off))
    decreases vs
  {
    if vs != [] {
      MarksFit(vs[0], off);
      MarksAllFit(vs[1..], off + |Flat(vs[0])|);
    }
  }

  /** Splicing a value's headers into its string data gives its encoding. */
  lemma {:induction false} SpliceValue(v: Item, str: seq<byte>, p: nat, heads: seq<ListMark>)
    requires p + |Flat(v)| <= |str| && str[p..p + |Flat(v)|] == Flat(v)
    requires Ordered(heads, p + |Flat(v)|, |str|)
    ensures Ordered(Marks(v, p) + heads, p, |str|)
    ensures Splice(str, Marks(v, p) + heads, p) == Encode(v) + Splice(str, heads, p + |Flat(v)|)
    decreases v
  {
    match v
    case Str(b) => SpliceStr(b, str, p, heads);
    case List(items) =>
      SpliceAll(items, str, p, heads);
      SpliceList(items, str, p, heads);
  }

  lemma SpliceStr(b: seq<byte>, str: seq<byte>, p: nat, heads: seq<ListMark>)
    requires p + |EncodeStr(b)| <= |str| && str[p..p + |EncodeStr(b)|] == EncodeStr(b)
    requires Ordered(heads, p + |EncodeStr(b)|, |str|)
    ensures Ordered([] + heads, p, |str|)
    ensures Splice(str, [] + heads, p) == EncodeStr(b) + Splice(str, heads, p + |EncodeStr(b)|)
  {
    hide *;
    assert [] + heads == heads;
    SpliceSkip(str, heads, p, p + |EncodeStr(b)|);
  }

  lemma SpliceList(items: seq<Item>, str: seq<byte>, p: nat, heads: seq<ListMark>)
    requires p <= |str| && Ordered(MarksAll(items, p) + heads, p, |str|)
    ensures var head := ListMark(p, |EncodeAll(items)|);
            && Ordered([head] + MarksAll(items, p) + heads, p, |str|)
            && Splice(str, [head] + MarksAll(items, p) + heads, p)
               == ListHead(|EncodeAll(items)|) + Splice(str, MarksAll(items, p) + heads, p)
  {
    hide EncodeAll, MarksAll, ListHead;
    var head := ListMark(p, |EncodeAll(items)|);
    var all := [head] + MarksAll(items, p) + heads;
    assert all[0] == head && all[1..] == MarksAll(items, p) + heads;
    assert str[p..p] == [];
  }

  lemma {:induction false} SpliceAll(vs: seq<Item>, str: seq<byte>, p: nat, heads: seq<ListMark>)
    requires p + |FlatAll(vs)| <= |str| && str[p..p + |FlatAll(vs)|] == FlatAll(vs)
    requires Ordered(heads, p + |FlatAll(vs)|, |str|)
    ensures Ordered(MarksAll(vs, p) + heads, p, |str|)
    ensures Splice(str, MarksAll(vs, p) + heads, p) == EncodeAll(vs) + Splice(str, heads, p + |FlatAll(vs)|)
    decreases vs
  {
    hide *;
    AllOfNothing(p);
    if vs == [] {
      assert [] + heads == heads;
      assert [] + Splice(str, heads, p) == Splice(str, heads, p);
    } else {
      var mid, end := p + |Flat(vs[0])|, p + |FlatAll(vs)|;
      UnfoldFlat(vs);
      SubSlice(str, p, end, Flat(vs[0]), FlatAll(vs[1..]));
      SpliceAll(vs[1..], str, mid, heads);
      SpliceValue(vs[0], str, p, MarksAll(vs[1..], mid) + heads);
      SpliceCons(vs, str, p, heads);
    }
  }

  lemma UnfoldFlat(vs: seq<Item>)
    requires vs != []
    ensures FlatAll(vs) == Flat(vs[0]) + FlatAll(vs[1..])
  {
  }

  lemma UnfoldMarks(vs: seq<Item>, off: nat, next: nat)
    requires vs != [] && next == off + |Flat(vs[0])|
    ensures MarksAll(vs, off) == Marks(vs[0], off) + MarksAll(vs[1..], next)
  {
  }

  lemma AllOfNothing(off: nat)
    ensures FlatAll([]) == [] && EncodeAll([]) == [] && MarksAll([], off) == [] && HeadBytes([]) == 0
  {
  }

  lemma SpliceCons(vs: seq<Item>, str: seq<byte>, p: nat, heads: seq<ListMark>)
    requires vs != []
    requires var mid := p + |Flat(vs[0])|;
             var later, end := MarksAll(vs[1..], mid) + heads, p + |FlatAll(vs)|;
             && Ordered(heads, end, |str|) && Ordered(later, mid, |str|)
             && Ordered(Marks(vs[0], p) + later, p, |str|)
             && Splice(str, later, mid) == EncodeAll(vs[1..]) + Splice(str, heads, end)
             && Splice(str, Marks(vs[0], p) + later, p) == Encode(vs[0]) + Splice(str, later, mid)
    ensures Ordered(MarksAll(vs, p) + heads, p, |str|)
    ensures Splice(str, MarksAll(vs, p) + heads, p) == EncodeAll(vs) + Splice(str, heads, p + |FlatAll(vs)|)
  {
    Concat3(Marks(vs[0], p), MarksAll(vs[1..], p + |Flat(vs[0])|), heads);
    Concat3(Encode(vs[0]), EncodeAll(vs[1..]), Splice(str, heads, p + |FlatAll(vs)|));
  }

  lemma SpliceSkip(str: seq<byte>, heads: seq<ListMark>, from: nat, to: nat)
    requires from <= to && Ordered(heads, to, |str|)
    ensures to <= |str| && Ordered(heads, from, |str|)
    ensures Splice(str, heads, from) == str[from..to] + Splice(str, heads, to)
  {
    OrderedBounds(heads, to, |str|);
    if heads == [] {
      assert str[from..] == str[from..to] + str[to..];
    } else {
      var k := heads[0].offset;
      OrderedBounds(heads[1..], k, |str|);
      SliceSplit(str, from, to, k);
      ConcatAssoc4(str[from..to], str[to..k], ListHead(heads[0].size), Splice(str, heads[1..], k));
    }
  }

  lemma SliceSplit(s: seq<byte>, a: nat, b: nat, c: nat)
    requires a <= b <= c <= |s|
    ensures s[a..c] == s[a..b] + s[b..c]
  {
  }

  lemma ConcatAssoc4(a: seq<byte>, b: seq<byte>, c: seq<byte>, d: seq<byte>)
    ensures (a + b) + c + d == a + (b + c + d)
  {
  }

  lemma SubSlice(s: seq<byte>, a: nat, b: nat, left: seq<byte>, right: seq<byte>)
    requires a <= b <= |s| && s[a..b] == left + right
    ensures s[a..a + |left|] == left && s[a + |left|..b] == right
  {
    assert left == (left + right)[..|left|] && right == (left + right)[|left|..];
  }

  lemma {:induction false} SpliceLength(str: seq<byte>, heads: seq<ListMark>, strpos: nat)
    requires Ordered(heads, strpos, |str|)
    ensures |Splice(str, heads, strpos)| == |str| - strpos + HeadBytes(heads)
  {
    OrderedBounds(heads, strpos, |str|);
    if heads != [] {
      OrderedBounds(heads[1..], heads[0].offset, |str|);
      SpliceLength(str, heads[1..], heads[0].offset);
    }
  }

  /** What the buffer holds after writing one value is spliced to its encoding. */
  lemma SpliceWhole(v: Item)
    ensures Ordered(Marks(v, 0), 0, |Flat(v)|)
    ensures Splice(Flat(v), Marks(v, 0), 0) == Encode(v)
  {
    assert Flat(v)[0..|Flat(v)|] == Flat(v);
    SpliceValue(v, Flat(v), 0, []);
    assert Marks(v, 0) + [] == Marks(v, 0);
  }
}
