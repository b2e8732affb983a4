/**
 RLP as the Yellow Paper (Appendix B) defines it: a value is a byte string or a
 list of values, and its encoding is given by recursion on the value.
 */
module RlpSpec {
  import opened Bytes

  datatype Item = Str(bytes: seq<byte>) | List(items: seq<Item>)

  /** The errors of package rlp. */
  datatype Error =
    | EOL | EOF | UnexpectedEOF | CanonSize | ElemTooLarge | ValueTooLarge
    | ExpectedString | ExpectedList | NotInList | NotAtEOL | MoreThanOneValue

  /** The tag bytes in front of a payload of n bytes. The tag wraps like Go's byte(). */
  function Head(smalltag: byte, largetag: byte, n: nat): (s: seq<byte>)
    ensures |s| >= 1
  {
    if n < 56 then [(smalltag + n) % 256]
    else [(largetag + |MinimalBytes(n)|) % 256] + MinimalBytes(n)
  }

  function StrHead(n: nat): (s: seq<byte>) ensures |s| >= 1 { Head(0x80, 0xB7, n) }

  function ListHead(n: nat): (s: seq<byte>) ensures |s| >= 1 { Head(0xC0, 0xF7, n) }

  predicate SingleByte(b: seq<byte>) { |b| == 1 && b[0] < 0x80 }

  function EncodeStr(b: seq<byte>): (s: seq<byte>)
    ensures |s| >= 1
  {
    if SingleByte(b) then b else StrHead(|b|) + b
  }

  function Encode(v: Item): (s: seq<byte>)
    ensures |s| >= 1
  {
    match v
    case Str(b) => EncodeStr(b)
    case List(items) => ListHead(|EncodeAll(items)|) + EncodeAll(items)
  }

  function EncodeAll(vs: seq<Item>): (s: seq<byte>)
    ensures |s| >= |vs|
  {
    if vs == [] then [] else Encode(vs[0]) + EncodeAll(vs[1..])
  }

  /** Sizes are 64-bit numbers in the source, so only such values have an encoding. */
  predicate Encodable(v: Item) { |Encode(v)| < TWO_64 }

  lemma EncodeAllCons(v: Item, vs: seq<Item>)
    ensures EncodeAll([v] + vs) == Encode(v) + EncodeAll(vs)
  {
    hide Encode;
    assert ([v] + vs)[1..] == vs;
  }

  lemma {:induction false} EncodeAllConcat(vs: seq<Item>, ws: seq<Item>)
    ensures EncodeAll(vs + ws) == EncodeAll(vs) + EncodeAll(ws)
  {
    if vs == [] {
      assert vs + ws == ws;
    } else {
      EncodeAllConcat(vs[1..], ws);
      EncodeAllConsConcat(vs[0], vs[1..], ws);
      assert vs == [vs[0]] + vs[1..];
    }
  }

  lemma EncodeAllConsConcat(v: Item, vs: seq<Item>, ws: seq<Item>)
    requires EncodeAll(vs + ws) == EncodeAll(vs) + EncodeAll(ws)
    ensures EncodeAll([v] + vs + ws) == EncodeAll([v] + vs) + EncodeAll(ws)
  {
    hide *;
    assert [v] + vs + ws == [v] + (vs + ws);
    EncodeAllCons(v, vs + ws);
    EncodeAllCons(v, vs);
    Concat3(Encode(v), EncodeAll(vs), EncodeAll(ws));
  }

  lemma EncodeAllOne(v: Item)
    ensures EncodeAll([v]) == Encode(v)
  {
    assert [v][1..] == [];
  }
}
