/**
 Splitting RLP without decoding it (rlp/raw.go), proved to be the exact inverse
 of the recursive encoding. Everything downstream reads RLP through this module.
 */
module RlpRaw {
  import opened Bytes
  import opened RlpSpec

  datatype Kind = KByte | KString | KList

  datatype Tag = Tag(kind: Kind, tagsize: nat, contentsize: nat)

  datatype Part = Part(kind: Kind, content: seq<byte>, rest: seq<byte>)

  function ReadSize(b: seq<byte>, slen: nat): Result<nat, Error>
  {
    if slen > |b| then Err(UnexpectedEOF)
    else
      var s := BigEndian(b[..slen]);
      if s < 56 || (slen > 0 && b[0] == 0) then Err(CanonSize) else Ok(s)
  }

  function ReadKind(buf: seq<byte>): Result<Tag, Error>
  {
    if |buf| == 0 then Err(UnexpectedEOF)
    else
      var b := buf[0];
      if b < 0x80 then CheckFits(buf, Tag(KByte, 0, 1))
      else if b < 0xB8 then
        if b == 0x81 && |buf| > 1 && buf[1] < 128 then Err(CanonSize)
        else CheckFits(buf, Tag(KString, 1, b - 0x80))
      else if b < 0xC0 then
        match ReadSize(buf[1..], b - 0xB7)
        case Err(e) => Err(e)
        case Ok(n) => CheckFits(buf, Tag(KString, b - 0xB7 + 1, n))
      else if b < 0xF8 then CheckFits(buf, Tag(KList, 1, b - 0xC0))
      else
        match ReadSize(buf[1..], b - 0xF7)
        case Err(e) => Err(e)
        case Ok(n) => CheckFits(buf, Tag(KList, b - 0xF7 + 1, n))
  }

  function CheckFits(buf: seq<byte>, t: Tag): (r: Result<Tag, Error>)
    requires t.tagsize <= |buf|
    ensures r.Ok? ==> r.value == t && t.tagsize + t.contentsize <= |buf|
  {
    if t.contentsize > |buf| - t.tagsize then Err(ValueTooLarge) else Ok(t)
  }

  function Split(b: seq<byte>): Result<Part, Error>
  {
    match ReadKind(b)
    case Err(e) => Err(e)
    case Ok(t) =>
      Ok(Part(t.kind, b[t.tagsize..t.tagsize + t.contentsize], b[t.tagsize + t.contentsize..]))
  }

  function SplitString(b: seq<byte>): Result<Part, Error>
  {
    match Split(b)
    case Err(e) => Err(e)
    case Ok(p) => if p.kind == KList then Err(ExpectedString) else Ok(p)
  }

  function SplitList(b: seq<byte>): Result<Part, Error>
  {
    match Split(b)
    case Err(e) => Err(e)
    case Ok(p) => if p.kind != KList then Err(ExpectedList) else Ok(p)
  }

  /** The bytes in front of which a header of the given kind is put. */
  function Wrap(kind: Kind, content: seq<byte>): seq<byte>
  {
    if kind == KList then ListHead(|content|) + content else EncodeStr(content)
  }

  /** The kind that the encoding of a string or a list announces. */
  function KindOf(kind: Kind, content: seq<byte>): Kind
  {
    if kind == KList then KList else if SingleByte(content) then KByte else KString
  }

  /** Only canonical headers are accepted: putting the header back gives the input. */
  lemma SplitSound(b: seq<byte>)
    requires Split(b).Ok?
    ensures var p := Split(b).value;
            b == Wrap(p.kind, p.content) + p.rest && p.kind == KindOf(p.kind, p.content)
  {
    TagSound(b);
    var t, p := ReadKind(b).value, Split(b).value;
    assert b == b[..t.tagsize] + p.content + p.rest;
  }

  lemma TagSound(b: seq<byte>)
    requires ReadKind(b).Ok?
    ensures var t := ReadKind(b).value;
            && t.tagsize + t.contentsize <= |b|
            && (t.kind == KByte ==> t == Tag(KByte, 0, 1) && b[0] < 0x80)
            && (t.kind == KString ==> b[..t.tagsize] == StrHead(t.contentsize)
                                      && !SingleByte(b[t.tagsize..t.tagsize + t.contentsize]))
            && (t.kind == KList ==> b[..t.tagsize] == ListHead(t.contentsize))
  {
    if 0xB8 <= b[0] < 0xC0 || b[0] >= 0xF8 {
      LongTagSound(b);
    } else {
      ShortTagSound(b);
    }
  }

  lemma LongTagSound(b: seq<byte>)
    requires ReadKind(b).Ok? && (0xB8 <= b[0] < 0xC0 || b[0] >= 0xF8)
    ensures var t := ReadKind(b).value;
            && t.kind != KByte && t.contentsize >= 56
            && b[..t.tagsize] == if t.kind == KString then StrHead(t.contentsize) else ListHead(t.contentsize)
  {
    hide BigEndian, MinimalBytes;
    LongHead(b, if b[0] < 0xC0 then 0xB7 else 0xF7);
  }

  lemma ShortTagSound(b: seq<byte>)
    requires ReadKind(b).Ok? && (b[0] < 0xB8 || 0xC0 <= b[0] < 0xF8)
    ensures var t := ReadKind(b).value;
            && (t.kind == KByte ==> t == Tag(KByte, 0, 1) && b[0] < 0x80)
            && (t.kind == KString ==> t.tagsize == 1 && [b[0]] == StrHead(t.contentsize)
                                      && !SingleByte(b[1..1 + t.contentsize]))
            && (t.kind == KList ==> t.tagsize == 1 && [b[0]] == ListHead(t.contentsize))
  {
    hide BigEndian, MinimalBytes, ReadSize;
    if b[0] == 0x81 { assert b[1..2][0] == b[1]; }
  }

  lemma LongHead(b: seq<byte>, tag: byte)
    requires |b| > 0 && 1 <= b[0] - tag <= 8
    requires ReadSize(b[1..], b[0] - tag).Ok?
    ensures var n := ReadSize(b[1..], b[0] - tag).value;
            n >= 56 && b[..b[0] - tag + 1] == [tag + |MinimalBytes(n)|] + MinimalBytes(n)
  {
    var slen := b[0] - tag;
    MinimalOfBigEndian(b[1..][..slen]);
    assert b[..slen + 1] == [b[0]] + b[1..][..slen];
  }

  /** A header is read back as the kind and size it was made from. */
  lemma ReadHead(kind: Kind, n: nat, tail: seq<byte>)
    requires kind != KByte && n < TWO_64 && n <= |tail|
    requires kind == KString ==> !SingleByte(tail[..n])
    ensures var head := if kind == KList then ListHead(n) else StrHead(n);
            ReadKind(head + tail) == Ok(Tag(kind, |head|, n))
  {
    if n >= 56 {
      ReadLongHead(kind, n, tail);
    } else {
      ReadShortHead(kind, n, tail);
    }
  }

  lemma ReadShortHead(kind: Kind, n: nat, tail: seq<byte>)
    requires kind != KByte && n < 56 && n <= |tail|
    requires kind == KString ==> !SingleByte(tail[..n])
    ensures ReadKind([(if kind == KList then 0xC0 else 0x80) + n] + tail) == Ok(Tag(kind, 1, n))
  {
    var b: seq<byte> := [(if kind == KList then 0xC0 else 0x80) + n] + tail;
    assert n == 1 ==> tail[..n][0] == b[1];
  }

  lemma ReadLongHead(kind: Kind, n: nat, tail: seq<byte>)
    requires kind != KByte && 56 <= n < TWO_64 && n <= |tail|
    ensures var head := if kind == KList then ListHead(n) else StrHead(n);
            ReadKind(head + tail) == Ok(Tag(kind, |head|, n))
  {
    hide MinimalBytes, BigEndian;
    var head := if kind == KList then ListHead(n) else StrHead(n);
    var b := head + tail;
    assert b[1..] == MinimalBytes(n) + tail;
    ReadLongSize(n, b);
    assert b[0] == (if kind == KList then 0xF7 else 0xB7) + |MinimalBytes(n)|;
  }

  lemma ReadLongSize(n: nat, b: seq<byte>)
    requires 56 <= n < TWO_64
    requires |b| > 0 && MinimalBytes(n) <= b[1..]
    ensures 1 <= |MinimalBytes(n)| <= 8
    ensures ReadSize(b[1..], |MinimalBytes(n)|) == Ok(n)
  {
    var m := MinimalBytes(n);
    MinimalFits64(n);
    BigEndianOfMinimal(n);
    assert b[1..][..|m|] == m;
    assert b[1..][0] == m[0];
  }

  /** Splitting what was wrapped returns kind, content and the bytes that follow. */
  lemma SplitWrap(kind: Kind, content: seq<byte>, rest: seq<byte>)
    requires |content| < TWO_64
    ensures Split(Wrap(kind, content) + rest) == Ok(Part(KindOf(kind, content), content, rest))
  {
    hide MinimalBytes, BigEndian, ReadSize, Head;
    var b := Wrap(kind, content) + rest;
    if kind != KList && SingleByte(content) {
      assert b[0..1] == content && b[1..] == rest;
    } else {
      var k := KindOf(kind, content);
      var head := if k == KList then ListHead(|content|) else StrHead(|content|);
      assert (content + rest)[..|content|] == content;
      ReadHead(k, |content|, content + rest);
      Concat3(head, content, rest);
      SplitOfTag(k, head, content, rest);
    }
  }

  lemma SplitOfTag(k: Kind, head: seq<byte>, content: seq<byte>, rest: seq<byte>)
    requires ReadKind(head + (content + rest)) == Ok(Tag(k, |head|, |content|))
    ensures Split(head + (content + rest)) == Ok(Part(k, content, rest))
  {
    hide ReadKind;
    var b := head + (content + rest);
    assert b[|head|..|head| + |content|] == content;
    assert b[|head| + |content|..] == rest;
  }

  /** The content of an encoded value: its bytes, or the encodings of its elements. */
  function Payload(v: Item): seq<byte>
  {
    match v
    case Str(b) => b
    case List(items) => EncodeAll(items)
  }

  function ItemKind(v: Item): Kind
  {
    match v
    case Str(b) => if SingleByte(b) then KByte else KString
    case List(_) => KList
  }

  lemma SplitEncode(v: Item, rest: seq<byte>)
    requires Encodable(v)
    ensures Split(Encode(v) + rest) == Ok(Part(ItemKind(v), Payload(v), rest))
  {
    SplitWrap(ItemKind(v), Payload(v), rest);
  }

  /** No encoding is a proper prefix of another, and each value has its own. */
  lemma {:induction false} EncodePrefixFree(v: Item, w: Item, r: seq<byte>, s: seq<byte>)
    requires Encodable(v) && Encodable(w)
    requires Encode(v) + r == Encode(w) + s
    ensures v == w && r == s
    decreases v
  {
    SplitEncode(v, r);
    SplitEncode(w, s);
    if v.List? {
      EncodeAllInjective(v.items, w.items);
    }
  }

  lemma {:induction false} EncodeAllInjective(vs: seq<Item>, ws: seq<Item>)
    requires EncodeAll(vs) == EncodeAll(ws)
    requires |EncodeAll(vs)| < TWO_64
    ensures vs == ws
    decreases vs
  {
    if vs == [] || ws == [] {
      assert vs == [] && ws == [];
    } else {
      EncodePrefixFree(vs[0], ws[0], EncodeAll(vs[1..]), EncodeAll(ws[1..]));
      EncodeAllInjective(vs[1..], ws[1..]);
      assert vs == [vs[0]] + vs[1..] && ws == [ws[0]] + ws[1..];
    }
  }

  datatype Count = Count(n: nat) | CountErr(error: Error)

  /** The loop of CountValues: how many values are laid end to end in b. */
  method CountValues(b: seq<byte>) returns (c: Count)
    ensures c == CountOf(b)
  {
    var rest, i := b, 0;
    while |rest| > 0
      invariant CountOf(b) == match CountOf(rest) { case Count(n) => Count(n + i) case CountErr(e) => CountErr(e) }
      decreases |rest|
    {
      var t := ReadKind(rest);
      if t.Err? { return CountErr(t.error); }
      TagAdvances(rest);
      rest := rest[t.value.tagsize + t.value.contentsize..];
      i := i + 1;
    }
    c := Count(i);
  }

  lemma TagAdvances(b: seq<byte>)
    requires ReadKind(b).Ok?
    ensures 0 < ReadKind(b).value.tagsize + ReadKind(b).value.contentsize <= |b|
  {
  }

  function CountOf(b: seq<byte>): Count
    decreases |b|
  {
    if |b| == 0 then Count(0)
    else
      match ReadKind(b)
      case Err(e) => CountErr(e)
      case Ok(t) =>
        TagAdvances(b);
        match CountOf(b[t.tagsize + t.contentsize..])
        case Count(n) => Count(n + 1)
        case CountErr(e) => CountErr(e)
  }

  /** Counting the concatenated encodings of a list's elements finds them all. */
  lemma {:induction false} CountEncodeAll(vs: seq<Item>)
    requires |EncodeAll(vs)| < TWO_64
    ensures CountOf(EncodeAll(vs)) == Count(|vs|)
  {
    if vs != [] {
      SplitEncode(vs[0], EncodeAll(vs[1..]));
      CountEncodeAll(vs[1..]);
    }
  }
}
