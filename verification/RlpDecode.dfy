/**
 The stream decoder of rlp/decode.go, decoding into interface values. It reads a
 header at a time, keeps a stack of list positions and stops at the first error.
 Decoding is proved to accept exactly the encodings that RlpSpec defines.
 */
module RlpDecode {
  import opened Bytes
  import opened RlpSpec
  import opened RlpRaw

  datatype ListPos = ListPos(pos: nat, size: nat)

  /** The input behind a stream, and whether the stream enforces an input limit. */
  datatype Source = Source(data: seq<byte>, limited: bool)

  /** The position of a stream: reader offset, input limit left, open lists. */
  datatype Cursor = Cursor(pos: nat, remaining: nat, stack: seq<ListPos>)

  /** Every list lies within the part of the enclosing list not yet accounted for. */
  predicate Nested(stack: seq<ListPos>)
  {
    && (forall i :: 0 <= i < |stack| ==> stack[i].pos <= stack[i].size)
    && (forall i :: 0 <= i < |stack| - 1 ==> stack[i + 1].size <= stack[i].size - stack[i].pos)
  }

  /** Slice lengths are 64-bit numbers. */
  predicate Fine(src: Source, c: Cursor) { c.pos <= |src.data| < TWO_64 && Nested(c.stack) }

  function Top(stack: seq<ListPos>): ListPos requires stack != [] { stack[|stack| - 1] }

  /** How many bytes can be read before the data, the limit or the innermost list ends. */
  function Room(src: Source, c: Cursor): nat
    requires Fine(src, c)
  {
    var left := |src.data| - c.pos;
    var a := if src.limited then Min(left, c.remaining) else left;
    if c.stack == [] then a else Min(a, Top(c.stack).size - Top(c.stack).pos)
  }

  function Scope(src: Source, c: Cursor): (s: seq<byte>)
    requires Fine(src, c)
    ensures |s| == Room(src, c)
  {
    src.data[c.pos..c.pos + Room(src, c)]
  }

  function Bump(stack: seq<ListPos>, n: nat): seq<ListPos>
  {
    if stack == [] then [] else stack[|stack| - 1 := ListPos(Top(stack).pos + n, Top(stack).size)]
  }

  /** The position after reading n bytes. */
  function Step(src: Source, c: Cursor, n: nat): (d: Cursor)
    requires Fine(src, c) && n <= Room(src, c)
    ensures Fine(src, d)
    ensures Room(src, d) == Room(src, c) - n && Scope(src, d) == Scope(src, c)[n..]
  {
    Cursor(c.pos + n, if src.limited then c.remaining - n else c.remaining, Bump(c.stack, n))
  }

  /** From position c the bytes e are read, which leads to position d. */
  ghost predicate Reads(src: Source, c: Cursor, e: seq<byte>, d: Cursor)
    requires Fine(src, c)
  {
    e <= Scope(src, c) && d == Step(src, c, |e|)
  }

  lemma ReadsTwice(src: Source, c: Cursor, e: seq<byte>, d: Cursor, f: seq<byte>, g: Cursor)
    requires Fine(src, c) && Reads(src, c, e, d) && Reads(src, d, f, g)
    ensures Reads(src, c, e + f, g)
  {
    StepStep(src, c, |e|, |f|);
    var s := Scope(src, c);
    assert s == s[..|e|] + s[|e|..];
  }

  lemma StepStep(src: Source, c: Cursor, m: nat, n: nat)
    requires Fine(src, c) && m + n <= Room(src, c)
    ensures Step(src, Step(src, c, m), n) == Step(src, c, m + n)
  {
  }

  function Open(c: Cursor, n: nat): Cursor { c.(stack := c.stack + [ListPos(0, n)]) }

  function Close(d: Cursor): Cursor
    requires d.stack != []
  {
    d.(stack := Bump(d.stack[..|d.stack| - 1], Top(d.stack).size))
  }

  /** A list of n bytes fits into the enclosing list. */
  predicate FitsList(c: Cursor, n: nat) { c.stack == [] || n <= Top(c.stack).size - Top(c.stack).pos }

  lemma ScopePrefix(src: Source, c: Cursor, n: nat)
    requires Fine(src, c) && n <= Room(src, c)
    ensures Scope(src, c)[..n] == src.data[c.pos..c.pos + n]
  {
  }

  lemma OpenFine(src: Source, c: Cursor, n: nat)
    requires Fine(src, c) && FitsList(c, n)
    ensures Fine(src, Open(c, n)) && Room(src, Open(c, n)) == Min(n, Room(src, c))
    ensures n <= Room(src, c) ==> Scope(src, Open(c, n)) == Scope(src, c)[..n]
  {
    if n <= Room(src, c) { ScopePrefix(src, c, n); }
  }

  /** Reading a list to its end is reading n bytes outside of it. */
  lemma CloseReads(src: Source, c: Cursor, n: nat, e: seq<byte>, d: Cursor)
    requires Fine(src, c) && FitsList(c, n) && Fine(src, Open(c, n))
    requires Reads(src, Open(c, n), e, d) && AtEnd(d)
    ensures |e| == n && Reads(src, c, e, Close(d))
  {
    OpenFine(src, c, n);
    assert Open(c, n).stack[..|c.stack|] == c.stack;
    assert d.stack[..|c.stack|] == c.stack;
  }

  /** The list at c breaks off after vs, so its content is no sequence of values. */
  lemma BrokenList(src: Source, c: Cursor, vs: seq<Item>, d: Cursor)
    requires Fine(src, c) && c.stack != [] && Reads(src, c, EncodeAll(vs), d)
    requires !AtEnd(d) && Undecodable(Scope(src, d))
    ensures var left := Top(c.stack).size - Top(c.stack).pos;
            left <= Room(src, c) ==> NotValues(Scope(src, c)[..left])
  {
    var left := Top(c.stack).size - Top(c.stack).pos;
    if left <= Room(src, c) {
      var s := Scope(src, c);
      assert s[..left] == s;
      BadElement(s, vs, |EncodeAll(vs)|);
    }
  }

  predicate AtEnd(c: Cursor) { c.stack != [] && Top(c.stack).pos == Top(c.stack).size }

  // ----- headers -----

  /** The header in front of s, if it is complete and canonical; the content may be cut off. */
  function HeadOf(s: seq<byte>): Option<Tag>
  {
    if |s| == 0 then None
    else if s[0] < 0x80 then Some(Tag(KByte, 0, 1))
    else if s[0] < 0xB8 then Some(Tag(KString, 1, s[0] - 0x80))
    else if s[0] < 0xC0 then LongTag(KString, s, s[0] - 0xB7)
    else if s[0] < 0xF8 then Some(Tag(KList, 1, s[0] - 0xC0))
    else LongTag(KList, s, s[0] - 0xF7)
  }

  function LongTag(kind: Kind, s: seq<byte>, slen: nat): Option<Tag>
    requires |s| > 0
  {
    match ReadSize(s[1..], slen)
    case Ok(n) => Some(Tag(kind, slen + 1, n))
    case Err(_) => None
  }

  lemma HeadOfRaw(s: seq<byte>)
    requires ReadKind(s).Ok?
    ensures HeadOf(s) == Some(ReadKind(s).value)
  {
  }

  /** Whatever value is encoded in front of s, its header is the one read from s. */
  lemma HeadOfEncoding(v: Item, s: seq<byte>)
    requires Encodable(v) && Encode(v) <= s
    ensures HeadOf(s).Some?
    ensures var t := HeadOf(s).value;
            && t.kind == ItemKind(v) && t.contentsize == |Payload(v)|
            && t.tagsize + t.contentsize == |Encode(v)| <= |s|
            && s[t.tagsize..t.tagsize + t.contentsize] == Payload(v)
  {
    var rest := s[|Encode(v)|..];
    assert s == Encode(v) + rest;
    SplitEncode(v, rest);
    HeadOfRaw(s);
    var t := ReadKind(s).value;
    assert |s| == t.tagsize + t.contentsize + |rest|;
  }

  /** No value is encoded in front of s. */
  ghost predicate Undecodable(s: seq<byte>)
  {
    forall v: Item :: Encodable(v) ==> !(Encode(v) <= s)
  }

  lemma BadHead(s: seq<byte>)
    requires HeadOf(s).None? || HeadOf(s).value.tagsize + HeadOf(s).value.contentsize > |s|
    ensures Undecodable(s)
  {
    forall v: Item | Encodable(v) ensures !(Encode(v) <= s) {
      if Encode(v) <= s { HeadOfEncoding(v, s); }
    }
  }

  /** String content that is cut off, or a single byte that should have had no header. */
  lemma BadString(s: seq<byte>)
    requires HeadOf(s).Some? && HeadOf(s).value.kind == KString
    requires var t := HeadOf(s).value;
             t.tagsize + t.contentsize <= |s| ==> SingleByte(s[t.tagsize..t.tagsize + t.contentsize])
    ensures Undecodable(s)
  {
    forall v: Item | Encodable(v) ensures !(Encode(v) <= s) {
      if Encode(v) <= s { HeadOfEncoding(v, s); }
    }
  }

  /** A header together with content of the announced size is an encoding. */
  lemma GoodHead(s: seq<byte>)
    requires HeadOf(s).Some?
    requires var t := HeadOf(s).value;
             && t.tagsize + t.contentsize <= |s|
             && (t.kind == KString ==> !SingleByte(s[t.tagsize..t.tagsize + t.contentsize]))
    ensures var t := HeadOf(s).value;
            s[..t.tagsize + t.contentsize] == Wrap(t.kind, s[t.tagsize..t.tagsize + t.contentsize])
  {
    var t := HeadOf(s).value;
    assert ReadKind(s) == Ok(t);
    SplitSound(s);
  }

  // ----- lists -----

  /** If the encodings of vs start the encodings of ws, then vs starts ws. */
  lemma {:induction false} EncodeAllPrefix(vs: seq<Item>, ws: seq<Item>)
    requires EncodeAll(vs) <= EncodeAll(ws)
    requires |EncodeAll(ws)| < TWO_64
    ensures vs <= ws
  {
    if vs != [] {
      var rest := EncodeAll(ws)[|EncodeAll(vs)|..];
      assert EncodeAll(ws) == Encode(vs[0]) + (EncodeAll(vs[1..]) + rest);
      assert ws != [];
      EncodePrefixFree(vs[0], ws[0], EncodeAll(vs[1..]) + rest, EncodeAll(ws[1..]));
      EncodeAllPrefix(vs[1..], ws[1..]);
    }
  }

  /** s is not a sequence of encoded values. */
  ghost predicate NotValues(s: seq<byte>)
  {
    forall vs: seq<Item> :: |EncodeAll(vs)| < TWO_64 ==> EncodeAll(vs) != s
  }

  /** Values vs up to a point where nothing can be decoded. */
  lemma BadElement(s: seq<byte>, vs: seq<Item>, at: nat)
    requires at < |s| && s[..at] == EncodeAll(vs) && Undecodable(s[at..])
    ensures NotValues(s)
  {
    forall ws: seq<Item> | |EncodeAll(ws)| < TWO_64 ensures EncodeAll(ws) != s {
      if EncodeAll(ws) == s {
        assert s == s[..at] + s[at..];
        TailDecodable(ws, vs, s[at..]);
      }
    }
  }

  /** A list header whose content is not a sequence of values. */
  lemma BadList(s: seq<byte>)
    requires HeadOf(s).Some? && HeadOf(s).value.kind == KList
    requires var t := HeadOf(s).value;
             t.tagsize + t.contentsize <= |s| ==> NotValues(s[t.tagsize..][..t.contentsize])
    ensures Undecodable(s)
  {
    var t := HeadOf(s).value;
    assert t.tagsize + t.contentsize <= |s| ==>
             s[t.tagsize..][..t.contentsize] == s[t.tagsize..t.tagsize + t.contentsize];
    forall v: Item | Encodable(v) ensures !(Encode(v) <= s) {
      if Encode(v) <= s { HeadOfEncoding(v, s); }
    }
  }

  lemma Cancel(a: seq<byte>, b: seq<byte>, c: seq<byte>)
    requires a + b == a + c
    ensures b == c
  {
    assert b == (a + b)[|a|..] && c == (a + c)[|a|..];
  }

  lemma TailDecodable(items: seq<Item>, vs: seq<Item>, tail: seq<byte>)
    requires EncodeAll(items) == EncodeAll(vs) + tail && tail != []
    requires |EncodeAll(items)| < TWO_64
    ensures !Undecodable(tail)
  {
    EncodeAllPrefix(vs, items);
    var ws := items[|vs|..];
    assert items == vs + ws;
    EncodeAllConcat(vs, ws);
    Cancel(EncodeAll(vs), tail, EncodeAll(ws));
    assert Encodable(ws[0]) && Encode(ws[0]) <= tail;
  }

  /** A header and the content it announces, read one after the other. */
  lemma HeadThenContent(src: Source, c: Cursor, content: seq<byte>, d: Cursor)
    requires Fine(src, c) && HeadOf(Scope(src, c)).Some?
    requires var t := HeadOf(Scope(src, c)).value;
             && t.kind != KByte && t.tagsize <= Room(src, c) && |content| == t.contentsize
             && (t.kind == KString ==> !SingleByte(content))
             && Reads(src, Step(src, c, t.tagsize), content, d)
    ensures Reads(src, c, Wrap(HeadOf(Scope(src, c)).value.kind, content), d)
  {
    hide HeadOf, Wrap, Room, Nested, Fine;
    var s := Scope(src, c);
    var t := HeadOf(s).value;
    assert content == s[t.tagsize..][..t.contentsize] == s[t.tagsize..t.tagsize + t.contentsize];
    GoodHead(s);
    ReadsTwice(src, c, s[..t.tagsize], Step(src, c, t.tagsize), content, d);
    assert s[..t.tagsize + t.contentsize] == s[..t.tagsize] + content;
  }

  // ----- the stream -----

  class Stream {
    const src: Source
    var at: Cursor
    var kind: Option<Kind>      // None is the source's kind -1
    var size: nat
    var byteval: byte
    var kinderr: Option<Error>

    /** NewStream over a byte slice: a zero limit stands for the length of the data. */
    constructor (data: seq<byte>, inputLimit: nat)
      requires |data| < TWO_64
      ensures Valid() && kind.None?
      ensures src == Source(data, true)
      ensures at == Cursor(0, if inputLimit > 0 then inputLimit else |data|, [])
    {
      src := Source(data, true);
      at := Cursor(0, if inputLimit > 0 then inputLimit else |data|, []);
      kind, size, byteval, kinderr := None, 0, 0, None;
    }

    ghost predicate Valid()
      reads this
    {
      Fine(src, at)
    }

    /** willRead: checks and accounts for n bytes; a failure may leave the list position moved. */
    method WillRead(n: nat) returns (err: Option<Error>)
      requires Valid()
      modifies this`kind, this`at
      ensures kind.None? && at.pos == old(at.pos)
      ensures err.None? <==> FitsList(old(at), n) && (src.limited ==> n <= old(at.remaining))
      ensures err.None? ==>
                at == Cursor(at.pos, if src.limited then old(at.remaining) - n else old(at.remaining),
                             Bump(old(at.stack), n))
      ensures err.Some? ==> err.value == ElemTooLarge || err.value == ValueTooLarge
    {
      kind := None;
      if |at.stack| > 0 {
        var tos := Top(at.stack);
        if n > tos.size - tos.pos { return Some(ElemTooLarge); }
        at := at.(stack := Bump(at.stack, n));
      }
      if src.limited {
        if n > at.remaining { return Some(ValueTooLarge); }
        at := at.(remaining := at.remaining - n);
      }
      err := None;
    }

    /** readFull: n bytes of the input, all of them or an error. */
    method ReadFull(n: nat) returns (buf: seq<byte>, err: Option<Error>)
      requires Valid()
      modifies this`kind, this`at
      ensures kind.None?
      ensures err.None? <==> n <= Room(src, old(at))
      ensures err.None? ==> Valid() && at == Step(src, old(at), n)
      ensures err.None? ==> buf == Scope(src, old(at))[..n]
      ensures err.Some? ==> err.value != EOL
    {
      err := WillRead(n);
      if err.Some? { return [], err; }
      if n > |src.data| - at.pos {
        at := at.(pos := |src.data|);
        return [], Some(UnexpectedEOF);
      }
      ScopePrefix(src, old(at), n);
      buf := src.data[at.pos..at.pos + n];
      at := at.(pos := at.pos + n);
    }

    method ReadByte() returns (b: byte, err: Option<Error>)
      requires Valid()
      modifies this`kind, this`at
      ensures kind.None?
      ensures err.None? <==> Room(src, old(at)) >= 1
      ensures err.None? ==> Valid() && at == Step(src, old(at), 1)
      ensures err.None? ==> b == Scope(src, old(at))[0]
      ensures err.Some? ==> err.value != EOL
    {
      var buf;
      buf, err := ReadFull(1);
      b := if err.None? then buf[0] else 0;
    }

    /** readUint: a big-endian size of the given length, without leading zero bytes. */
    method ReadUint(slen: nat) returns (n: nat, err: Option<Error>)
      requires Valid() && 1 <= slen <= 8
      modifies this`kind, this`at
      ensures kind.None?
      ensures err.None? && n >= 56 <==> ReadSize(Scope(src, old(at)), slen).Ok?
      ensures err.None? ==> slen <= Room(src, old(at)) && Valid() && at == Step(src, old(at), slen)
      ensures err.None? && n >= 56 ==> ReadSize(Scope(src, old(at)), slen) == Ok(n)
      ensures err.Some? ==> err.value != EOL
    {
      if slen == 1 {
        var b;
        b, err := ReadByte();
        assert err.None? ==> BigEndian(Scope(src, old(at))[..1]) == b by { BigEndianOne(Scope(src, old(at))); }
        return b, err;
      }
      var buf;
      buf, err := ReadFull(slen);
      if err.Some? { return 0, err; }
      if buf[0] == 0 {
        return 0, Some(CanonSize);
      }
      return BigEndian(buf), None;
    }

    /** readKind: one header; at top level running out of input is plain EOF. */
    method ReadKind() returns (k: Kind, n: nat, err: Option<Error>)
      requires Valid()
      modifies this`kind, this`at, this`byteval
      ensures err.None? <==> HeadOf(Scope(src, old(at))).Some?
      ensures err.None? ==>
                var t := HeadOf(Scope(src, old(at))).value;
                && Valid() && k == t.kind
                && (k == KByte ==> n == 0 && byteval == Scope(src, old(at))[0] && at == Step(src, old(at), 1))
                && (k != KByte ==>
                      n == t.contentsize && t.tagsize <= Room(src, old(at)) && at == Step(src, old(at), t.tagsize))
      ensures err.Some? ==> err.value != EOL
    {
      hide LongTag;
      var b;
      b, err := ReadByte();
      if err.Some? {
        if at.stack == [] && (err.value == UnexpectedEOF || err.value == ValueTooLarge) {
          err := Some(EOF);
        }
        return KByte, 0, err;
      }
      byteval := 0;
      if b < 0x80 {
        byteval := b;
        return KByte, 0, None;
      } else if b < 0xB8 {
        return KString, b - 0x80, None;
      } else if b < 0xC0 {
        k := KString;
        n, err := ReadLongSize(k, b - 0xB7, old(at));
      } else if b < 0xF8 {
        return KList, b - 0xC0, None;
      } else {
        k := KList;
        n, err := ReadLongSize(k, b - 0xF7, old(at));
      }
    }

    /** The size after a tag byte, when it needs more than the tag; c is where the tag was. */
    method ReadLongSize(ghost k: Kind, slen: nat, ghost c: Cursor) returns (n: nat, err: Option<Error>)
      requires Fine(src, c) && 1 <= Room(src, c) && at == Step(src, c, 1) && 1 <= slen <= 8
      modifies this`kind, this`at
      ensures err.None? <==> LongTag(k, Scope(src, c), slen).Some?
      ensures err.None? ==>
                && LongTag(k, Scope(src, c), slen) == Some(Tag(k, slen + 1, n))
                && slen + 1 <= Room(src, c) && at == Step(src, c, slen + 1)
      ensures err.Some? ==> err.value != EOL
    {
      n, err := ReadUint(slen);
      if err.None? && n < 56 {
        err := Some(CanonSize);
      }
      if err.None? {
        StepStep(src, c, 1, slen);
      }
    }

    /** The header of s has been read and is remembered until the value is. */
    ghost predicate Ahead(s: seq<byte>, c: Cursor)
      requires Fine(src, c)
      reads this
    {
      && HeadOf(s).Some? && Valid() && kinderr.None?
      && var t := HeadOf(s).value;
      && kind == Some(t.kind)
      && (t.kind == KByte ==> byteval == s[0] && 1 <= Room(src, c) && at == Step(src, c, 1))
      && (t.kind != KByte ==> size == t.contentsize && t.tagsize <= Room(src, c) && at == Step(src, c, t.tagsize))
      && (t.kind != KByte ==> FitsList(at, size))
    }

    /** Kind: the next header, EOL at the end of a list, or what was found before. */
    method Kind() returns (k: Kind, n: nat, err: Option<Error>)
      requires Valid()
      modifies this`kind, this`at, this`byteval, this`size, this`kinderr
      ensures old(kind).Some? ==> unchanged(this) && k == kind.value && n == size && err == kinderr
      ensures old(kind).None? ==> (err == Some(EOL) <==> AtEnd(old(at)))
      ensures old(kind).None? && err == Some(EOL) ==> at == old(at) && kind.None?
      ensures old(kind).None? && err.None? ==> Ahead(Scope(src, old(at)), old(at)) && k == kind.value && n == size
      ensures old(kind).None? && err.Some? && err != Some(EOL) ==> Undecodable(Scope(src, old(at)))
    {
      hide HeadOf, Undecodable, Ahead, Scope, Fine;
      if kind.None? {
        kinderr := None;
        if at.stack != [] && Top(at.stack).pos == Top(at.stack).size {
          return KByte, 0, Some(EOL);
        }
        ReadHeader();
      }
      return kind.value, size, kinderr;
    }

    /** The header ahead, which must not announce more than there is. */
    method ReadHeader()
      requires Valid() && kind.None? && kinderr.None? && !AtEnd(at)
      modifies this`kind, this`at, this`byteval, this`size, this`kinderr
      ensures kind.Some? && kinderr != Some(EOL)
      ensures kinderr.None? ==> Ahead(Scope(src, old(at)), old(at))
      ensures kinderr.Some? ==> Undecodable(Scope(src, old(at)))
    {
      hide HeadOf, Undecodable;
      ghost var s := Scope(src, at);
      var k, n, err := ReadKind();
      kind, size, kinderr := Some(k), n, err;
      if err.None? {
        if at.stack == [] {
          if src.limited && size > at.remaining {
            kinderr := Some(ValueTooLarge);
          }
        } else if size > Top(at.stack).size - Top(at.stack).pos {
          kinderr := Some(ElemTooLarge);
        }
      }
      if kinderr.Some? { BadHead(s); }
    }

    /** Bytes: the content of a string, rejecting a single byte that needed no header. */
    method Bytes() returns (b: seq<byte>, err: Option<Error>)
      requires Valid()
      modifies this
      ensures old(kind) == Some(KByte) && old(kinderr).None? ==>
                err.None? && b == [old(byteval)] && at == old(at) && kind.None?
      ensures old(kind) == Some(KString) && old(kinderr).None? ==>
                && (err.None? <==> size <= Room(src, old(at)) && !SingleByte(Scope(src, old(at))[..size]))
                && (err.None? ==>
                      Valid() && kind.None? && at == Step(src, old(at), size) && b == Scope(src, old(at))[..size])
      ensures old(kind) == Some(KList) && old(kinderr).None? ==> err == Some(ExpectedString)
      ensures old(kind).Some? && old(kinderr).None? ==> err != Some(EOL) && size == old(size)
    {
      var k, n;
      k, n, err := Kind();
      if err.Some? { return [], err; }
      match k
      case KByte =>
        kind := None;
        return [byteval], None;
      case KString =>
        b, err := ReadFull(n);
        if err.Some? { return [], err; }
        if n == 1 && b[0] < 128 {
          return [], Some(CanonSize);
        }
      case KList =>
        return [], Some(ExpectedString);
    }

    /** List: opens the list ahead. */
    method List() returns (n: nat, err: Option<Error>)
      requires Valid()
      modifies this
      ensures old(kind).Some? && old(kinderr).None? ==> (err.None? <==> old(kind) == Some(KList)) && err != Some(EOL)
      ensures old(kind) == Some(KList) && old(kinderr).None? ==>
                n == old(size) && kind.None? && at == Open(old(at), n)
    {
      var k;
      k, n, err := Kind();
      if err.Some? { return 0, err; }
      if k != KList { return 0, Some(ExpectedList); }
      at := Open(at, n);
      kind, size := None, 0;
    }

    /** ListEnd: closes the innermost list, which must have been read completely. */
    method ListEnd() returns (err: Option<Error>)
      modifies this
      ensures err.None? <==> AtEnd(old(at))
      ensures err != Some(EOL)
      ensures err.None? ==> kind.None? && at == Close(old(at))
    {
      if |at.stack| == 0 { return Some(NotInList); }
      var tos := Top(at.stack);
      if tos.pos != tos.size { return Some(NotAtEOL); }
      at := Close(at);
      kind, size := None, 0;
      return None;
    }

    /**
     decodeInterface: one value of any shape. It succeeds exactly when some value is
     encoded at the current position, returns that value and reads just its bytes.
     */
    method DecodeInterface() returns (r: Result<Item, Error>)
      requires Valid() && kind.None?
      modifies this
      ensures r == Err(EOL) <==> AtEnd(old(at))
      ensures r == Err(EOL) ==> Valid() && kind.None? && at == old(at)
      ensures r.Ok? ==> Decoded(old(at), Encode(r.value))
      ensures r.Err? && r.error != EOL ==> Undecodable(Scope(src, old(at)))
      decreases |src.data| - at.pos, 0
    {
      ghost var c := at;
      ghost var s := Scope(src, c);
      var k, n, err := Kind();
      if err.Some? { return Err(err.value); }
      if k == KList {
        r := ListAhead(c);
      } else {
        r := StringAhead(c);
      }
    }

    /** The list branch of decodeInterface; c is where the header started. */
    method ListAhead(ghost c: Cursor) returns (r: Result<Item, Error>)
      requires Fine(src, c) && Ahead(Scope(src, c), c) && kind == Some(KList)
      modifies this
      ensures r != Err(EOL)
      ensures r.Ok? ==> Decoded(c, Encode(r.value))
      ensures r.Err? ==> Undecodable(Scope(src, c))
      decreases |src.data| - at.pos, 3
    {
      var items, err := DecodeListSlice();
      if err.Some? {
        BadList(Scope(src, c));
        return Err(err.value);
      }
      HeadThenContent(src, c, EncodeAll(items), at);
      return Ok(Item.List(items));
    }

    /** The string branch of decodeInterface. */
    method StringAhead(ghost c: Cursor) returns (r: Result<Item, Error>)
      requires Fine(src, c) && Ahead(Scope(src, c), c) && kind != Some(KList)
      modifies this
      ensures r != Err(EOL)
      ensures r.Ok? ==> Decoded(c, Encode(r.value))
      ensures r.Err? ==> Undecodable(Scope(src, c))
    {
      var single := kind == Some(KByte);
      var b, err := Bytes();
      if err.Some? {
        BadString(Scope(src, c));
        return Err(err.value);
      }
      if !single {
        HeadThenContent(src, c, b, at);
      }
      return Ok(Str(b));
    }

    /** The stream has read exactly the bytes e, starting from c. */
    ghost predicate Decoded(c: Cursor, e: seq<byte>)
      requires Fine(src, c)
      reads this
    {
      Valid() && kind.None? && Reads(src, c, e, at)
    }

    /** decodeListSlice: the elements of the list ahead. */
    method DecodeListSlice() returns (items: seq<Item>, err: Option<Error>)
      requires Valid() && kind == Some(KList) && kinderr.None?
      requires FitsList(at, size)
      modifies this
      ensures err != Some(EOL)
      ensures err.None? ==> |EncodeAll(items)| == old(size) && Decoded(old(at), EncodeAll(items))
      ensures err.Some? ==> old(size) <= Room(src, old(at)) ==> NotValues(Scope(src, old(at))[..old(size)])
      decreases |src.data| - at.pos, 2
    {
      ghost var c := at;
      var n;
      n, err := List();
      ghost var inner := at;
      OpenFine(src, c, n);
      if n == 0 {
        CloseReads(src, c, n, [], inner);
        err := ListEnd();
        return [], err;
      }
      items, err := DecodeSliceElems();
      if err.Some? { return; }
      CloseReads(src, c, n, EncodeAll(items), at);
      err := ListEnd();
    }

    /** decodeSliceElems: values up to the end of the innermost list. */
    method DecodeSliceElems() returns (vs: seq<Item>, err: Option<Error>)
      requires Valid() && kind.None? && at.stack != []
      modifies this
      ensures err != Some(EOL)
      ensures err.None? ==> AtEnd(at) && Decoded(old(at), EncodeAll(vs))
      ensures err.Some? ==>
                var left := Top(old(at.stack)).size - Top(old(at.stack)).pos;
                left <= Room(src, old(at)) ==> NotValues(Scope(src, old(at))[..left])
      decreases |src.data| - at.pos, 1
    {
      ghost var c := at;
      vs := [];
      while true
        invariant Decoded(c, EncodeAll(vs)) && at.stack != []
        decreases |src.data| - at.pos
      {
        ghost var d := at;
        var r := DecodeInterface();
        if r == Err(EOL) {
          return vs, None;
        }
        if r.Err? {
          BrokenList(src, c, vs, d);
          return vs, Some(r.error);
        }
        ReadsTwice(src, c, EncodeAll(vs), d, Encode(r.value), at);
        EncodeAllConcat(vs, [r.value]);
        EncodeAllOne(r.value);
        vs := vs + [r.value];
      }
    }
  }

  lemma BigEndianOne(s: seq<byte>)
    ensures |s| >= 1 ==> BigEndian(s[..1]) == s[0]
  {
    if |s| >= 1 { assert s[..1][..0] == []; }
  }

  /**
   DecodeBytes into an interface accepts b exactly when b is the encoding of some
   value, and then returns that value.
   */
  method DecodeBytes(b: seq<byte>) returns (r: Result<Item, Error>)
    requires |b| < TWO_64
    ensures r.Ok? ==> Encode(r.value) == b
    ensures r.Err? ==> forall v: Item :: Encodable(v) ==> Encode(v) != b
  {
    var s := new Stream(b, |b|);
    assert Scope(s.src, s.at) == b;
    r := s.DecodeInterface();
    if r.Ok? && s.at.pos < |b| {
      OnlyPrefix(r.value, b);
      return Err(MoreThanOneValue);
    }
  }

  lemma OnlyPrefix(v: Item, b: seq<byte>)
    requires Encode(v) <= b && |Encode(v)| < |b| < TWO_64
    ensures forall w: Item :: Encodable(w) ==> Encode(w) != b
  {
    forall w: Item | Encodable(w) ensures Encode(w) != b {
      if Encode(w) == b {
        EncodePrefixFree(v, w, b[|Encode(v)|..], []);
      }
    }
  }

  /** Decoding an encoding gives the value back. */
  method RoundTrip(v: Item) returns (r: Result<Item, Error>)
    requires Encodable(v)
    ensures r == Ok(v)
  {
    r := DecodeBytes(Encode(v));
    if r.Ok? {
      assert Encode(v) + [] == Encode(r.value) + [];
      EncodePrefixFree(v, r.value, [], []);
    }
  }
}
