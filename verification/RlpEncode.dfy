/**
 The encoder of rlp/encode.go. It writes string data into one buffer, keeps list
 headers in a side list because their sizes are known only at the end of a list,
 and splices the headers in when the bytes are handed out.
 */
module RlpEncode {
  import opened Bytes
  import opened RlpSpec
  import opened RlpSplice

  // ----- big-endian sizes -----

  /** intsize: how many bytes the minimal form takes. */
  method IntSize(n: nat) returns (size: nat)
    ensures size == |MinimalBytes(n)|
  {
    var i: nat := n / 256;
    size := 1;
    while i != 0
      invariant |MinimalBytes(n)| == if i == 0 then size else size + |MinimalBytes(i)|
      decreases i
    {
      i := i / 256;
      size := size + 1;
    }
  }

  lemma {:induction false} MinimalByteAt(n: nat, k: nat)
    requires k < |MinimalBytes(n)|
    ensures MinimalBytes(n)[|MinimalBytes(n)| - 1 - k] == n / Pow256(k) % 256
  {
    if n >= 256 && k > 0 {
      MinimalByteAt(n / 256, k - 1);
      DivTwice(n, Pow256(k - 1));
    }
  }

  lemma DivTwice(n: nat, p: nat)
    requires p > 0
    ensures n / 256 / p == n / (256 * p)
  {
    var q := n / 256 / p;
    var r := n / 256 % p;
    assert n / 256 == p * q + r;
    var m := 256 * r + n % 256;
    assert n == 256 * (p * q) + m == (256 * p) * q + m;
    DivUnique(n, 256 * p, q, m);
  }

  lemma DivUnique(n: nat, d: nat, q: nat, r: nat)
    requires n == d * q + r && r < d
    ensures n / d == q
  {
    var q' := n / d;
    assert n == d * q' + n % d;
    if q' < q {
      MulStep(d, q', q);
    } else if q < q' {
      MulStep(d, q, q');
    }
  }

  lemma MulStep(d: nat, a: nat, b: nat)
    requires a < b
    ensures d * a + d <= d * b
  {
    assert d * b == d * a + d * (b - a);
    assert d * (b - a) == d + d * (b - a - 1);
  }

  /** putint: the minimal big-endian form of n, written at b[at..]. The source unrolls the loop. */
  method PutInt(b: array<byte>, at: nat, n: nat) returns (size: nat)
    requires n < TWO_64 && at + |MinimalBytes(n)| <= b.Length
    modifies b
    ensures size == |MinimalBytes(n)|
    ensures b[at..at + size] == MinimalBytes(n)
    ensures forall i :: 0 <= i < b.Length && !(at <= i < at + size) ==> b[i] == old(b[i])
  {
    size := IntSize(n);
    var i := 0;
    while i < size
      invariant 0 <= i <= size
      invariant forall k :: 0 <= k < i ==> b[at + k] == MinimalBytes(n)[k]
      invariant forall k :: 0 <= k < b.Length && !(at <= k < at + i) ==> b[k] == old(b[k])
    {
      MinimalByteAt(n, size - 1 - i);
      b[at + i] := n / Pow256(size - 1 - i) % 256;
      i := i + 1;
    }
  }

  /** puthead: a list or string header, written at b[at..]. */
  method PutHead(b: array<byte>, at: nat, smalltag: byte, largetag: byte, n: nat) returns (size: nat)
    requires n < TWO_64 && at + |Head(smalltag, largetag, n)| <= b.Length
    modifies b
    ensures size == |Head(smalltag, largetag, n)|
    ensures b[at..at + size] == Head(smalltag, largetag, n)
    ensures forall i :: 0 <= i < b.Length && !(at <= i < at + size) ==> b[i] == old(b[i])
  {
    hide MinimalBytes;
    if n < 56 {
      b[at] := (smalltag + n) % 256;
      return 1;
    }
    var sizesize := PutInt(b, at + 1, n);
    ghost var tail := b[at + 1..at + 1 + sizesize];
    b[at] := (largetag + sizesize) % 256;
    size := sizesize + 1;
    assert b[at + 1..at + size] == tail;
    assert b[at..at + size] == [b[at]] + tail;
  }

  /** The io.Writer behind Encode: it may stop accepting bytes at any point. */
  class Writer {
    var written: seq<byte>
    var room: nat

    constructor (room: nat)
      ensures written == [] && this.room == room
    {
      this.written, this.room := [], room;
    }

    method Write(p: seq<byte>) returns (ok: bool)
      modifies this
      ensures ok <==> |p| <= old(room)
      ensures written == old(written) + p[..Min(|p|, old(room))]
      ensures room == old(room) - Min(|p|, old(room))
    {
      var n := Min(|p|, room);
      written, room := written + p[..n], room - n;
      ok := n == |p|;
    }
  }

  lemma AwaitFlat(str: seq<byte>, vs: seq<Item>, goal: seq<byte>)
    requires vs != [] && str + FlatAll(vs) == goal
    ensures str + Flat(vs[0]) + FlatAll(vs[1..]) == goal
  {
    hide *;
    UnfoldFlat(vs);
    Concat3(str, Flat(vs[0]), FlatAll(vs[1..]));
  }

  lemma AwaitMarks(off: nat, next: nat, heads: seq<ListMark>, vs: seq<Item>, goal: seq<ListMark>)
    requires vs != [] && next == off + |Flat(vs[0])| && heads + MarksAll(vs, off) == goal
    ensures heads + Marks(vs[0], off) + MarksAll(vs[1..], next) == goal
  {
    hide *;
    UnfoldMarks(vs, off, next);
    Concat3(heads, Marks(vs[0], off), MarksAll(vs[1..], next));
  }

  lemma HeadBytesStep(off: nat, next: nat, vs: seq<Item>)
    requires vs != [] && next == off + |Flat(vs[0])|
    ensures HeadBytes(MarksAll(vs, off)) == HeadBytes(Marks(vs[0], off)) + HeadBytes(MarksAll(vs[1..], next))
  {
    hide *;
    UnfoldMarks(vs, off, next);
    HeadBytesConcat(Marks(vs[0], off), MarksAll(vs[1..], next));
  }

  lemma EncodeAllSizes(vs: seq<Item>)
    requires vs != []
    ensures |EncodeAll(vs)| == |Encode(vs[0])| + |EncodeAll(vs[1..])|
  {
  }

  lemma CloseHead(before: seq<ListMark>, open: ListMark, closed: ListMark, inner: seq<ListMark>)
    ensures (before + [open] + inner)[|before| := closed] == before + ([closed] + inner)
    ensures HeadBytes([closed] + inner) == |ListHead(closed.size)| + HeadBytes(inner)
  {
    assert ([closed] + inner)[1..] == inner;
  }

  lemma SpliceNext(str: seq<byte>, heads: seq<ListMark>, strpos: nat, done: seq<byte>)
    requires heads != [] && Ordered(heads, strpos, |str|)
    ensures strpos <= heads[0].offset <= |str|
    ensures Ordered(heads[1..], heads[0].offset, |str|)
    ensures done + Splice(str, heads, strpos)
         == done + str[strpos..heads[0].offset] + ListHead(heads[0].size) + Splice(str, heads[1..], heads[0].offset)
    ensures |Splice(str, heads, strpos)|
         == heads[0].offset - strpos + |ListHead(heads[0].size)| + |Splice(str, heads[1..], heads[0].offset)|
  {
    OrderedBounds(heads[1..], heads[0].offset, |str|);
    var piece, head, tail := str[strpos..heads[0].offset], ListHead(heads[0].size), Splice(str, heads[1..], heads[0].offset);
    ConcatAssoc4(done, piece, head, tail);
  }

  /** Go's copy into out[pos:], for a source that fits. */
  method CopyInto(out: array<byte>, pos: nat, s: seq<byte>)
    requires pos + |s| <= out.Length
    modifies out
    ensures out[..pos + |s|] == old(out[..pos]) + s
    ensures forall i :: pos + |s| <= i < out.Length ==> out[i] == old(out[i])
  {
    forall i | 0 <= i < |s| { out[pos + i] := s[i]; }
    assert out[..pos] == old(out[..pos]);
  }

  /** One round of toBytes: the string data before a header, then the header. */
  method PutPiece(out: array<byte>, pos: nat, piece: seq<byte>, n: nat) returns (next: nat)
    requires n < TWO_64 && pos + |piece| + |ListHead(n)| <= out.Length
    modifies out
    ensures next == pos + |piece| + |ListHead(n)|
    ensures out[..next] == old(out[..pos]) + piece + ListHead(n)
  {
    CopyInto(out, pos, piece);
    ghost var before := out[..pos + |piece|];
    var size := PutHead(out, pos + |piece|, 0xC0, 0xF7, n);
    next := pos + |piece| + size;
    assert out[..pos + |piece|] == before;
    assert out[..next] == out[..pos + |piece|] + out[pos + |piece|..next];
  }

  class EncBuf {
    var str: seq<byte>
    var lheads: seq<ListMark>
    var lhsize: nat
    const sizebuf: array<byte>

    constructor ()
      ensures str == [] && lheads == [] && lhsize == 0
      ensures fresh(sizebuf) && sizebuf.Length == 9
    {
      str, lheads, lhsize := [], [], 0;
      sizebuf := new byte[9];
    }

    /** All headers are closed and their sizes add up. */
    ghost predicate Complete()
      reads this
    {
      Ordered(lheads, 0, |str|) && Fits(lheads) && lhsize == HeadBytes(lheads) && sizebuf.Length == 9
    }

    ghost function Output(): seq<byte>
      requires Complete()
      reads this
    {
      Splice(str, lheads, 0)
    }

    method EncodeStringHeader(size: nat)
      requires size < TWO_64 && sizebuf.Length == 9
      modifies this`str, sizebuf
      ensures str == old(str) + StrHead(size)
    {
      if size < 56 {
        str := str + [0x80 + size];
      } else {
        MinimalFits64(size);
        var n := PutHead(sizebuf, 0, 0x80, 0xB7, size);
        str := str + sizebuf[..n];
      }
    }

    method EncodeString(b: seq<byte>)
      requires |b| < TWO_64 && sizebuf.Length == 9
      modifies this`str, sizebuf
      ensures str == old(str) + EncodeStr(b)
    {
      if |b| == 1 && b[0] <= 0x7F {
        str := str + [b[0]];
      } else {
        EncodeStringHeader(|b|);
        str := str + b;
      }
    }

    /** list: opens a header; its size field remembers lhsize until it is closed. */
    method List() returns (lh: nat)
      modifies this`lheads
      ensures lh == |old(lheads)|
      ensures lheads == old(lheads) + [ListMark(|str|, lhsize)]
    {
      lh := |lheads|;
      lheads := lheads + [ListMark(|str|, lhsize)];
    }

    /** listEnd: the content is everything written since the header was opened. */
    method ListEnd(lh: nat)
      requires lh < |lheads| && lheads[lh].offset + lheads[lh].size <= |str| + lhsize
      modifies this`lheads, this`lhsize
      ensures var size := |str| + old(lhsize) - old(lheads[lh]).offset - old(lheads[lh]).size;
              && lheads == old(lheads)[lh := ListMark(old(lheads[lh]).offset, size)]
              && lhsize == old(lhsize) + |ListHead(size)|
    {
      var size := |str| + lhsize - lheads[lh].offset - lheads[lh].size;
      lheads := lheads[lh := ListMark(lheads[lh].offset, size)];
      if size < 56 {
        lhsize := lhsize + 1;
      } else {
        var n := IntSize(size);
        lhsize := lhsize + 1 + n;
      }
    }

    /** The writer of an interface value: strings are copied, lists bracket their elements. */
    method WriteItem(v: Item)
      requires Encodable(v) && sizebuf.Length == 9
      modifies this, sizebuf
      ensures str == old(str) + Flat(v)
      ensures lheads == old(lheads) + Marks(v, |old(str)|)
      ensures lhsize == old(lhsize) + HeadBytes(Marks(v, |old(str)|))
      decreases v, 0
    {
      match v
      case Str(b) =>
        EncodeString(b);
        assert lheads + [] == lheads;
      case List(items) =>
        ghost var marks := MarksAll(items, |str|);
        var lh := List();
        WriteItems(items);
        EncodedSizeAll(items, |old(str)|);
        ListEnd(lh);
        CloseHead(old(lheads), ListMark(|old(str)|, old(lhsize)), ListMark(|old(str)|, |EncodeAll(items)|), marks);
    }

    method WriteItems(items: seq<Item>)
      requires |EncodeAll(items)| < TWO_64 && sizebuf.Length == 9
      modifies this, sizebuf
      ensures str == old(str) + FlatAll(items)
      ensures lheads == old(lheads) + MarksAll(items, |old(str)|)
      ensures lhsize == old(lhsize) + HeadBytes(MarksAll(items, |old(str)|))
      decreases items, 1
    {
      hide FlatAll, MarksAll, Flat, Marks, HeadBytes, EncodeAll, Encode;
      ghost var flat, marks := str + FlatAll(items), lheads + MarksAll(items, |str|);
      ghost var total := lhsize + HeadBytes(MarksAll(items, |str|));
      var i := 0;
      while i < |items|
        invariant 0 <= i <= |items|
        invariant str + FlatAll(items[i..]) == flat
        invariant lheads + MarksAll(items[i..], |str|) == marks
        invariant lhsize + HeadBytes(MarksAll(items[i..], |str|)) == total
        invariant |EncodeAll(items[i..])| < TWO_64
      {
        ghost var rest, next := items[i..], |str| + |Flat(items[i])|;
        assert rest[1..] == items[i + 1..] && rest[0] == items[i];
        AwaitFlat(str, rest, flat);
        AwaitMarks(|str|, next, lheads, rest, marks);
        HeadBytesStep(|str|, next, rest);
        EncodeAllSizes(rest);
        WriteItem(items[i]);
        i := i + 1;
      }
      AllOfNothing(|str|);
    }

    /** toBytes: string data and headers, copied into one slice of the right length. */
    method ToBytes() returns (out: array<byte>)
      requires Complete()
      ensures fresh(out) && out[..] == Output()
      ensures out.Length == |str| + lhsize
    {
      SpliceLength(str, lheads, 0);
      out := new byte[|str| + lhsize];
      var strpos: nat, pos: nat, i := 0, 0, 0;
      while i < |lheads|
        invariant 0 <= i <= |lheads| && Ordered(lheads[i..], strpos, |str|)
        invariant pos + |Splice(str, lheads[i..], strpos)| == out.Length
        invariant out[..pos] + Splice(str, lheads[i..], strpos) == Splice(str, lheads, 0)
      {
        var head := lheads[i];
        SpliceNext(str, lheads[i..], strpos, out[..pos]);
        assert lheads[i..][1..] == lheads[i + 1..];
        pos := PutPiece(out, pos, str[strpos..head.offset], head.size);
        strpos, i := head.offset, i + 1;
      }
      CopyInto(out, pos, str[strpos..]);
      assert out[..] == out[..out.Length];
    }

    /** One round of toWriter: the string data before a header, then the header. */
    method WritePiece(w: Writer, piece: seq<byte>, n: nat) returns (ok: bool)
      requires n < TWO_64 && sizebuf.Length == 9
      modifies w, sizebuf
      ensures ok ==> w.written == old(w.written) + piece + ListHead(n)
      ensures ok <==> |piece + ListHead(n)| <= old(w.room)
      ensures w.written <= old(w.written) + piece + ListHead(n)
      ensures w.room + |w.written| == old(w.room) + |old(w.written)|
    {
      ok := true;
      if |piece| > 0 {
        ok := w.Write(piece);
        if !ok { return; }
      }
      assert w.written == old(w.written) + piece;
      MinimalFits64(n);
      var size := PutHead(sizebuf, 0, 0xC0, 0xF7, n);
      ok := w.Write(sizebuf[..size]);
    }

    /** toWriter: the same bytes, piece by piece; a failing writer gets a prefix of them. */
    method ToWriter(w: Writer) returns (ok: bool)
      requires Complete()
      modifies w, sizebuf
      ensures ok ==> w.written == old(w.written) + Output()
      ensures ok <==> |Output()| <= old(w.room)
      ensures w.written <= old(w.written) + Output()
    {
      var strpos: nat, i := 0, 0;
      while i < |lheads|
        invariant 0 <= i <= |lheads| && Ordered(lheads[i..], strpos, |str|)
        invariant w.written + Splice(str, lheads[i..], strpos) == old(w.written) + Output()
        invariant w.room + |w.written| == old(w.room) + |old(w.written)|
      {
        var head := lheads[i];
        SpliceNext(str, lheads[i..], strpos, w.written);
        assert lheads[i..][1..] == lheads[i + 1..];
        ok := WritePiece(w, str[strpos..head.offset], head.size);
        if !ok { return; }
        strpos, i := head.offset, i + 1;
      }
      ok := true;
      if strpos < |str| {
        ok := w.Write(str[strpos..]);
      }
    }
  }

  /** What a reader takes over from a complete buffer. */
  datatype Layout = Layout(str: seq<byte>, lheads: seq<ListMark>)

  /** The bytes that follow string position strpos and the first lhpos headers. */
  ghost predicate At(l: Layout, lhpos: nat, strpos: nat)
  {
    lhpos <= |l.lheads| && Fits(l.lheads) && Ordered(l.lheads[lhpos..], strpos, |l.str|)
  }

  ghost function After(l: Layout, lhpos: nat, strpos: nat): seq<byte>
    requires At(l, lhpos, strpos)
  {
    Splice(l.str, l.lheads[lhpos..], strpos)
  }

  lemma AfterHead(l: Layout, lhpos: nat, strpos: nat)
    requires At(l, lhpos, strpos) && lhpos < |l.lheads|
    ensures var head := l.lheads[lhpos];
            && strpos <= head.offset <= |l.str| && At(l, lhpos, head.offset)
            && After(l, lhpos, strpos) == l.str[strpos..head.offset] + After(l, lhpos, head.offset)
            && At(l, lhpos + 1, head.offset)
            && After(l, lhpos, head.offset) == ListHead(head.size) + After(l, lhpos + 1, head.offset)
  {
    var heads, off := l.lheads[lhpos..], l.lheads[lhpos].offset;
    assert heads[1..] == l.lheads[lhpos + 1..];
    SpliceNext(l.str, heads, strpos, []);
    SpliceSkip(l.str, heads, strpos, off);
    assert l.str[off..off] == [];
  }

  /** The reader of EncodeToReader; buf is None at end of file and a nil piece is the empty one. */
  class EncReader {
    var buf: Option<Layout>
    var lhpos: nat
    var strpos: nat
    var piece: seq<byte>

    constructor (b: EncBuf)
      requires b.Complete()
      ensures Valid() && Pending() == b.Output()
    {
      buf, lhpos, strpos, piece := Some(Layout(b.str, b.lheads)), 0, 0, [];
      assert b.lheads[0..] == b.lheads;
    }

    ghost predicate Valid()
      reads this
    {
      if buf.None? then piece == [] else At(buf.value, lhpos, strpos)
    }

    /** What the reader still has to deliver. */
    ghost function Pending(): seq<byte>
      requires Valid()
      reads this
    {
      if buf.None? then [] else piece + After(buf.value, lhpos, strpos)
    }

    /** next: the piece in hand, string data, a header, the final string data, or nothing. */
    method Next() returns (p: seq<byte>)
      requires Valid()
      modifies this`lhpos, this`strpos
      ensures Valid()
      ensures buf.Some? ==> p + After(buf.value, lhpos, strpos) == old(Pending())
      ensures p == [] ==> old(Pending()) == []
      ensures buf.None? ==> p == []
    {
      if buf.None? {
        return [];
      }
      if piece != [] {
        return piece;
      }
      var l := buf.value;
      if lhpos < |l.lheads| {
        var head := l.lheads[lhpos];
        AfterHead(l, lhpos, strpos);
        var sizebefore := head.offset - strpos;
        if sizebefore > 0 {
          p := l.str[strpos..head.offset];
          strpos := strpos + sizebefore;
          return;
        }
        lhpos := lhpos + 1;
        return ListHead(head.size);
      }
      p := l.str[strpos..];
      strpos := |l.str|;
    }

    /**
     Read fills b as far as the pending bytes go. End of file is reported with the
     last bytes, whatever buffer sizes the caller has used so far.
     */
    method Read(b: array<byte>) returns (n: nat, eof: bool)
      requires Valid()
      modifies this, b
      ensures Valid()
      ensures n == Min(b.Length, |old(Pending())|)
      ensures b[..n] == old(Pending())[..n]
      ensures forall i :: n <= i < b.Length ==> b[i] == old(b[i])
      ensures Pending() == old(Pending())[n..]
      ensures eof <==> |old(Pending())| <= b.Length
    {
      hide Splice, Ordered, Fits, After, At;
      ghost var all := Pending();
      n := 0;
      while true
        invariant Valid()
        invariant n <= b.Length && n <= |all| && b[..n] == all[..n] && Pending() == all[n..]
        invariant forall i :: n <= i < b.Length ==> b[i] == old(b[i])
        decreases |all| - n
      {
        piece := Next();
        if piece == [] {
          buf := None;
          return n, true;
        }
        var nn := Min(b.Length - n, |piece|);
        TakeStep(all, n, piece, After(buf.value, lhpos, strpos), nn);
        CopyInto(b, n, piece[..nn]);
        n := n + nn;
        piece := piece[nn..];
        if piece != [] {
          return n, false;
        }
      }
    }
  }

  lemma TakeStep(all: seq<byte>, n: nat, piece: seq<byte>, later: seq<byte>, nn: nat)
    requires n <= |all| && piece + later == all[n..] && nn <= |piece|
    ensures n + nn <= |all|
    ensures all[..n] + piece[..nn] == all[..n + nn]
    ensures piece[nn..] + later == all[n + nn..]
  {
    assert all[..n + nn] == all[..n] + all[n..][..nn];
    assert all[n + nn..] == all[n..][nn..];
  }

  /** EncodeToBytes returns exactly the recursive encoding. */
  method EncodeToBytes(v: Item) returns (out: array<byte>)
    requires Encodable(v)
    ensures fresh(out) && out[..] == Encode(v)
  {
    var eb := EncodeBuffer(v);
    out := eb.ToBytes();
  }

  method EncodeBuffer(v: Item) returns (eb: EncBuf)
    requires Encodable(v)
    ensures fresh(eb) && fresh(eb.sizebuf) && eb.Complete() && eb.Output() == Encode(v)
    ensures |eb.str| + eb.lhsize == |Encode(v)|
  {
    eb := new EncBuf();
    eb.WriteItem(v);
    assert [] + Marks(v, 0) == Marks(v, 0) && [] + Flat(v) == Flat(v);
    SpliceWhole(v);
    MarksFit(v, 0);
    EncodedSize(v, 0);
  }

  /** Encode writes exactly the recursive encoding, or a prefix of it on a write error. */
  method EncodeTo(w: Writer, v: Item) returns (ok: bool)
    requires Encodable(v)
    modifies w
    ensures ok ==> w.written == old(w.written) + Encode(v)
    ensures ok <==> |Encode(v)| <= old(w.room)
    ensures w.written <= old(w.written) + Encode(v)
  {
    var eb := EncodeBuffer(v);
    ok := eb.ToWriter(w);
  }

  method EncodeToReader(v: Item) returns (size: nat, r: EncReader)
    requires Encodable(v)
    ensures size == |Encode(v)| && fresh(r) && r.Valid() && r.Pending() == Encode(v)
  {
    var eb := EncodeBuffer(v);
    size := |eb.str| + eb.lhsize;
    r := new EncReader(eb);
  }

  method ReadChunk(r: EncReader, size: nat) returns (chunk: seq<byte>)
    requires r.Valid()
    modifies r
    ensures r.Valid()
    ensures |chunk| == Min(size, |old(r.Pending())|)
    ensures chunk == old(r.Pending())[..|chunk|] && r.Pending() == old(r.Pending())[|chunk|..]
  {
    var b := new byte[size];
    var n, eof := r.Read(b);
    chunk := b[..n];
  }

  /** A client that reads with buffers of the given sizes gets the pending bytes in order. */
  method ReadInChunks(r: EncReader, sizes: seq<nat>) returns (got: seq<byte>)
    requires r.Valid()
    modifies r
    ensures r.Valid() && got + r.Pending() == old(r.Pending())
    ensures |got| == Min(Total(sizes), |old(r.Pending())|)
    decreases |sizes|
  {
    if sizes == [] {
      return [];
    }
    ghost var all := r.Pending();
    var chunk := ReadChunk(r, sizes[0]);
    assert all == chunk + all[|chunk|..];
    var later := ReadInChunks(r, sizes[1..]);
    got := chunk + later;
    Concat3(chunk, later, r.Pending());
  }

  function Total(sizes: seq<nat>): nat
  {
    if sizes == [] then 0 else sizes[0] + Total(sizes[1..])
  }
}
