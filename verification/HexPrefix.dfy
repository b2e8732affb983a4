/**
 Trie keys (trie/encoding.go): bytes as nibbles with a terminator, and the
 hex-prefix form of the Yellow Paper, Appendix C.
 */
module HexPrefix {
  import opened Bytes

  const TERM: byte := 16

  predicate HasTerm(s: seq<byte>) { |s| > 0 && s[|s| - 1] == TERM }

  predicate AllNibbles(s: seq<byte>) { forall i :: 0 <= i < |s| ==> s[i] < 16 }

  /** Nibbles, perhaps followed by one terminator. */
  predicate IsHex(s: seq<byte>)
  {
    forall i :: 0 <= i < |s| ==> s[i] < 16 || (i == |s| - 1 && s[i] == TERM)
  }

  /** A complete key: nibbles followed by the terminator. */
  predicate HexPath(s: seq<byte>) { IsHex(s) && HasTerm(s) }

  function Nibbles(bs: seq<byte>): (ns: seq<byte>)
    ensures |ns| == 2 * |bs| && AllNibbles(ns)
  {
    seq(2 * |bs|, i requires 0 <= i < 2 * |bs| => if i % 2 == 0 then bs[i / 2] / 16 else bs[i / 2] % 16)
  }

  function Pack(ns: seq<byte>): (bs: seq<byte>)
    requires |ns| % 2 == 0 && AllNibbles(ns)
    ensures |bs| == |ns| / 2
  {
    seq(|ns| / 2, i requires 0 <= i < |ns| / 2 => 16 * ns[2 * i] + ns[2 * i + 1])
  }

  lemma NibblesOfPack(ns: seq<byte>)
    requires |ns| % 2 == 0 && AllNibbles(ns)
    ensures Nibbles(Pack(ns)) == ns
  {
    forall i | 0 <= i < |ns| ensures Nibbles(Pack(ns))[i] == ns[i] {
      assert Pack(ns)[i / 2] == 16 * ns[2 * (i / 2)] + ns[2 * (i / 2) + 1];
    }
  }

  lemma PackOfNibbles(bs: seq<byte>)
    ensures Pack(Nibbles(bs)) == bs
  {
    forall i | 0 <= i < |bs| ensures Pack(Nibbles(bs))[i] == bs[i] { PackAt(bs, i); }
  }

  lemma PackAt(bs: seq<byte>, i: nat)
    requires i < |bs|
    ensures Pack(Nibbles(bs))[i] == bs[i]
  {
    var ns := Nibbles(bs);
    assert 2 * i / 2 == i && (2 * i + 1) / 2 == i;
    assert ns[2 * i] == bs[i] / 16 && ns[2 * i + 1] == bs[i] % 16;
  }

  /** The key under which the trie files a byte string. */
  function KeyHex(key: seq<byte>): (hex: seq<byte>)
    ensures HexPath(hex) && |hex| == 2 * |key| + 1
  {
    Nibbles(key) + [TERM]
  }

  /** hexToKeybytes; an odd number of nibbles makes the source panic. */
  function HexKey(hex: seq<byte>): (key: seq<byte>)
    requires IsHex(hex) && |Bare(hex)| % 2 == 0
  {
    Pack(Bare(hex))
  }

  /** A hex key without its terminator. */
  function Bare(hex: seq<byte>): (ns: seq<byte>)
    requires IsHex(hex)
    ensures AllNibbles(ns)
    ensures hex == if HasTerm(hex) then ns + [TERM] else ns
  {
    if HasTerm(hex) then hex[..|hex| - 1] else hex
  }

  /** Distinct keys have distinct hex forms: the hex form can be read back. */
  lemma HexKeyOfKeyHex(key: seq<byte>)
    ensures Bare(KeyHex(key)) == Nibbles(key)
    ensures HexKey(KeyHex(key)) == key
  {
    PackOfNibbles(key);
  }

  /** A flag nibble for terminator and parity, a padding nibble if needed, then the nibbles. */
  function Flagged(ns: seq<byte>, term: bool): (fs: seq<byte>)
    requires AllNibbles(ns)
    ensures AllNibbles(fs) && |fs| % 2 == 0 && |fs| >= 2
  {
    var flag: byte := if term then 2 else 0;
    (if |ns| % 2 == 1 then [flag + 1] else [flag, 0]) + ns
  }

  /** Hex-prefix form: the flagged nibbles in pairs. */
  function Compact(hex: seq<byte>): (c: seq<byte>)
    requires IsHex(hex)
    ensures |c| == |Bare(hex)| / 2 + 1
  {
    Pack(Flagged(Bare(hex), HasTerm(hex)))
  }

  /** compactToHex; an empty input makes the source panic. */
  function Uncompact(c: seq<byte>): seq<byte>
    requires c != []
  {
    Unflag(Nibbles(c))
  }

  function Unflag(base: seq<byte>): seq<byte>
    requires |base| >= 2
  {
    (if base[0] >= 2 then base + [TERM] else base)[2 - base[0] % 2..]
  }

  lemma UnflagOfFlagged(ns: seq<byte>, term: bool)
    requires AllNibbles(ns)
    ensures Unflag(Flagged(ns, term)) == if term then ns + [TERM] else ns
  {
    var fs := Flagged(ns, term);
    var k := 2 - fs[0] % 2;
    assert fs[k..] == ns;
    assert (fs + [TERM])[k..] == fs[k..] + [TERM];
  }

  /** Every nibble path, with or without terminator, survives the hex-prefix form. */
  lemma UncompactOfCompact(hex: seq<byte>)
    requires IsHex(hex)
    ensures Uncompact(Compact(hex)) == hex
  {
    NibblesOfPack(Flagged(Bare(hex), HasTerm(hex)));
    UnflagOfFlagged(Bare(hex), HasTerm(hex));
  }

  /** The canonical hex-prefix strings: flag nibble below four, padding nibble zero. */
  predicate IsCompact(c: seq<byte>)
  {
    c != [] && c[0] / 16 < 4 && (c[0] / 16 % 2 == 0 ==> c[0] % 16 == 0)
  }

  /** Every canonical hex-prefix string is the form of a path. */
  lemma CompactOfUncompact(c: seq<byte>)
    requires IsCompact(c)
    ensures IsHex(Uncompact(c)) && Compact(Uncompact(c)) == c
  {
    var base := Nibbles(c);
    assert base[0] == c[0] / 16 && base[1] == c[0] % 16;
    CompactOfUnflag(c, base);
  }

  lemma CompactOfUnflag(c: seq<byte>, base: seq<byte>)
    requires |base| >= 2 && base[0] < 4 && (base[0] % 2 == 0 ==> base[1] == 0)
    requires base == Nibbles(c)
    ensures IsHex(Unflag(base)) && Compact(Unflag(base)) == c
  {
    hide Nibbles, Pack;
    var ns, term := base[2 - base[0] % 2..], base[0] >= 2;
    FlaggedOfUnflag(base);
    UnflagOfFlagged(ns, term);
    BareOf(ns, term);
    PackOfNibbles(c);
  }

  lemma BareOf(ns: seq<byte>, term: bool)
    requires AllNibbles(ns)
    ensures var hex := if term then ns + [TERM] else ns;
            IsHex(hex) && Bare(hex) == ns && HasTerm(hex) == term
  {
  }

  /** Only canonical strings arise as hex-prefix forms. */
  lemma CompactIsCompact()
    ensures forall hex :: IsHex(hex) ==> IsCompact(Compact(hex))
  {
    forall hex | IsHex(hex) ensures IsCompact(Compact(hex)) {
      CompactParts(Bare(hex), HasTerm(hex));
    }
  }

  lemma FlaggedOfUnflag(base: seq<byte>)
    requires |base| >= 2 && |base| % 2 == 0 && AllNibbles(base)
    requires base[0] < 4 && (base[0] % 2 == 0 ==> base[1] == 0)
    ensures Flagged(base[2 - base[0] % 2..], base[0] >= 2) == base
  {
    if base[0] % 2 == 1 {
      assert base == [base[0]] + base[1..];
    } else {
      assert base == [base[0], 0] + base[2..];
    }
  }

  function CommonPrefix(a: seq<byte>, b: seq<byte>): (n: nat)
    ensures n <= |a| && n <= |b| && a[..n] == b[..n]
    ensures n < |a| && n < |b| ==> a[n] != b[n]
  {
    if a == [] || b == [] || a[0] != b[0] then 0
    else
      var n := CommonPrefix(a[1..], b[1..]);
      assert a[..n + 1] == [a[0]] + a[1..][..n] && b[..n + 1] == [b[0]] + b[1..][..n];
      n + 1
  }

  lemma CommonPrefixUnique(a: seq<byte>, b: seq<byte>, i: nat)
    requires i <= |a| && i <= |b| && a[..i] == b[..i]
    requires i < |a| && i < |b| ==> a[i] != b[i]
    ensures i == CommonPrefix(a, b)
  {
    var n := CommonPrefix(a, b);
    var m := if i < n then n else i;
    assert forall k :: 0 <= k < m ==> a[k] == a[..m][k] == b[..m][k] == b[k];
  }

  // ----- the loops of the source, over buffers -----

  /** prefixLen */
  method PrefixLen(a: seq<byte>, b: seq<byte>) returns (i: nat)
    ensures i <= |a| && i <= |b| && a[..i] == b[..i]
    ensures i < |a| && i < |b| ==> a[i] != b[i]
    ensures i == CommonPrefix(a, b)
  {
    var length := if |b| < |a| then |b| else |a|;
    i := 0;
    while i < length
      invariant 0 <= i <= length && a[..i] == b[..i]
    {
      if a[i] != b[i] { break; }
      i := i + 1;
    }
    CommonPrefixUnique(a, b, i);
  }

  /** keybytesToHex */
  method KeybytesToHex(str: seq<byte>) returns (nibbles: array<byte>)
    ensures fresh(nibbles) && nibbles[..] == KeyHex(str)
  {
    var l := |str| * 2 + 1;
    nibbles := new byte[l];
    var i := 0;
    while i < |str|
      invariant 0 <= i <= |str|
      invariant forall k :: 0 <= k < 2 * i ==> nibbles[k] == Nibbles(str)[k]
    {
      nibbles[i * 2] := str[i] / 16;
      nibbles[i * 2 + 1] := str[i] % 16;
      i := i + 1;
    }
    nibbles[l - 1] := TERM;
  }

  /** decodeNibbles, writing from position at on */
  method DecodeNibbles(nibbles: seq<byte>, bytes: array<byte>, at: nat)
    requires |nibbles| % 2 == 0 && AllNibbles(nibbles) && at + |nibbles| / 2 <= bytes.Length
    modifies bytes
    ensures bytes[at..at + |nibbles| / 2] == Pack(nibbles)
    ensures forall i :: 0 <= i < bytes.Length && !(at <= i < at + |nibbles| / 2) ==> bytes[i] == old(bytes[i])
  {
    var bi, ni := 0, 0;
    while ni < |nibbles|
      invariant ni == 2 * bi <= |nibbles|
      invariant forall k :: 0 <= k < bi ==> bytes[at + k] == Pack(nibbles)[k]
      invariant forall i :: 0 <= i < bytes.Length && !(at <= i < at + bi) ==> bytes[i] == old(bytes[i])
    {
      bytes[at + bi] := 16 * nibbles[ni] + nibbles[ni + 1];
      bi, ni := bi + 1, ni + 2;
    }
  }

  /** hexToCompact */
  method HexToCompact(hex: seq<byte>) returns (buf: array<byte>)
    requires IsHex(hex)
    ensures fresh(buf) && buf[..] == Compact(hex)
  {
    hide Pack, Flagged;
    var terminator: byte := 0;
    var h := hex;
    if HasTerm(hex) {
      terminator, h := 1, hex[..|hex| - 1];
    }
    buf := new byte[|h| / 2 + 1];
    buf[0] := 32 * terminator;
    if |h| % 2 == 1 {
      buf[0] := buf[0] + 16 + h[0];
      h := h[1..];
    }
    CompactParts(Bare(hex), HasTerm(hex));
    assert buf[0] == Compact(hex)[0] && Pack(h) == Compact(hex)[1..];
    DecodeNibbles(h, buf, 1);
    assert buf[..] == [buf[0]] + buf[1..];
  }

  /** First byte and remaining bytes of the hex-prefix form. */
  lemma CompactParts(ns: seq<byte>, term: bool)
    requires AllNibbles(ns)
    ensures var c := Pack(Flagged(ns, term));
            && c[0] == (if term then 32 else 0) + (if |ns| % 2 == 1 then 16 + ns[0] else 0)
            && c[1..] == Pack(if |ns| % 2 == 1 then ns[1..] else ns)
  {
    var fs := Flagged(ns, term);
    PackTail(fs);
    assert fs[2..] == if |ns| % 2 == 1 then ns[1..] else ns;
  }

  lemma PackTail(ns: seq<byte>)
    requires |ns| % 2 == 0 && AllNibbles(ns) && |ns| >= 2
    ensures Pack(ns) == [16 * ns[0] + ns[1]] + Pack(ns[2..])
  {
  }
}
