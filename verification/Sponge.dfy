/**
 The sponge behind Keccak: a one-shot definition on values, and the buffered
 object that takes its input and gives its output piece by piece.
 */
module Sponge {
  type Octet = bv8

  /** The 200 bytes of the permutation's state. */
  type Lanes = s: seq<Octet> | |s| == 200 witness seq(200, i => 0)

  /** The permutation is a parameter. */
  type Permutation = Lanes -> Lanes

  const MAX_RATE: nat := 168

  /** The rates in use: whole lanes, and no more than the storage holds. */
  predicate RateOk(rate: nat) { 0 < rate <= MAX_RATE && rate % 8 == 0 }

  function Blank(): Lanes { seq(200, i => 0) }

  function Xor(a: Lanes, block: seq<Octet>): Lanes
  {
    seq(200, i requires 0 <= i < 200 => if i < |block| then a[i] ^ block[i] else a[i])
  }

  function Quot(x: nat, d: nat): (q: nat)
    requires 0 < d
  {
    Parts(x, d);
    x / d
  }

  function Rem(x: nat, d: nat): (r: nat)
    requires 0 < d
    ensures r < d
  {
    x % d
  }

  lemma Parts(x: nat, d: nat)
    requires 0 < d
    ensures x / d >= 0 && x == d * (x / d) + Rem(x, d)
  {}

  lemma Larger(d: nat, k: int)
    requires 0 < d
    ensures k >= 1 ==> d * k >= d
    ensures k <= -1 ==> d * k <= 0 - d
  {}

  /** Quotient and remainder are unique. */
  lemma Division(x: nat, d: nat, q: int, r: int)
    requires 0 < d && 0 <= r < d && x == d * q + r
    ensures Quot(x, d) == q && Rem(x, d) == r
  {
    Parts(x, d);
    var k := q - x / d;
    assert d * k == d * q - d * (x / d);
    Larger(d, k);
  }

  /** Below the divisor, and within one step of it, nothing is nonlinear any more. */
  lemma Small(x: nat, d: nat)
    requires x < d
    ensures Quot(x, d) == 0 && Rem(x, d) == x
  {
    Division(x, d, 0, x);
  }

  lemma Within(x: nat, d: nat, k: int)
    requires 0 < d && 0 <= Rem(x, d) + k < d
    ensures x + k >= 0 && Quot(x + k, d) == Quot(x, d) && Rem(x + k, d) == Rem(x, d) + k
  {
    Parts(x, d);
    NonNegative(d, x / d);
    Division(x + k, d, x / d, Rem(x, d) + k);
  }

  lemma NonNegative(d: nat, q: int)
    requires q >= 0
    ensures d * q >= 0
  {}

  lemma Next(x: nat, d: nat, k: nat)
    requires 0 < d && Rem(x, d) + k == d
    ensures Quot(x + k, d) == Quot(x, d) + 1 && Rem(x + k, d) == 0
  {
    Parts(x, d);
    assert d * (x / d + 1) == d * (x / d) + d;
    Division(x + k, d, x / d + 1, 0);
  }

  lemma Shift(x: nat, d: nat)
    requires 0 < d
    ensures Quot(x + d, d) == Quot(x, d) + 1 && Rem(x + d, d) == Rem(x, d)
  {
    Parts(x, d);
    assert d * (x / d + 1) == d * (x / d) + d;
    Division(x + d, d, x / d + 1, Rem(x, d));
  }

  // ----- one shot: section 4 of FIPS 202 with the padding of section 5.1 -----

  /** The padding after a message: domain bits and first one bit, zeros, last one bit. */
  function Padding(rate: nat, length: nat, ds: Octet): (p: seq<Octet>)
    requires 0 < rate
    ensures 0 < |p| <= rate && Rem(length + |p|, rate) == 0
  {
    var q := rate - Rem(length, rate);
    Multiple(rate, length, q);
    if q == 1 then [ds ^ 0x80] else [ds] + seq(q - 2, i => 0 as Octet) + [0x80]
  }

  lemma Multiple(rate: nat, length: nat, q: nat)
    requires 0 < rate && q == rate - Rem(length, rate)
    ensures Rem(length + q, rate) == 0 && 0 < q <= rate
  {
    Parts(length, rate);
    Next(length, rate, q);
  }

  /** Takes in whole blocks; what is left of a last block is not touched. */
  function Absorb(f: Permutation, rate: nat, a: Lanes, s: seq<Octet>): Lanes
    requires 0 < rate
    decreases |s|
  {
    if |s| < rate then a else Absorb(f, rate, f(Xor(a, s[..rate])), s[rate..])
  }

  /** Gives n bytes, a block of output between two permutations. */
  function Squeeze(f: Permutation, rate: nat, a: Lanes, n: nat): seq<Octet>
    requires 0 < rate <= 200
    decreases n
  {
    if n <= rate then a[..n] else a[..rate] + Squeeze(f, rate, f(a), n - rate)
  }

  function Filled(f: Permutation, rate: nat, ds: Octet, m: seq<Octet>): Lanes
    requires 0 < rate
  {
    Absorb(f, rate, Blank(), m + Padding(rate, |m|, ds))
  }

  /** n bytes of output for message m. */
  function Digest(f: Permutation, rate: nat, ds: Octet, m: seq<Octet>, n: nat): seq<Octet>
    requires 0 < rate <= 200
  {
    Squeeze(f, rate, Filled(f, rate, ds, m), n)
  }

  lemma {:induction false} AbsorbSplit(f: Permutation, rate: nat, a: Lanes, s: seq<Octet>, t: seq<Octet>)
    requires 0 < rate && Rem(|s|, rate) == 0
    ensures Absorb(f, rate, a, s + t) == Absorb(f, rate, Absorb(f, rate, a, s), t)
    decreases |s|
  {
    if s == [] {
      assert s + t == t;
    } else {
      if |s| < rate { Small(|s|, rate); }
      assert (s + t)[..rate] == s[..rate];
      assert (s + t)[rate..] == s[rate..] + t;
      Shift(|s| - rate, rate);
      AbsorbSplit(f, rate, f(Xor(a, s[..rate])), s[rate..], t);
    }
  }

  // ----- output as a stream -----

  function Iterate(f: Permutation, a: Lanes, k: nat): Lanes
  {
    if k == 0 then a else f(Iterate(f, a, k - 1))
  }

  /** Byte k of the output. */
  function Stream(f: Permutation, rate: nat, a: Lanes, k: nat): Octet
    requires 0 < rate <= 200
  {
    Iterate(f, a, Quot(k, rate))[Rem(k, rate)]
  }

  lemma {:induction false} IterateFirst(f: Permutation, a: Lanes, k: nat)
    ensures Iterate(f, a, k + 1) == Iterate(f, f(a), k)
  {
    if k > 0 { IterateFirst(f, a, k - 1); }
  }

  /** A longer output starts with the shorter one: both read the same stream. */
  lemma {:induction false} SqueezeStream(f: Permutation, rate: nat, a: Lanes, n: nat)
    requires 0 < rate <= 200
    ensures |Squeeze(f, rate, a, n)| == n
    ensures forall k :: 0 <= k < n ==> Squeeze(f, rate, a, n)[k] == Stream(f, rate, a, k)
    decreases n
  {
    if n <= rate {
      forall k | 0 <= k < n ensures a[..n][k] == Stream(f, rate, a, k) {
        if k < rate { StreamFirst(f, rate, a, k); }
      }
    } else {
      SqueezeStream(f, rate, f(a), n - rate);
      forall k | 0 <= k < n ensures Squeeze(f, rate, a, n)[k] == Stream(f, rate, a, k) {
        if k < rate {
          StreamFirst(f, rate, a, k);
        } else {
          StreamNext(f, rate, a, k);
        }
      }
    }
  }

  lemma StreamFirst(f: Permutation, rate: nat, a: Lanes, k: nat)
    requires k < rate <= 200
    ensures Stream(f, rate, a, k) == a[k]
  {
    Small(k, rate);
  }

  lemma StreamNext(f: Permutation, rate: nat, a: Lanes, k: nat)
    requires 0 < rate <= 200 && rate <= k
    ensures Stream(f, rate, a, k) == Stream(f, rate, f(a), k - rate)
  {
    Shift(k - rate, rate);
    IterateFirst(f, a, Quot(k - rate, rate));
  }

  // ----- the buffered sponge -----

  datatype Outcome<T> = Done(value: T) | Panic

  class State {
    const f: Permutation
    const rate: nat
    const ds: Octet
    const outputLen: nat

    var a: Lanes
    var buf: seq<Octet>
    var squeezing: bool

    /** Everything written since the start, and how many bytes were read. */
    ghost var message: seq<Octet>
    ghost var taken: nat

    ghost predicate Valid()
      reads this
    {
      Sound(f, rate, ds, squeezing, message, taken, a, buf)
    }

    constructor (f: Permutation, rate: nat, outputLen: nat, ds: Octet)
      requires RateOk(rate)
      ensures Valid() && !squeezing && message == [] && taken == 0
      ensures this.f == f && this.rate == rate && this.outputLen == outputLen && this.ds == ds
    {
      this.f, this.rate, this.outputLen, this.ds := f, rate, outputLen, ds;
      a, buf, squeezing := Blank(), [], false;
      message, taken := [], 0;
      SoundNew(f, rate, ds);
    }

    /** Back to a sponge that has seen nothing. */
    method Reset()
      requires RateOk(rate)
      modifies this
      ensures Valid() && !squeezing && message == [] && taken == 0
    {
      a, squeezing, buf := Blank(), false, [];
      message, taken := [], 0;
      SoundNew(f, rate, ds);
    }

    /** permute: the buffered block goes in, or the next block of output comes out. */
    method Permute()
      requires rate <= MAX_RATE
      modifies this`a, this`buf
      ensures !squeezing ==> a == f(Xor(old(a), old(buf))) && buf == []
      ensures squeezing ==> a == f(old(a)) && buf == a[..rate]
    {
      if !squeezing {
        a := f(Xor(a, buf));
        buf := [];
      } else {
        a := f(a);
        buf := a[..rate];
      }
    }

    /** padAndPermute: the message is complete; the first block of output is ready. */
    method PadAndPermute()
      requires Valid() && !squeezing
      modifies this
      ensures Valid() && squeezing && message == old(message) && taken == 0
    {
      hide *;
      ValidIs(this);
      SoundFacts(f, rate, ds, squeezing, message, taken, a, buf);
      ghost var tail := buf;
      var block := buf + [ds] + seq(rate - |buf| - 1, i => 0 as Octet);
      buf := block[rate - 1 := block[rate - 1] ^ 0x80];
      PaddedBlock(rate, tail, ds, buf);
      PaddedEnd(f, rate, message, a, tail, ds, buf);
      Permute();
      squeezing := true;
      buf := a[..rate];
      ValidIs(this);
    }

    /** One round of writing: a whole block straight in, or as much as the buffer still takes. */
    method Round(rest: seq<Octet>) returns (take: nat)
      requires Valid() && !squeezing && |rest| > 0
      modifies this
      ensures Valid() && !squeezing && taken == old(taken)
      ensures 0 < take <= |rest| && message == old(message) + rest[..take]
    {
      hide *;
      ValidIs(this);
      SoundFacts(f, rate, ds, squeezing, message, taken, a, buf);
      if |buf| == 0 && |rest| >= rate {
        take := rate;
        Fill(f, rate, ds, message, taken, a, buf, rest[..take]);
        assert buf + rest[..take] == rest[..rate];
        a := f(Xor(a, rest[..rate]));
      } else {
        take := rate - |buf|;
        if take > |rest| { take := |rest|; }
        Fill(f, rate, ds, message, taken, a, buf, rest[..take]);
        buf := buf + rest[..take];
        if |buf| == rate { Permute(); }
      }
      message := message + rest[..take];
      ValidIs(this);
    }

    /** Writing appends to the message; once output was read it panics. */
    method Write(p: seq<Octet>) returns (r: Outcome<nat>)
      requires Valid()
      modifies this
      ensures Valid() && squeezing == old(squeezing) && taken == old(taken)
      ensures r.Panic? <==> old(squeezing)
      ensures r.Panic? ==> message == old(message)
      ensures r.Done? ==> r.value == |p| && message == old(message) + p
    {
      hide *;
      if squeezing { return Panic; }
      var rest := p;
      ghost var before := message;
      assert before + p[..0] == before;
      while |rest| > 0
        invariant Valid() && squeezing == old(squeezing) && !squeezing && taken == old(taken)
        invariant |rest| <= |p| && rest == p[|p| - |rest|..]
        invariant message == before + p[..|p| - |rest|]
      {
        ghost var done := |p| - |rest|;
        var take := Round(rest);
        assert p[..done + take] == p[..done] + rest[..take];
        assert before + p[..done] + rest[..take] == before + (p[..done] + rest[..take]);
        rest := rest[take..];
      }
      assert p[..|p|] == p;
      return Done(|p|);
    }

    /** Reading gives the next bytes of the output of everything written. */
    method Read(out: array<Octet>) returns (n: nat)
      requires Valid()
      modifies this, out
      ensures Valid() && squeezing && message == old(message) && n == out.Length && taken == old(taken) + n
      ensures forall i :: 0 <= i < n ==> out[i] == ByteOut(f, rate, ds, message, old(taken) + i)
    {
      hide *;
      ValidIs(this);
      SoundFacts(f, rate, ds, squeezing, message, taken, a, buf);
      if !squeezing { PadAndPermute(); }
      n := out.Length;
      ghost var first := taken;
      var at := 0;
      while at < out.Length
        invariant Valid() && squeezing && message == old(message)
        invariant at <= out.Length && taken == first + at
        invariant forall i :: 0 <= i < at ==> out[i] == ByteOut(f, rate, ds, message, first + i)
      {
        ValidIs(this);
        SoundFacts(f, rate, ds, squeezing, message, taken, a, buf);
        var k := if |buf| < out.Length - at then |buf| else out.Length - at;
        Drain(f, rate, ds, message, taken, a, buf, k);
        forall i | at <= i < at + k { out[i] := buf[i - at]; }
        forall i | 0 <= i < at + k ensures out[i] == ByteOut(f, rate, ds, message, first + i) {
          if i >= at {
            assert out[i] == buf[i - at];
          }
        }
        buf := buf[k..];
        at := at + k;
        if |buf| == 0 { Permute(); }
        taken := taken + k;
        ValidIs(this);
      }
    }

    /**
     clone: while absorbing an exact copy. While squeezing the copy's buffer is placed
     by the capacity of the old one, as if the storage were exactly one block long.
     */
    method Clone() returns (r: Outcome<State>)
      requires Valid()
      ensures r.Panic? <==> squeezing && Rem(taken, rate) < MAX_RATE - rate
      ensures r.Done? ==>
                && fresh(r.value) && r.value.Valid() && r.value.message == message && r.value.squeezing == squeezing
                && r.value.f == f && r.value.rate == rate && r.value.ds == ds && r.value.outputLen == outputLen
                && r.value.taken == if squeezing then taken - (MAX_RATE - rate) else taken
    {
      hide *;
      ValidIs(this);
      SoundFacts(f, rate, ds, squeezing, message, taken, a, buf);
      var shift := 0;
      if squeezing {
        var capacity := MAX_RATE - (rate - |buf|);
        if rate < capacity { return Panic; }
        shift := MAX_RATE - rate;
        PutBack(f, rate, ds, message, taken, a, buf, shift);
      }
      var copy := new State(f, rate, outputLen, ds);
      copy.a, copy.squeezing := a, squeezing;
      copy.buf := if squeezing then a[rate - |buf| - shift..rate] else buf;
      copy.message, copy.taken := message, taken - shift;
      ValidIs(copy);
      r := Done(copy);
    }

    /**
     Sum: the digest of what was written so far. The sponge itself is untouched, so
     writing can go on.
     */
    method Sum(prefix: seq<Octet>) returns (r: Outcome<seq<Octet>>)
      requires Valid()
      ensures !squeezing ==> r.Done? && Later(f, rate, ds, message, 0, outputLen, prefix, r.value)
      ensures r.Panic? <==> squeezing && Rem(taken, rate) < MAX_RATE - rate
      ensures r.Done? && squeezing ==>
                Later(f, rate, ds, message, taken - (MAX_RATE - rate), outputLen, prefix, r.value)
    {
      hide *;
      ValidIs(this);
      SoundFacts(f, rate, ds, squeezing, message, taken, a, buf);
      var c := Clone();
      if c.Panic? { return Panic; }
      var dup := c.value;
      var hash := new Octet[outputLen];
      ghost var first := dup.taken;
      var _ := dup.Read(hash);
      LaterIs(f, rate, ds, message, first, hash[..], prefix);
      r := Done(prefix + hash[..]);
    }
  }

  lemma ValidIs(s: State)
    ensures s.Valid() <==> Sound(s.f, s.rate, s.ds, s.squeezing, s.message, s.taken, s.a, s.buf)
  {}

  /** Byte k of the output for message m. */
  function ByteOut(f: Permutation, rate: nat, ds: Octet, m: seq<Octet>, k: nat): Octet
    requires 0 < rate <= 200
  {
    Stream(f, rate, Filled(f, rate, ds, m), k)
  }

  lemma DigestBytes(f: Permutation, rate: nat, ds: Octet, m: seq<Octet>, n: nat)
    requires 0 < rate <= 200
    ensures |Digest(f, rate, ds, m, n)| == n
    ensures forall k :: 0 <= k < n ==> Digest(f, rate, ds, m, n)[k] == ByteOut(f, rate, ds, m, k)
  {
    SqueezeStream(f, rate, Filled(f, rate, ds, m), n);
  }

  /** The n output bytes for m from position k on, behind the prefix. */
  ghost predicate Later(f: Permutation, rate: nat, ds: Octet, m: seq<Octet>, k: int, n: nat,
                        prefix: seq<Octet>, out: seq<Octet>)
  {
    && 0 < rate <= 200 && 0 <= k
    && |Digest(f, rate, ds, m, k + n)| == k + n
    && out == prefix + Digest(f, rate, ds, m, k + n)[k..]
  }

  lemma LaterIs(f: Permutation, rate: nat, ds: Octet, m: seq<Octet>, k: nat, s: seq<Octet>, prefix: seq<Octet>)
    requires 0 < rate <= 200
    requires forall i :: 0 <= i < |s| ==> s[i] == ByteOut(f, rate, ds, m, k + i)
    ensures Later(f, rate, ds, m, k, |s|, prefix, prefix + s)
  {
    hide Digest, ByteOut;
    DigestBytes(f, rate, ds, m, k + |s|);
    assert s == Digest(f, rate, ds, m, k + |s|)[k..];
  }

  /** While absorbing: whole blocks are in, the rest waits in the buffer. */
  ghost predicate Filling(f: Permutation, rate: nat, m: seq<Octet>, a: Lanes, buf: seq<Octet>)
    requires 0 < rate
  {
    && |buf| < rate && |buf| <= |m|
    && buf == m[|m| - |buf|..] && Rem(|m| - |buf|, rate) == 0
    && a == Absorb(f, rate, Blank(), m[..|m| - |buf|])
  }

  /** While squeezing: the current block is part of the stream, its unread end is buffered. */
  ghost predicate Draining(f: Permutation, rate: nat, full: Lanes, taken: nat, a: Lanes, buf: seq<Octet>)
    requires 0 < rate <= MAX_RATE
  {
    && a == Iterate(f, full, Quot(taken, rate))
    && buf == a[Rem(taken, rate)..rate]
  }

  ghost predicate Sound(f: Permutation, rate: nat, ds: Octet, squeezing: bool, m: seq<Octet>, taken: nat,
                        a: Lanes, buf: seq<Octet>)
  {
    && RateOk(rate)
    && if squeezing then Draining(f, rate, Filled(f, rate, ds, m), taken, a, buf)
       else taken == 0 && Filling(f, rate, m, a, buf)
  }

  lemma SoundNew(f: Permutation, rate: nat, ds: Octet)
    requires RateOk(rate)
    ensures Sound(f, rate, ds, false, [], 0, Blank(), [])
  {
    Small(0, rate);
  }

  lemma SoundFacts(f: Permutation, rate: nat, ds: Octet, squeezing: bool, m: seq<Octet>, taken: nat,
                   a: Lanes, buf: seq<Octet>)
    requires Sound(f, rate, ds, squeezing, m, taken, a, buf)
    ensures RateOk(rate) && 0 < rate <= MAX_RATE == 168
    ensures !squeezing ==> |buf| < rate && taken == 0
    ensures squeezing ==> |buf| == rate - Rem(taken, rate) > 0
  {}

  /** Up to a block more: either it stays in the buffer, or the block is complete and goes in. */
  lemma Fill(f: Permutation, rate: nat, ds: Octet, m: seq<Octet>, taken: nat, a: Lanes, buf: seq<Octet>, p: seq<Octet>)
    requires Sound(f, rate, ds, false, m, taken, a, buf) && |buf| + |p| <= rate
    ensures |buf| + |p| < rate ==> Sound(f, rate, ds, false, m + p, taken, a, buf + p)
    ensures |buf| + |p| == rate ==> Sound(f, rate, ds, false, m + p, taken, f(Xor(a, buf + p)), [])
  {
    hide Xor;
    var k := |m| - |buf|;
    var whole := m[..k];
    assert m == whole + buf;
    assert m + p == whole + (buf + p);
    if |buf| + |p| < rate {
      assert (m + p)[..k] == whole;
      assert (m + p)[k..] == buf + p;
    } else {
      AbsorbSplit(f, rate, Blank(), whole, buf + p);
      assert (buf + p)[..rate] == buf + p;
      assert (m + p)[..|m + p|] == m + p;
      Shift(k, rate);
    }
  }

  /** The padded block is the padding set behind the buffered end of the message. */
  lemma PaddedBlock(rate: nat, buf: seq<Octet>, ds: Octet, block: seq<Octet>)
    requires |buf| < rate
    requires var b := buf + [ds] + seq(rate - |buf| - 1, i => 0 as Octet); block == b[rate - 1 := b[rate - 1] ^ 0x80]
    ensures block == buf + Padding(rate, |buf|, ds)
  {
    Small(|buf|, rate);
    var p := Padding(rate, |buf|, ds);
    assert |block| == rate == |buf + p|;
    assert (0 as Octet) ^ 0x80 == 0x80;
  }

  lemma PaddedEnd(f: Permutation, rate: nat, m: seq<Octet>, a: Lanes, buf: seq<Octet>, ds: Octet, block: seq<Octet>)
    requires Sound(f, rate, ds, false, m, 0, a, buf)
    requires block == buf + Padding(rate, |buf|, ds) && |block| == rate
    ensures f(Xor(a, block)) == Filled(f, rate, ds, m)
    ensures Sound(f, rate, ds, true, m, 0, Filled(f, rate, ds, m), Filled(f, rate, ds, m)[..rate])
  {
    hide Xor, Padding, Absorb;
    var k := |m| - |buf|;
    Small(|buf|, rate);
    Within(k, rate, |buf|);
    SamePadding(rate, |m|, |buf|, ds);
    assert m == m[..k] + buf;
    assert m + Padding(rate, |m|, ds) == m[..k] + block;
    AbsorbSplit(f, rate, Blank(), m[..k], block);
    OneBlock(f, rate, a, block);
    Small(0, rate);
  }

  lemma SamePadding(rate: nat, m: nat, n: nat, ds: Octet)
    requires 0 < rate && Rem(m, rate) == Rem(n, rate)
    ensures Padding(rate, m, ds) == Padding(rate, n, ds)
  {
  }

  lemma OneBlock(f: Permutation, rate: nat, a: Lanes, block: seq<Octet>)
    requires 0 < rate && |block| == rate
    ensures Absorb(f, rate, a, block) == f(Xor(a, block))
  {
    hide Xor;
    assert block[..rate] == block;
  }

  /** Taking k bytes from the buffer takes the next k of the stream, into the next block if it runs dry. */
  lemma Drain(f: Permutation, rate: nat, ds: Octet, m: seq<Octet>, taken: nat, a: Lanes, buf: seq<Octet>, k: nat)
    requires Sound(f, rate, ds, true, m, taken, a, buf) && k <= |buf| && 0 < rate <= 200
    ensures forall i :: 0 <= i < k ==> buf[i] == ByteOut(f, rate, ds, m, taken + i)
    ensures k < |buf| ==> Sound(f, rate, ds, true, m, taken + k, a, buf[k..])
    ensures k == |buf| ==> Sound(f, rate, ds, true, m, taken + k, f(a), f(a)[..rate])
  {
    hide Filled, Quot, Rem;
    forall i | 0 <= i < k ensures buf[i] == ByteOut(f, rate, ds, m, taken + i) {
      Within(taken, rate, i);
    }
    if k < |buf| {
      Within(taken, rate, k);
    } else {
      Next(taken, rate, k);
    }
  }

  /** Bytes of the current block that were already read can be put back. */
  lemma PutBack(f: Permutation, rate: nat, ds: Octet, m: seq<Octet>, taken: nat, a: Lanes, buf: seq<Octet>, k: nat)
    requires Sound(f, rate, ds, true, m, taken, a, buf) && |buf| + k <= rate <= 200
    ensures k <= taken
    ensures Sound(f, rate, ds, true, m, taken - k, a, a[rate - |buf| - k..rate])
  {
    hide Filled, Quot, Rem;
    Within(taken, rate, 0 - k);
  }

  // ----- any split of input and output -----

  function Flat(parts: seq<seq<Octet>>): seq<Octet>
  {
    if parts == [] then [] else Flat(parts[..|parts| - 1]) + parts[|parts| - 1]
  }

  function Total(sizes: seq<nat>): nat
  {
    if sizes == [] then 0 else Total(sizes[..|sizes| - 1]) + sizes[|sizes| - 1]
  }

  lemma FlatNone()
    ensures Flat([]) == [] && Total([]) == 0
  {}

  lemma FlatStep(parts: seq<seq<Octet>>, i: nat)
    requires i < |parts|
    ensures Flat(parts[..i + 1]) == Flat(parts[..i]) + parts[i]
  {
    assert parts[..i + 1][..i] == parts[..i];
  }

  lemma TotalStep(sizes: seq<nat>, i: nat)
    requires i < |sizes|
    ensures Total(sizes[..i + 1]) == Total(sizes[..i]) + sizes[i]
  {
    assert sizes[..i + 1][..i] == sizes[..i];
  }

  /**
   However the input is cut into writes and the output into reads, and whatever sums
   are taken in between, the bytes read are those of the one-shot sponge.
   */
  method Hash(s: State, parts: seq<seq<Octet>>, sums: seq<bool>, sizes: seq<nat>) returns (out: seq<Octet>)
    requires s.Valid() && !s.squeezing && s.message == [] && |sums| == |parts|
    modifies s
    ensures s.Valid()
    ensures out == Digest(s.f, s.rate, s.ds, Flat(parts), Total(sizes))
  {
    hide *;
    ValidIs(s);
    SoundFacts(s.f, s.rate, s.ds, s.squeezing, s.message, s.taken, s.a, s.buf);
    FlatNone();
    for i := 0 to |parts|
      invariant s.Valid() && !s.squeezing && s.taken == 0 && s.message == Flat(parts[..i])
    {
      if sums[i] { var _ := s.Sum([]); }
      var _ := s.Write(parts[i]);
      FlatStep(parts, i);
    }
    assert parts[..|parts|] == parts;
    out := [];
    for i := 0 to |sizes|
      invariant s.Valid() && s.message == Flat(parts)
      invariant |out| == Total(sizes[..i]) == s.taken
      invariant forall k :: 0 <= k < |out| ==> out[k] == ByteOut(s.f, s.rate, s.ds, Flat(parts), k)
    {
      var piece := new Octet[sizes[i]];
      var _ := s.Read(piece);
      TotalStep(sizes, i);
      out := out + piece[..];
    }
    assert sizes[..|sizes|] == sizes;
    DigestBytes(s.f, s.rate, s.ds, Flat(parts), |out|);
  }
}
