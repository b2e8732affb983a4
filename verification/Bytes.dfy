/** Bytes, the error-carrying result type and minimal big-endian integers. */
module Bytes {

  type byte = x: int | 0 <= x < 256

  const TWO_64 := 0x1_0000_0000_0000_0000

  datatype Option<+T> = None | Some(value: T)

  datatype Result<+T, +E> = Ok(value: T) | Err(error: E)

  function Min(a: int, b: int): int { if a < b then a else b }

  function Max(a: int, b: int): int { if a < b then b else a }

  /** The number of values that k bytes can hold. */
  function Pow256(k: nat): (p: nat)
    ensures p >= 1
  {
    if k == 0 then 1 else 256 * Pow256(k - 1)
  }

  /** The number a byte string denotes, most significant byte first. */
  function BigEndian(s: seq<byte>): (n: nat)
    ensures n < Pow256(|s|)
  {
    if s == [] then 0 else BigEndian(s[..|s| - 1]) * 256 + s[|s| - 1]
  }

  /** n in big-endian form with the fewest bytes; zero still takes one byte. */
  function MinimalBytes(n: nat): (s: seq<byte>)
    ensures |s| >= 1
    ensures n != 0 ==> s[0] != 0
  {
    if n < 256 then [n] else MinimalBytes(n / 256) + [n % 256]
  }

  lemma {:induction false} BigEndianOfMinimal(n: nat)
    ensures BigEndian(MinimalBytes(n)) == n
  {
    if n < 256 {
      assert MinimalBytes(n)[..0] == [];
    } else {
      BigEndianOfMinimal(n / 256);
      assert MinimalBytes(n)[..|MinimalBytes(n)| - 1] == MinimalBytes(n / 256);
    }
  }

  /** A byte string without a leading zero is the minimal form of its number. */
  lemma {:induction false} MinimalOfBigEndian(s: seq<byte>)
    requires |s| >= 1 && s[0] != 0
    ensures MinimalBytes(BigEndian(s)) == s
    ensures BigEndian(s) != 0
  {
    var front := s[..|s| - 1];
    if |s| == 1 {
      assert front == [];
    } else {
      MinimalOfBigEndian(front);
      assert BigEndian(s) / 256 == BigEndian(front);
      assert s == front + [s[|s| - 1]];
    }
  }

  /** k bytes are enough exactly for the numbers below 256^k. */
  lemma {:induction false} MinimalLength(n: nat, k: nat)
    requires k >= 1
    ensures |MinimalBytes(n)| <= k <==> n < Pow256(k)
  {
    if k == 1 {
      assert Pow256(1) == 256 * Pow256(0);
    } else if n >= 256 {
      MinimalLength(n / 256, k - 1);
      assert n < 256 * Pow256(k - 1) <==> n / 256 < Pow256(k - 1);
    } else {
      MinimalLength(n, k - 1);
    }
  }

  lemma Pow256Of8()
    ensures Pow256(8) == TWO_64
  {
    assert Pow256(2) == 256 * Pow256(1);
    assert Pow256(4) == 256 * (256 * Pow256(2));
    assert Pow256(6) == 256 * (256 * Pow256(4));
    assert Pow256(8) == 256 * (256 * Pow256(6));
  }

  /** Eight bytes are enough exactly for 64-bit numbers. */
  lemma MinimalFits64(n: nat)
    ensures |MinimalBytes(n)| <= 8 <==> n < TWO_64
  {
    MinimalLength(n, 8);
    Pow256Of8();
  }

  lemma Concat3<T>(a: seq<T>, b: seq<T>, c: seq<T>)
    ensures (a + b) + c == a + (b + c)
  {
  }
}
