/** The order of byte strings (bytes.Compare): lexicographic, a proper prefix comes first. */
module PathOrder {
  import opened Bytes

  predicate Less(a: seq<byte>, b: seq<byte>)
  {
    b != [] && (a == [] || a[0] < b[0] || (a[0] == b[0] && Less(a[1..], b[1..])))
  }

  /** bytes.Compare */
  function Compare(a: seq<byte>, b: seq<byte>): (c: int)
    ensures c == -1 || c == 0 || c == 1
    ensures c == -1 <==> Less(a, b)
    ensures c == 1 <==> Less(b, a)
    ensures c == 0 <==> a == b
  {
    if a == [] then if b == [] then 0 else -1
    else if b == [] then 1
    else if a[0] != b[0] then if a[0] < b[0] then -1 else 1
    else
      assert a == [a[0]] + a[1..] && b == [b[0]] + b[1..];
      Compare(a[1..], b[1..])
  }

  lemma {:induction false} LessTransitive(a: seq<byte>, b: seq<byte>, c: seq<byte>)
    requires Less(a, b) && Less(b, c)
    ensures Less(a, c)
  {
    if a != [] && a[0] == b[0] && b[0] == c[0] { LessTransitive(a[1..], b[1..], c[1..]); }
  }

  /** A common front does not matter. */
  lemma {:induction false} LessFront(p: seq<byte>, a: seq<byte>, b: seq<byte>)
    ensures Less(p + a, p + b) <==> Less(a, b)
  {
    if p == [] {
      assert p + a == a && p + b == b;
    } else {
      assert (p + a)[1..] == p[1..] + a && (p + b)[1..] == p[1..] + b;
      LessFront(p[1..], a, b);
    }
  }

  lemma LessPrefix(p: seq<byte>, q: seq<byte>)
    ensures Less(p, p + q) <==> q != []
  {
    LessFront(p, [], q);
    assert p + [] == p;
  }

  /** What goes on from a string below key, and does not lead to key, stays below it. */
  lemma {:induction false} LessBelow(p: seq<byte>, q: seq<byte>, key: seq<byte>)
    requires Less(p, key) && !(p <= key) && p <= q
    ensures Less(q, key)
  {
    if p[0] == key[0] {
      assert p[1..] <= q[1..] by { assert q[..|p|] == p; assert q[1..][..|p| - 1] == p[1..]; }
      assert p == [p[0]] + p[1..] && key == [key[0]] + key[1..];
      LessBelow(p[1..], q[1..], key[1..]);
    }
  }

  lemma LessShorter(p: seq<byte>, q: seq<byte>, key: seq<byte>)
    requires p <= q && Less(q, key)
    ensures Less(p, key)
  {
    assert q == p + q[|p|..];
    LessPrefix(p, q[|p|..]);
    if p != q { LessTransitive(p, q, key); }
  }
}
