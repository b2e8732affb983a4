/**
 Sub-protocols over one connection: which version two peers settle on, and which
 range of message codes each protocol gets.
 */
module Protocols {
  import opened Bytes
  import opened PathOrder

  type Name = seq<byte>

  const WORD: nat := 0x1_0000_0000_0000_0000
  const BASE_LENGTH: nat := 16

  type Uint64 = n: nat | n < 0x1_0000_0000_0000_0000

  datatype Cap = Cap(name: Name, version: nat)
  datatype Protocol = Protocol(name: Name, version: nat, length: Uint64)
  datatype ProtoRW = ProtoRW(proto: Protocol, offset: Uint64)

  function CapOf(p: Protocol): Cap { Cap(p.name, p.version) }

  function Wrap(x: int): Uint64 { x % 0x1_0000_0000_0000_0000 }

  // ----- order of capabilities -----

  /** capsByNameAndVersion */
  predicate CapLess(a: Cap, b: Cap)
  {
    Less(a.name, b.name) || (a.name == b.name && a.version < b.version)
  }

  predicate AtMost(a: Cap, b: Cap) { a == b || CapLess(a, b) }

  ghost predicate Sorted(s: seq<Cap>)
  {
    forall i, j :: 0 <= i < j < |s| ==> AtMost(s[i], s[j])
  }

  lemma AtMostTransitive(a: Cap, b: Cap, c: Cap)
    requires AtMost(a, b) && AtMost(b, c)
    ensures AtMost(a, c)
  {
    if Less(a.name, b.name) && Less(b.name, c.name) { LessTransitive(a.name, b.name, c.name); }
  }

  lemma AtMostTotal(a: Cap, b: Cap)
    ensures AtMost(a, b) || AtMost(b, a)
  {
    var _ := Compare(a.name, b.name);
  }

  lemma Inserted(s: seq<Cap>, i: nat, c: Cap, r: seq<Cap>)
    requires Sorted(s) && i <= |s| && r == s[..i] + [c] + s[i..]
    requires forall k :: 0 <= k < i ==> AtMost(s[k], c)
    requires forall k :: i <= k < |s| ==> AtMost(c, s[k])
    ensures Sorted(r) && multiset(r) == multiset(s) + multiset{c}
  {
    hide AtMost, Sorted;
    InsertedSet(s, i, c);
    InsertedOrder(s, i, c, r);
  }

  lemma InsertedSet(s: seq<Cap>, i: nat, c: Cap)
    requires i <= |s|
    ensures multiset(s[..i] + [c] + s[i..]) == multiset(s) + multiset{c}
  {
    assert s == s[..i] + s[i..];
  }

  lemma InsertedOrder(s: seq<Cap>, i: nat, c: Cap, r: seq<Cap>)
    requires Sorted(s) && i <= |s| && r == s[..i] + [c] + s[i..]
    requires forall k :: 0 <= k < i ==> AtMost(s[k], c)
    requires forall k :: i <= k < |s| ==> AtMost(c, s[k])
    ensures Sorted(r)
  {
    hide AtMost;
    forall j, k | 0 <= j < k < |r| ensures AtMost(r[j], r[k]) {
      InsertedAt(s, i, c, j);
      InsertedAt(s, i, c, k);
    }
  }

  lemma InsertedAt(s: seq<Cap>, i: nat, c: Cap, j: nat)
    requires i <= |s| && j <= |s|
    ensures (s[..i] + [c] + s[i..])[j] == if j < i then s[j] else if j == i then c else s[j - 1]
  {
  }

  /** Puts one more in its place. */
  method Place(s: seq<Cap>, c: Cap) returns (r: seq<Cap>)
    requires Sorted(s)
    ensures Sorted(r) && multiset(r) == multiset(s) + multiset{c}
  {
    hide AtMost, CapLess, Less;
    var i := |s|;
    while i > 0 && !AtMost(s[i - 1], c)
      invariant 0 <= i <= |s|
      invariant forall k :: i <= k < |s| ==> AtMost(c, s[k])
    {
      AtMostTotal(s[i - 1], c);
      i := i - 1;
    }
    forall k | 0 <= k < i ensures AtMost(s[k], c) {
      if k < i - 1 { AtMostTransitive(s[k], s[i - 1], c); }
    }
    r := s[..i] + [c] + s[i..];
    Inserted(s, i, c, r);
  }

  /** sort.Sort by name and version. */
  method Sort(caps: seq<Cap>) returns (r: seq<Cap>)
    ensures Sorted(r) && multiset(r) == multiset(caps)
  {
    r := [];
    for i := 0 to |caps|
      invariant Sorted(r) && multiset(r) == multiset(caps[..i])
    {
      assert caps[..i + 1] == caps[..i] + [caps[i]];
      r := Place(r, caps[i]);
    }
    assert caps[..|caps|] == caps;
  }

  // ----- what is matched -----

  /** The first protocol in the list with this name and version. */
  function First(protos: seq<Protocol>, c: Cap): (r: Option<Protocol>)
    ensures r.Some? <==> exists p :: p in protos && CapOf(p) == c
    ensures r.Some? ==> r.value in protos && CapOf(r.value) == c
  {
    if protos == [] then None
    else if CapOf(protos[0]) == c then Some(protos[0])
    else First(protos[1..], c)
  }

  /** Advertised by the other side and implemented on this one. */
  ghost predicate Shared(protos: seq<Protocol>, caps: seq<Cap>, c: Cap)
  {
    c in caps && First(protos, c).Some?
  }

  /** Entry rw is the highest version of name n that is shared. */
  ghost predicate BestFor(protos: seq<Protocol>, caps: seq<Cap>, n: Name, rw: ProtoRW)
  {
    && rw.proto.name == n
    && Shared(protos, caps, CapOf(rw.proto)) && First(protos, CapOf(rw.proto)) == Some(rw.proto)
    && forall v: nat :: Shared(protos, caps, Cap(n, v)) ==> v <= rw.proto.version
  }

  /** Every name with a shared version has an entry, and it is the best one. */
  ghost predicate Best(protos: seq<Protocol>, caps: seq<Cap>, r: map<Name, ProtoRW>)
  {
    && (forall c :: Shared(protos, caps, c) ==> c.name in r)
    && (forall n :: n in r ==> BestFor(protos, caps, n, r[n]))
  }

  // ----- how codes are dealt out -----

  ghost predicate Increasing(order: seq<Name>)
  {
    forall i, j :: 0 <= i < j < |order| ==> Less(order[i], order[j])
  }

  function Length(r: map<Name, ProtoRW>, n: Name): nat
  {
    if n in r then r[n].proto.length else 0
  }

  /** The number of codes the named protocols need. */
  function Span(r: map<Name, ProtoRW>, names: seq<Name>): nat
  {
    if names == [] then 0 else Span(r, names[..|names| - 1]) + Length(r, names[|names| - 1])
  }

  /** In the order of names, each range starts where the one before ends, the first at 16. */
  ghost predicate Tiled(r: map<Name, ProtoRW>, order: seq<Name>)
  {
    && Increasing(order)
    && (forall n :: n in r <==> n in order)
    && forall i :: 0 <= i < |order| ==> r[order[i]].offset == Wrap(BASE_LENGTH + Span(r, order[..i]))
  }

  ghost predicate Matched(protos: seq<Protocol>, caps: seq<Cap>, r: map<Name, ProtoRW>, order: seq<Name>)
  {
    Best(protos, caps, r) && Tiled(r, order)
  }

  lemma {:induction false} SpanSame(r: map<Name, ProtoRW>, s: map<Name, ProtoRW>, names: seq<Name>)
    requires forall n :: n in names ==> Length(r, n) == Length(s, n)
    ensures Span(r, names) == Span(s, names)
  {
    if names != [] {
      assert forall n :: n in names[..|names| - 1] ==> n in names;
      SpanSame(r, s, names[..|names| - 1]);
    }
  }

  lemma SpanStep(r: map<Name, ProtoRW>, names: seq<Name>, n: Name)
    ensures Span(r, names + [n]) == Span(r, names) + Length(r, n)
  {
    assert (names + [n])[..|names|] == names;
  }

  lemma WrapAdd(x: int, y: int)
    ensures Wrap(Wrap(x) + y) == Wrap(x + y) && Wrap(Wrap(x) - y) == Wrap(x - y)
  {}

  lemma WrapFits(x: int)
    ensures 0 <= x < WORD ==> Wrap(x) == x
    ensures WORD <= x < 2 * WORD ==> Wrap(x) == x - WORD
  {}

  /** What is known of the i-th name. */
  lemma TiledAt(r: map<Name, ProtoRW>, order: seq<Name>, i: nat)
    requires Tiled(r, order) && i < |order|
    ensures order[i] in r && r[order[i]].offset == Wrap(BASE_LENGTH + Span(r, order[..i]))
    ensures Length(r, order[i]) == r[order[i]].proto.length
  {
    hide Less, Span, Wrap, Increasing;
    assert order[i] in order;
  }

  lemma TiledIndex(r: map<Name, ProtoRW>, order: seq<Name>, n: Name) returns (i: nat)
    requires Tiled(r, order) && n in r
    ensures i < |order| && order[i] == n
  {
    i :| 0 <= i < |order| && order[i] == n;
  }

  /** The entry a match writes, and where the next range starts. */
  function Entered(r: map<Name, ProtoRW>, offset: Uint64, p: Protocol): (map<Name, ProtoRW>, Uint64)
  {
    var start := if p.name in r then Wrap(offset - r[p.name].proto.length) else offset;
    (r[p.name := ProtoRW(p, start)], Wrap(start + p.length))
  }

  ghost function OrderWith(r: map<Name, ProtoRW>, order: seq<Name>, n: Name): seq<Name>
  {
    if n in r then order else order + [n]
  }

  /** No name in use comes after n. */
  ghost predicate Latest(r: map<Name, ProtoRW>, n: Name)
  {
    forall m :: m in r ==> m == n || Less(m, n)
  }

  ghost function Front(s: seq<Name>): seq<Name>
    requires s != []
  {
    s[..|s| - 1]
  }

  ghost function Last(s: seq<Name>): Name
    requires s != []
  {
    s[|s| - 1]
  }

  lemma FrontIs(s: seq<Name>)
    requires Increasing(s) && s != []
    ensures s == Front(s) + [Last(s)] && Increasing(Front(s))
    ensures forall n :: n in Front(s) <==> n in s && n != Last(s)
  {
    hide Less;
    forall n | n in Front(s) ensures n != Last(s) {
      var i :| 0 <= i < |s| - 1 && s[i] == n;
      assert Less(s[i], Last(s));
      NotLess(n);
    }
  }

  /** A name that comes last and is already there stands at the end. */
  lemma LastName(order: seq<Name>, n: Name)
    requires Increasing(order) && n in order && forall m :: m in order ==> m == n || Less(m, n)
    ensures Last(order) == n
  {
    hide Less;
    var k :| 0 <= k < |order| && order[k] == n;
    if k < |order| - 1 {
      assert Less(n, Last(order));
      assert Last(order) in order;
      Asymmetric(n, Last(order));
    }
  }

  lemma Asymmetric(a: Name, b: Name)
    ensures !(Less(a, b) && Less(b, a)) && !Less(a, a)
  {
    var _ := Compare(a, b);
    var _ := Compare(a, a);
  }

  /** Names o, the last of them n, with its range behind those of the others. */
  lemma TiledLast(s: map<Name, ProtoRW>, o: seq<Name>)
    requires Increasing(o) && o != [] && forall n :: n in s <==> n in o
    requires forall i :: 0 <= i < |o| - 1 ==> o[i] in s && s[o[i]].offset == Wrap(BASE_LENGTH + Span(s, o[..i]))
    requires Last(o) in s && s[Last(o)].offset == Wrap(BASE_LENGTH + Span(s, Front(o)))
    ensures Tiled(s, o)
  {
    hide Less, Span, Wrap, Increasing;
    forall i | 0 <= i < |o| ensures s[o[i]].offset == Wrap(BASE_LENGTH + Span(s, o[..i])) {
      if i == |o| - 1 { assert o[i] == Last(o); }
    }
  }

  /** The ranges of all names but n do not depend on the entry for n, if n comes last. */
  lemma Others(r: map<Name, ProtoRW>, order: seq<Name>, s: map<Name, ProtoRW>, o: seq<Name>, p: Protocol, start: Uint64)
    requires Tiled(r, order) && Increasing(o) && o != [] && Last(o) == p.name && Front(o) <= order
    requires s == r[p.name := ProtoRW(p, start)]
    ensures Span(s, Front(o)) == Span(r, Front(o))
    ensures forall i :: 0 <= i < |o| - 1 ==> o[i] in s && s[o[i]].offset == Wrap(BASE_LENGTH + Span(s, o[..i]))
  {
    hide Less, Wrap, Span;
    FrontIs(o);
    SpanSame(r, s, Front(o));
    forall i | 0 <= i < |o| - 1
      ensures o[i] in s && s[o[i]].offset == Wrap(BASE_LENGTH + Span(s, o[..i]))
    {
      assert o[i] == Front(o)[i] == order[i] && o[i] in Front(o);
      TiledAt(r, order, i);
      assert o[..i] == Front(o)[..i] == order[..i];
      assert forall m :: m in o[..i] ==> m in Front(o);
      SpanSame(r, s, o[..i]);
    }
  }

  lemma OrderGrows(r: map<Name, ProtoRW>, order: seq<Name>, n: Name)
    requires Tiled(r, order) && Latest(r, n)
    ensures var o := OrderWith(r, order, n);
            && Increasing(o) && o != [] && Last(o) == n
            && Front(o) == (if n in r then Front(order) else order) && Front(o) <= order
            && (n in r ==> o == order)
            && forall m :: m in o <==> m == n || m in r
  {
    hide Less, Span, Wrap;
    var o := OrderWith(r, order, n);
    if n in r {
      LastName(order, n);
    } else {
      assert Front(o) == order;
      forall i | 0 <= i < |order| ensures Less(order[i], n) {
        assert order[i] in order;
      }
    }
  }

  /** One more match keeps the tiling: a later version takes over the range of the earlier one. */
  lemma TiledStep(r: map<Name, ProtoRW>, order: seq<Name>, offset: Uint64, p: Protocol)
    requires Tiled(r, order) && Latest(r, p.name) && offset == Wrap(BASE_LENGTH + Span(r, order))
    ensures Tiled(Entered(r, offset, p).0, OrderWith(r, order, p.name))
    ensures Entered(r, offset, p).1 ==
            Wrap(BASE_LENGTH + Span(Entered(r, offset, p).0, OrderWith(r, order, p.name)))
  {
    hide *;
    var n := p.name;
    var o := OrderWith(r, order, n);
    EnteredIs(r, offset, p);
    OrderGrows(r, order, n);
    var start := if n in r then Wrap(offset - r[n].proto.length) else offset;
    StartIs(r, order, offset, n, o, start);
    PutLast(r, order, p, start, Entered(r, offset, p).0, o);
  }

  /** A protocol put behind all the others keeps the tiling. */
  lemma PutLast(r: map<Name, ProtoRW>, order: seq<Name>, p: Protocol, start: Uint64, s: map<Name, ProtoRW>,
                o: seq<Name>)
    requires Tiled(r, order) && Increasing(o) && o != [] && Last(o) == p.name && Front(o) <= order
    requires s == r[p.name := ProtoRW(p, start)] && forall m :: m in o <==> m == p.name || m in r
    requires start == Wrap(BASE_LENGTH + Span(r, Front(o)))
    ensures Tiled(s, o) && Wrap(start + p.length) == Wrap(BASE_LENGTH + Span(s, o))
  {
    hide *;
    Others(r, order, s, o, p, start);
    TiledLast(s, o);
    SpanLast(s, o, p, start);
  }

  lemma SpanLast(s: map<Name, ProtoRW>, o: seq<Name>, p: Protocol, start: Uint64)
    requires Increasing(o) && o != [] && Last(o) == p.name && p.name in s && s[p.name].proto == p
    requires start == Wrap(BASE_LENGTH + Span(s, Front(o)))
    ensures Wrap(start + p.length) == Wrap(BASE_LENGTH + Span(s, o))
  {
    hide *;
    FrontIs(o);
    SpanStep(s, Front(o), p.name);
    LengthIs(s, p.name);
    var before := BASE_LENGTH + Span(s, Front(o));
    WrapAdd(before, p.length);
    assert BASE_LENGTH + Span(s, o) == before + p.length;
  }

  lemma TiledIncreasing(r: map<Name, ProtoRW>, order: seq<Name>)
    requires Tiled(r, order)
    ensures Increasing(order)
  {}

  lemma LengthIs(r: map<Name, ProtoRW>, n: Name)
    requires n in r
    ensures Length(r, n) == r[n].proto.length
  {}

  lemma StartIs(r: map<Name, ProtoRW>, order: seq<Name>, offset: Uint64, n: Name, o: seq<Name>, start: Uint64)
    requires Tiled(r, order) && offset == Wrap(BASE_LENGTH + Span(r, order)) &&
             (n in r ==> order != [] && Last(order) == n)
    requires o != [] && Front(o) == (if n in r then Front(order) else order)
    requires start == if n in r then Wrap(offset - r[n].proto.length) else offset
    ensures start == Wrap(BASE_LENGTH + Span(r, Front(o)))
  {
    hide *;
    if n in r {
      TiledIncreasing(r, order);
      FrontIs(order);
      LengthIs(r, n);
      SpanStep(r, Front(order), n);
      WrapAdd(BASE_LENGTH + Span(r, order), r[n].proto.length);
    }
  }

  /** One more match keeps the best versions: capabilities come in rising versions. */
  lemma BestStep(protos: seq<Protocol>, caps: seq<Cap>, r: map<Name, ProtoRW>, offset: Uint64, c: Cap)
    requires Best(protos, caps, r) && forall x :: x in caps && x.name == c.name ==> x.version <= c.version
    ensures First(protos, c).None? ==> Best(protos, caps + [c], r)
    ensures First(protos, c).Some? ==> Best(protos, caps + [c], Entered(r, offset, First(protos, c).value).0)
  {
    hide First;
    var f := First(protos, c);
    assert forall x :: x in caps + [c] <==> x in caps || x == c;
    assert forall x :: Shared(protos, caps + [c], x) <==> Shared(protos, caps, x) || (x == c && f.Some?);
    if f.Some? {
      FirstIs(protos, c);
      var s := Entered(r, offset, f.value).0;
      forall n | n in s ensures BestFor(protos, caps + [c], n, s[n]) {
        if n != c.name {
          assert BestFor(protos, caps, n, r[n]);
        } else {
          forall v: nat | Shared(protos, caps + [c], Cap(n, v)) ensures v <= c.version {
            if Cap(n, v) in caps { assert Cap(n, v).name == c.name; }
          }
        }
      }
    } else {
      forall n | n in r ensures BestFor(protos, caps + [c], n, r[n]) {
        assert BestFor(protos, caps, n, r[n]);
      }
    }
  }

  lemma FirstIs(protos: seq<Protocol>, c: Cap)
    ensures First(protos, c).Some? ==> CapOf(First(protos, c).value) == c
  {}

  lemma LatestOf(protos: seq<Protocol>, sorted: seq<Cap>, k: nat, r: map<Name, ProtoRW>)
    requires k < |sorted| && Sorted(sorted) && Best(protos, sorted[..k], r)
    ensures Latest(r, sorted[k].name)
    ensures forall x :: x in sorted[..k] && x.name == sorted[k].name ==> x.version <= sorted[k].version
  {
    hide First, Less;
    forall m | m in r ensures m == sorted[k].name || Less(m, sorted[k].name) {
      assert BestFor(protos, sorted[..k], m, r[m]);
      var i :| 0 <= i < k && sorted[i] == CapOf(r[m].proto);
      assert AtMost(sorted[i], sorted[k]);
    }
    forall x | x in sorted[..k] && x.name == sorted[k].name ensures x.version <= sorted[k].version {
      var i :| 0 <= i < k && sorted[i] == x;
      assert AtMost(x, sorted[k]);
      NotLess(x.name);
    }
  }

  lemma NotLess(n: Name)
    ensures !Less(n, n)
  {
    var _ := Compare(n, n);
  }

  /** The inner loop of matchProtocols. */
  method Search(protos: seq<Protocol>, c: Cap) returns (r: Option<Protocol>)
    ensures r == First(protos, c)
  {
    var i := 0;
    while i < |protos|
      invariant i <= |protos| && First(protos, c) == First(protos[i..], c)
    {
      if protos[i].name == c.name && protos[i].version == c.version { return Some(protos[i]); }
      assert protos[i..][1..] == protos[i + 1..];
      i := i + 1;
    }
    return None;
  }

  /**
   matchProtocols: each shared protocol in its highest shared version, with ranges of
   codes that follow each other from 16 in the order of names. The list of
   capabilities is left sorted.
   */
  method MatchProtocols(protos: seq<Protocol>, caps: seq<Cap>)
    returns (r: map<Name, ProtoRW>, sorted: seq<Cap>, ghost order: seq<Name>)
    ensures Matched(protos, caps, r, order)
    ensures Sorted(sorted) && multiset(sorted) == multiset(caps)
  {
    hide *;
    sorted := Sort(caps);
    var offset: Uint64 := 16;
    r, order := map[], [];
    Nothing(protos);
    for k := 0 to |sorted|
      invariant Matched(protos, sorted[..k], r, order)
      invariant offset == Wrap(BASE_LENGTH + Span(r, order))
    {
      var c := sorted[k];
      MatchedIs(protos, sorted[..k], r, order);
      LatestOf(protos, sorted, k, r);
      BestStep(protos, sorted[..k], r, offset, c);
      assert sorted[..k + 1] == sorted[..k] + [c];
      var p := Search(protos, c);
      if p.Some? {
        FirstIs(protos, c);
        CapName(p.value);
        TiledStep(r, order, offset, p.value);
        EnteredIs(r, offset, p.value);
        ghost var o := OrderWith(r, order, p.value.name);
        if c.name in r { offset := Wrap(offset - r[c.name].proto.length); }
        r := r[c.name := ProtoRW(p.value, offset)];
        offset := Wrap(offset + p.value.length);
        order := o;
      }
      MatchedIs(protos, sorted[..k + 1], r, order);
    }
    assert sorted[..|sorted|] == sorted;
    Reordered(protos, sorted, caps, r, order);
  }

  lemma CapName(p: Protocol)
    ensures CapOf(p).name == p.name
  {}

  lemma EnteredIs(r: map<Name, ProtoRW>, offset: Uint64, p: Protocol)
    ensures var start := if p.name in r then Wrap(offset - r[p.name].proto.length) else offset;
            && Entered(r, offset, p).0 == r[p.name := ProtoRW(p, start)]
            && Entered(r, offset, p).1 == Wrap(start + p.length)
  {}

  lemma Nothing(protos: seq<Protocol>)
    ensures Matched(protos, [], map[], []) && Wrap(BASE_LENGTH + Span(map[], [])) == 16
  {}

  lemma MatchedIs(protos: seq<Protocol>, caps: seq<Cap>, r: map<Name, ProtoRW>, order: seq<Name>)
    ensures Matched(protos, caps, r, order) <==> Best(protos, caps, r) && Tiled(r, order)
  {}

  lemma Reordered(protos: seq<Protocol>, s: seq<Cap>, t: seq<Cap>, r: map<Name, ProtoRW>, order: seq<Name>)
    requires Matched(protos, s, r, order) && multiset(s) == multiset(t)
    ensures Matched(protos, t, r, order)
  {
    hide First, Tiled;
    assert forall c :: c in s <==> c in multiset(s);
    assert forall c :: c in t <==> c in multiset(t);
    assert forall c :: Shared(protos, s, c) <==> Shared(protos, t, c);
    forall n | n in r ensures BestFor(protos, t, n, r[n]) {
      assert BestFor(protos, s, n, r[n]);
    }
  }

  // ----- messages -----

  /** WriteMsg: a code the protocol does not have is refused, others are shifted. */
  function WriteCode(rw: ProtoRW, code: Uint64): Option<Uint64>
  {
    if code >= rw.proto.length then None else Some(Wrap(code + rw.offset))
  }

  /** ReadMsg */
  function ReadCode(rw: ProtoRW, code: Uint64): Uint64 { Wrap(code - rw.offset) }

  /** The test in getProto. */
  predicate Covers(rw: ProtoRW, code: Uint64)
  {
    rw.offset <= code < Wrap(rw.offset + rw.proto.length)
  }

  /** getProto, going over the protocols in any order. */
  method GetProto(r: map<Name, ProtoRW>, code: Uint64) returns (found: Option<Name>)
    ensures found.Some? ==> found.value in r && Covers(r[found.value], code)
    ensures found.None? ==> forall n :: n in r ==> !Covers(r[n], code)
  {
    var todo := r.Keys;
    while todo != {}
      invariant todo <= r.Keys
      invariant forall n :: n in r && n !in todo ==> !Covers(r[n], code)
    {
      var n :| n in todo;
      if Covers(r[n], code) { return Some(n); }
      todo := todo - {n};
    }
    return None;
  }

  /** A code written by n, and only by n, lands in the range of n, above the base protocol, and is read back. */
  ghost predicate Delivers(r: map<Name, ProtoRW>, n: Name, code: Uint64)
  {
    && n in r
    && WriteCode(r[n], code).Some?
    && var wire := WriteCode(r[n], code).value;
       && BASE_LENGTH <= wire && ReadCode(r[n], wire) == code
       && forall m :: m in r ==> (Covers(r[m], wire) <==> m == n)
  }

  ghost predicate AllDelivered(r: map<Name, ProtoRW>)
  {
    forall n, code: Uint64 :: n in r && code < r[n].proto.length ==> Delivers(r, n, code)
  }

  lemma {:induction false} SpanGrows(r: map<Name, ProtoRW>, names: seq<Name>, i: nat, j: nat)
    requires i < j <= |names|
    ensures Span(r, names[..i]) + Length(r, names[i]) <= Span(r, names[..j])
    decreases j
  {
    assert names[..j] == names[..j - 1] + [names[j - 1]];
    SpanStep(r, names[..j - 1], names[j - 1]);
    if i < j - 1 { SpanGrows(r, names, i, j - 1); }
  }

  lemma Starts(r: map<Name, ProtoRW>, order: seq<Name>, i: nat)
    requires Tiled(r, order) && i < |order| && BASE_LENGTH + Span(r, order) < WORD
    ensures order[i] in r && r[order[i]].offset == BASE_LENGTH + Span(r, order[..i])
    ensures Length(r, order[i]) == r[order[i]].proto.length
    ensures BASE_LENGTH + Span(r, order[..i]) + r[order[i]].proto.length < WORD
  {
    hide Less, Wrap, Span, Tiled;
    TiledAt(r, order, i);
    SpanGrows(r, order, i, |order|);
    assert order[..|order|] == order;
    WrapFits(BASE_LENGTH + Span(r, order[..i]));
  }

  lemma CoversIs(rw: ProtoRW, code: Uint64)
    requires rw.offset + rw.proto.length < WORD
    ensures Covers(rw, code) <==> rw.offset <= code < rw.offset + rw.proto.length
  {
    WrapFits(rw.offset + rw.proto.length);
  }

  lemma WriteRead(rw: ProtoRW, code: Uint64)
    requires code < rw.proto.length && rw.offset + rw.proto.length < WORD
    ensures WriteCode(rw, code) == Some(rw.offset + code) && ReadCode(rw, rw.offset + code) == code
  {
    WrapFits(rw.offset + code);
    WrapFits(code);
  }

  lemma Routed(r: map<Name, ProtoRW>, order: seq<Name>, n: Name, code: Uint64)
    requires Tiled(r, order) && BASE_LENGTH + Span(r, order) < WORD
    requires n in r && code < r[n].proto.length
    ensures Delivers(r, n, code)
  {
    hide Less, Span, Tiled, Covers, WriteCode, ReadCode, Wrap;
    var i := TiledIndex(r, order, n);
    Starts(r, order, i);
    WriteRead(r[n], code);
    var wire := r[n].offset + code;
    forall m | m in r ensures Covers(r[m], wire) <==> m == n {
      var j := TiledIndex(r, order, m);
      Starts(r, order, j);
      CoversIs(r[m], wire);
      if i < j { SpanGrows(r, order, i, j); }
      if j < i { SpanGrows(r, order, j, i); }
    }
  }

  lemma {:induction false} Covered(r: map<Name, ProtoRW>, order: seq<Name>, k: nat, code: Uint64) returns (i: nat)
    requires Tiled(r, order) && BASE_LENGTH + Span(r, order) < WORD && k <= |order|
    requires BASE_LENGTH <= code < BASE_LENGTH + Span(r, order[..k])
    ensures i < k && order[i] in r && Covers(r[order[i]], code)
    decreases k
  {
    hide Less, Tiled, Covers, Wrap, Span;
    SpanNone(r, order);
    assert order[..k] == order[..k - 1] + [order[k - 1]];
    SpanStep(r, order[..k - 1], order[k - 1]);
    if code < BASE_LENGTH + Span(r, order[..k - 1]) {
      i := Covered(r, order, k - 1, code);
    } else {
      i := k - 1;
      Starts(r, order, i);
      CoversIs(r[order[i]], code);
    }
  }

  /** The ranges leave no gap: exactly the codes from 16 up to the sum of the lengths are covered. */
  lemma Tiles(r: map<Name, ProtoRW>, order: seq<Name>, code: Uint64)
    requires Tiled(r, order) && BASE_LENGTH + Span(r, order) < WORD
    ensures (exists n :: n in r && Covers(r[n], code)) <==> BASE_LENGTH <= code < BASE_LENGTH + Span(r, order)
  {
    hide Less, Tiled, Covers, Wrap, Span;
    assert order[..|order|] == order;
    if BASE_LENGTH <= code < BASE_LENGTH + Span(r, order) {
      var i := Covered(r, order, |order|, code);
    }
    forall n | n in r && Covers(r[n], code) ensures BASE_LENGTH <= code < BASE_LENGTH + Span(r, order) {
      var i := TiledIndex(r, order, n);
      Starts(r, order, i);
      SpanGrows(r, order, i, |order|);
      CoversIs(r[n], code);
    }
  }

  /** Some range is the first to run over the end of the codes; then its own test never holds. */
  lemma {:induction false} Overrun(r: map<Name, ProtoRW>, order: seq<Name>, k: nat) returns (i: nat)
    requires Tiled(r, order) && k <= |order| && BASE_LENGTH + Span(r, order[..k]) >= WORD
    ensures i < |order| && order[i] in r && r[order[i]].proto.length > 0
    ensures forall code :: !Covers(r[order[i]], code)
    decreases k
  {
    hide Less, Tiled, Covers, Wrap, Span;
    SpanNone(r, order);
    assert order[..k] == order[..k - 1] + [order[k - 1]];
    SpanStep(r, order[..k - 1], order[k - 1]);
    if BASE_LENGTH + Span(r, order[..k - 1]) >= WORD {
      i := Overrun(r, order, k - 1);
    } else {
      i := k - 1;
      TiledAt(r, order, i);
      WrapFits(BASE_LENGTH + Span(r, order[..i]));
      Uncovered(r[order[i]]);
    }
  }

  lemma SpanNone(r: map<Name, ProtoRW>, order: seq<Name>)
    ensures Span(r, order[..0]) == 0
  {}

  lemma Uncovered(rw: ProtoRW)
    requires rw.offset + rw.proto.length >= WORD
    ensures forall code :: !Covers(rw, code)
  {
    WrapFits(rw.offset + rw.proto.length);
  }

  // ----- the codes that protocols and capabilities ask for -----

  /** Protocol number i is used for its name: it is shared, the first such, and no higher version is shared. */
  ghost predicate Wins(protos: seq<Protocol>, caps: seq<Cap>, i: nat)
    requires i < |protos|
  {
    && CapOf(protos[i]) in caps && (forall j :: 0 <= j < i ==> CapOf(protos[j]) != CapOf(protos[i]))
    && forall v: nat :: Shared(protos, caps, Cap(protos[i].name, v)) ==> v <= protos[i].version
  }

  /** The lengths of the highest shared versions among the first k protocols. */
  ghost function Needed(protos: seq<Protocol>, caps: seq<Cap>, k: nat): nat
    requires k <= |protos|
  {
    if k == 0 then 0 else Needed(protos, caps, k - 1) + if Wins(protos, caps, k - 1) then protos[k - 1].length else 0
  }

  ghost predicate Won(protos: seq<Protocol>, caps: seq<Cap>, k: nat, n: Name)
    requires k <= |protos|
  {
    exists i :: 0 <= i < k && Wins(protos, caps, i) && protos[i].name == n
  }

  /** The length of a protocol that is used and among the first k. */
  ghost function Share(protos: seq<Protocol>, caps: seq<Cap>, r: map<Name, ProtoRW>, k: nat, n: Name): nat
    requires k <= |protos|
  {
    if Won(protos, caps, k, n) then Length(r, n) else 0
  }

  ghost function Shares(protos: seq<Protocol>, caps: seq<Cap>, r: map<Name, ProtoRW>, k: nat, names: seq<Name>): nat
    requires k <= |protos|
  {
    if names == [] then 0
    else Shares(protos, caps, r, k, names[..|names| - 1]) + Share(protos, caps, r, k, names[|names| - 1])
  }

  /** First, by its index. */
  lemma {:induction false} FirstAt(protos: seq<Protocol>, c: Cap) returns (i: nat)
    requires First(protos, c).Some?
    ensures i < |protos| && protos[i] == First(protos, c).value && forall j :: 0 <= j < i ==> CapOf(protos[j]) != c
  {
    if CapOf(protos[0]) == c { return 0; }
    i := FirstAt(protos[1..], c);
    forall j | 0 <= j < i + 1 ensures CapOf(protos[j]) != c {
      if j > 0 { assert protos[j] == protos[1..][j - 1]; }
    }
    i := i + 1;
  }

  /** The entry of a name is the protocol that wins. */
  lemma WinnerOf(protos: seq<Protocol>, caps: seq<Cap>, r: map<Name, ProtoRW>, n: Name) returns (i: nat)
    requires Best(protos, caps, r) && n in r
    ensures i < |protos| && Wins(protos, caps, i) && protos[i] == r[n].proto && protos[i].name == n
  {
    hide First;
    assert BestFor(protos, caps, n, r[n]);
    i := FirstAt(protos, CapOf(r[n].proto));
  }

  /** Only one protocol wins for a name. */
  lemma OneWinner(protos: seq<Protocol>, caps: seq<Cap>, i: nat, j: nat)
    requires i < |protos| && j < |protos| && Wins(protos, caps, i) && Wins(protos, caps, j) &&
             protos[i].name == protos[j].name
    ensures i == j
  {
    hide First;
    assert Shared(protos, caps, Cap(protos[i].name, protos[i].version)) by { SharedAt(protos, caps, i); }
    assert Shared(protos, caps, Cap(protos[j].name, protos[j].version)) by { SharedAt(protos, caps, j); }
  }

  lemma SharedAt(protos: seq<Protocol>, caps: seq<Cap>, i: nat)
    requires i < |protos| && CapOf(protos[i]) in caps
    ensures Shared(protos, caps, Cap(protos[i].name, protos[i].version))
  {
    assert protos[i] in protos && CapOf(protos[i]) == Cap(protos[i].name, protos[i].version);
  }

  lemma {:induction false} SharesSame(protos: seq<Protocol>, caps: seq<Cap>, r: map<Name, ProtoRW>, k: nat,
                                      names: seq<Name>)
    requires k < |protos| && forall n :: n in names ==> Share(protos, caps, r, k + 1, n) == Share(protos, caps, r, k, n)
    ensures Shares(protos, caps, r, k + 1, names) == Shares(protos, caps, r, k, names)
  {
    hide Share;
    if names != [] {
      assert forall n :: n in names[..|names| - 1] ==> n in names;
      SharesSame(protos, caps, r, k, names[..|names| - 1]);
    }
  }

  /** One share changes. */
  lemma {:induction false} SharesStep(protos: seq<Protocol>, caps: seq<Cap>, r: map<Name, ProtoRW>, k: nat,
                                      names: seq<Name>, m: Name)
    requires k < |protos| && Increasing(names) && m in names && Share(protos, caps, r, k, m) == 0
    requires forall n :: n in names && n != m ==> Share(protos, caps, r, k + 1, n) == Share(protos, caps, r, k, n)
    ensures Shares(protos, caps, r, k + 1, names) ==
            Shares(protos, caps, r, k, names) + Share(protos, caps, r, k + 1, m)
  {
    hide Share, Less;
    var rest, last := names[..|names| - 1], names[|names| - 1];
    assert forall n :: n in rest ==> n in names;
    if last == m {
      forall n | n in rest ensures n != m { NotTwice(names, n); }
      SharesSame(protos, caps, r, k, rest);
    } else {
      SharesStep(protos, caps, r, k, rest, m);
    }
  }

  lemma NotTwice(names: seq<Name>, n: Name)
    requires Increasing(names) && names != [] && n in names[..|names| - 1]
    ensures n != names[|names| - 1]
  {
    hide Less;
    var i :| 0 <= i < |names| - 1 && names[i] == n;
    if n == names[|names| - 1] { NotLess(n); }
  }

  lemma WonNext(protos: seq<Protocol>, caps: seq<Cap>, k: nat, n: Name)
    requires k < |protos|
    ensures Won(protos, caps, k + 1, n) <==> Won(protos, caps, k, n) || (Wins(protos, caps, k) && protos[k].name == n)
  {
    hide Wins;
  }

  lemma {:induction false} NeededShares(protos: seq<Protocol>, caps: seq<Cap>, r: map<Name, ProtoRW>,
                                        order: seq<Name>, k: nat)
    requires Best(protos, caps, r) && Increasing(order) && (forall n :: n in r <==> n in order) && k <= |protos|
    ensures Needed(protos, caps, k) == Shares(protos, caps, r, k, order)
    decreases k
  {
    hide Best, Wins, Won, Increasing, Length;
    if k == 0 {
      NoShares(protos, caps, r, order);
    } else {
      NeededShares(protos, caps, r, order, k - 1);
      forall n
        ensures Won(protos, caps, k, n) <==>
                  Won(protos, caps, k - 1, n) || (Wins(protos, caps, k - 1) && protos[k - 1].name == n)
      {
        WonNext(protos, caps, k - 1, n);
      }
      if Wins(protos, caps, k - 1) {
        Winner(protos, caps, r, k - 1);
        SharesStep(protos, caps, r, k - 1, order, protos[k - 1].name);
      } else {
        SharesSame(protos, caps, r, k - 1, order);
      }
    }
  }

  lemma Winner(protos: seq<Protocol>, caps: seq<Cap>, r: map<Name, ProtoRW>, k: nat)
    requires Best(protos, caps, r) && k < |protos| && Wins(protos, caps, k)
    ensures protos[k].name in r && Length(r, protos[k].name) == protos[k].length &&
            !Won(protos, caps, k, protos[k].name)
  {
    hide Wins;
    var n := protos[k].name;
    WinsShared(protos, caps, k);
    var i := WinnerOf(protos, caps, r, n);
    OneWinner(protos, caps, i, k);
    if Won(protos, caps, k, n) {
      var j :| 0 <= j < k && Wins(protos, caps, j) && protos[j].name == n;
      OneWinner(protos, caps, j, k);
    }
  }

  lemma WinsShared(protos: seq<Protocol>, caps: seq<Cap>, k: nat)
    requires k < |protos| && Wins(protos, caps, k)
    ensures Shared(protos, caps, Cap(protos[k].name, protos[k].version))
  {
    hide First;
    SharedAt(protos, caps, k);
  }

  lemma {:induction false} NoShares(protos: seq<Protocol>, caps: seq<Cap>, r: map<Name, ProtoRW>, names: seq<Name>)
    ensures Shares(protos, caps, r, 0, names) == 0
  {
    if names != [] { NoShares(protos, caps, r, names[..|names| - 1]); }
  }

  lemma {:induction false} AllShares(protos: seq<Protocol>, caps: seq<Cap>, r: map<Name, ProtoRW>, names: seq<Name>)
    requires Best(protos, caps, r) && forall n :: n in names ==> n in r
    ensures Shares(protos, caps, r, |protos|, names) == Span(r, names)
  {
    hide Best, Wins, Length;
    if names != [] {
      var n := names[|names| - 1];
      assert forall m :: m in names[..|names| - 1] ==> m in names;
      AllShares(protos, caps, r, names[..|names| - 1]);
      var i := WinnerOf(protos, caps, r, n);
    }
  }

  /** The codes dealt out are those that the highest shared versions ask for. */
  lemma SpanNeeded(protos: seq<Protocol>, caps: seq<Cap>, r: map<Name, ProtoRW>, order: seq<Name>)
    requires Matched(protos, caps, r, order)
    ensures Span(r, order) == Needed(protos, caps, |protos|)
  {
    hide Best, Increasing;
    NeededShares(protos, caps, r, order, |protos|);
    AllShares(protos, caps, r, order);
  }

  /**
   Every message reaches the protocol that wrote it exactly when the codes of the highest
   shared versions, and the 16 of the base protocol, fit into 64 bits.
   */
  lemma Multiplexed(protos: seq<Protocol>, caps: seq<Cap>, r: map<Name, ProtoRW>, order: seq<Name>)
    requires Matched(protos, caps, r, order)
    ensures AllDelivered(r) <==> BASE_LENGTH + Span(r, order) < WORD
    ensures AllDelivered(r) <==> BASE_LENGTH + Needed(protos, caps, |protos|) < WORD
  {
    hide Less, Span, Best, Needed;
    SpanNeeded(protos, caps, r, order);
    if BASE_LENGTH + Span(r, order) < WORD {
      forall n, code: Uint64 | n in r && code < r[n].proto.length ensures Delivers(r, n, code) {
        Routed(r, order, n, code);
      }
    } else {
      assert order[..|order|] == order;
      var i := Overrun(r, order, |order|);
      assert !Delivers(r, order[i], 0);
    }
  }

  /** A protocol with too many codes: not all of its messages arrive. */
  method Overflow(n: Name, v: nat) returns (r: map<Name, ProtoRW>)
    ensures n in r && !AllDelivered(r)
  {
    hide Matched, Span, AllDelivered, First;
    var protos, caps := [Protocol(n, v, WORD - 16)], [Cap(n, v)];
    var sorted;
    ghost var order;
    r, sorted, order := MatchProtocols(protos, caps);
    Multiplexed(protos, caps, r, order);
    SharedAt(protos, caps, 0);
    MatchedNames(protos, caps, r, order, Cap(n, v));
    assert Wins(protos, caps, 0);
    assert Needed(protos, caps, 1) == Needed(protos, caps, 0) + (WORD - 16);
  }

  lemma MatchedNames(protos: seq<Protocol>, caps: seq<Cap>, r: map<Name, ProtoRW>, order: seq<Name>, c: Cap)
    requires Matched(protos, caps, r, order) && Shared(protos, caps, c)
    ensures c.name in r
  {
    hide Tiled, BestFor;
  }

  // ----- both sides -----

  /** What one side advertises is what it implements. */
  ghost predicate Advertised(protos: seq<Protocol>, caps: seq<Cap>)
  {
    forall c :: c in caps <==> First(protos, c).Some?
  }

  ghost predicate SameLengths(a: seq<Protocol>, b: seq<Protocol>)
  {
    forall p, q :: p in a && q in b && CapOf(p) == CapOf(q) ==> p.length == q.length
  }

  /** An increasing list is determined by its members. */
  lemma {:induction false} SameOrder(s: seq<Name>, t: seq<Name>)
    requires Increasing(s) && Increasing(t) && forall n :: n in s <==> n in t
    ensures s == t
  {
    hide Less, Increasing;
    if s != [] && t != [] {
      assert Last(s) in s && Last(t) in t;
      LastAbove(s, Last(t));
      LastAbove(t, Last(s));
      Asymmetric(Last(s), Last(t));
      FrontIs(s);
      FrontIs(t);
      SameOrder(Front(s), Front(t));
    } else if s != [] {
      Member(s);
    } else if t != [] {
      Member(t);
    }
  }

  lemma Member(s: seq<Name>)
    requires s != []
    ensures exists n :: n in s
  {
    assert s[0] in s;
  }

  lemma LastAbove(s: seq<Name>, n: Name)
    requires Increasing(s) && n in s
    ensures n == Last(s) || Less(n, Last(s))
  {
    hide Less;
    var i :| 0 <= i < |s| && s[i] == n;
  }

  /** Both sides settle on the same versions. */
  lemma SameVersions(a: seq<Protocol>, ca: seq<Cap>, ra: map<Name, ProtoRW>,
                     b: seq<Protocol>, cb: seq<Cap>, rb: map<Name, ProtoRW>, n: Name)
    requires Advertised(a, ca) && Advertised(b, cb) && SameLengths(a, b)
    requires Best(a, cb, ra) && Best(b, ca, rb) && n in ra
    ensures n in rb && rb[n].proto.version == ra[n].proto.version && rb[n].proto.length == ra[n].proto.length
  {
    assert BestFor(a, cb, n, ra[n]);
    var c := CapOf(ra[n].proto);
    assert Shared(b, ca, c);
    assert BestFor(b, ca, n, rb[n]);
    var d := CapOf(rb[n].proto);
    assert Shared(a, cb, d);
    assert c == Cap(n, c.version) && d == Cap(n, d.version);
  }

  /**
   Two peers that advertise what they implement and agree on lengths compute the same
   table, so a code written by a protocol on one side reaches the same protocol with
   the same code on the other.
   */
  lemma Peers(a: seq<Protocol>, ca: seq<Cap>, ra: map<Name, ProtoRW>, oa: seq<Name>,
              b: seq<Protocol>, cb: seq<Cap>, rb: map<Name, ProtoRW>, ob: seq<Name>)
    requires Advertised(a, ca) && Advertised(b, cb) && SameLengths(a, b)
    requires Matched(a, cb, ra, oa) && Matched(b, ca, rb, ob)
    ensures ra.Keys == rb.Keys
    ensures forall n :: n in ra ==>
              && ra[n].offset == rb[n].offset
              && ra[n].proto.version == rb[n].proto.version && ra[n].proto.length == rb[n].proto.length
  {
    hide Less, Span, First, Best;
    assert SameLengths(b, a);
    forall n ensures n in ra <==> n in rb {
      if n in ra { SameVersions(a, ca, ra, b, cb, rb, n); }
      if n in rb { SameVersions(b, cb, rb, a, ca, ra, n); }
    }
    SameOrder(oa, ob);
    forall n | n in ra
      ensures ra[n].offset == rb[n].offset
      ensures ra[n].proto.version == rb[n].proto.version && ra[n].proto.length == rb[n].proto.length
    {
      SameVersions(a, ca, ra, b, cb, rb, n);
      var i :| 0 <= i < |oa| && oa[i] == n;
      forall m | m in oa[..i] ensures Length(ra, m) == Length(rb, m) {
        assert m in oa;
        SameVersions(a, ca, ra, b, cb, rb, m);
      }
      SpanSame(ra, rb, oa[..i]);
    }
  }

  /** A message between two such peers, from matching on both sides to reading it. */
  method Exchange(a: seq<Protocol>, ca: seq<Cap>, b: seq<Protocol>, cb: seq<Cap>, n: Name, code: Uint64)
    returns (ra: map<Name, ProtoRW>, sent: Option<Uint64>, got: Option<Name>, back: Uint64, ghost order: seq<Name>)
    requires Advertised(a, ca) && Advertised(b, cb) && SameLengths(a, b)
    ensures Matched(a, cb, ra, order)
    ensures sent.Some? <==> n in ra && code < ra[n].proto.length
    ensures sent.Some? && BASE_LENGTH + Span(ra, order) < WORD ==> got == Some(n) && back == code
  {
    hide *;
    var s1, s2;
    ghost var ob;
    ra, s1, order := MatchProtocols(a, cb);
    var rb: map<Name, ProtoRW>;
    rb, s2, ob := MatchProtocols(b, ca);
    sent, got, back := None, None, 0;
    if n in ra {
      WriteSome(ra[n], code);
      sent := WriteCode(ra[n], code);
      if sent.Some? {
        got := GetProto(rb, sent.value);
        if got.Some? { back := ReadCode(rb[got.value], sent.value); }
        if BASE_LENGTH + Span(ra, order) < WORD {
          Peers(a, ca, ra, order, b, cb, rb, ob);
          MatchedIs(a, cb, ra, order);
          Routed(ra, order, n, code);
          Arrives(ra, rb, n, code);
        }
      }
    }
  }

  lemma WriteSome(rw: ProtoRW, code: Uint64)
    ensures WriteCode(rw, code).Some? <==> code < rw.proto.length
  {}

  /** What is delivered by one table is delivered by one with the same ranges. */
  lemma Arrives(ra: map<Name, ProtoRW>, rb: map<Name, ProtoRW>, n: Name, code: Uint64)
    requires Delivers(ra, n, code) && ra.Keys == rb.Keys
    requires forall m :: m in ra ==> ra[m].offset == rb[m].offset && ra[m].proto.length == rb[m].proto.length
    ensures WriteCode(ra[n], code).Some?
    ensures var wire := WriteCode(ra[n], code).value;
            ReadCode(rb[n], wire) == code && forall m :: m in rb ==> (Covers(rb[m], wire) <==> m == n)
  {
    hide Wrap;
    var wire := WriteCode(ra[n], code).value;
    forall m | m in rb ensures Covers(rb[m], wire) <==> m == n {
      assert m in ra.Keys;
      assert Covers(ra[m], wire) <==> m == n;
    }
  }
}
