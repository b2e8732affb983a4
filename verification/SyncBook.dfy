/**
 The bookkeeping of the trie sync scheduler (trie/sync.go): which requests wait for
 which, what a node needs, and the invariants that every operation keeps.
 */
module SyncBook {
  import opened Bytes
  import opened TrieNode
  import RlpRaw

  /** One call that a leaf callback makes: a sub-trie or a raw entry (core/state/sync.go). */
  datatype Sub = Sub(hash: Hash, raw: bool, depth: nat)

  /** What a leaf callback does with a leaf: the calls it makes, and whether it then succeeds. */
  datatype Answer = Answer(subs: seq<Sub>, ok: bool)

  type Callback = seq<byte> -> Answer

  /**
   request; parents are given by hash, and the hash itself is the key in the table.
   cut notes that the callback has failed for it, which the source does not note.
   */
  datatype Request =
    Request(data: Option<seq<byte>>, raw: bool, parents: seq<Hash>, depth: nat, deps: nat, callback: bool, cut: bool)

  type Requests = map<Hash, Request>
  type Blobs = map<Hash, seq<byte>>

  // ----- what a node refers to -----

  /** The children of a node; nil children of full nodes do no harm. */
  function ChildNodes(n: Node): seq<Node>
  {
    match n
    case Short(_, v, _) => [v]
    case Full(ns, _) => ns
    case _ => []
  }

  /** The hash nodes in a list, in order. */
  function HashesIn(ns: seq<Node>): seq<Hash>
  {
    if ns == [] then [] else (if ns[0].HashNode? then [ns[0].hash] else []) + HashesIn(ns[1..])
  }

  /** The values in a list. */
  function ValuesIn(ns: seq<Node>): seq<seq<byte>>
  {
    if ns == [] then [] else (if ns[0].Value? then [ns[0].value] else []) + ValuesIn(ns[1..])
  }

  /** The empty trie and empty code are never fetched. */
  predicate Trivial(h: Hasher, s: Sub) { if s.raw then s.hash == h([]) else s.hash == h([0x80]) }

  /** What the callback finds in the leaves. */
  function SubsOf(cb: Callback, leaves: seq<seq<byte>>): seq<Sub>
  {
    if leaves == [] then [] else cb(leaves[0]).subs + SubsOf(cb, leaves[1..])
  }

  /** As what a hash is asked for; a request whose callback has failed is cut off from its children. */
  datatype Kind = Raw | Plain | Calling | Cut

  function KindOf(r: Request): Kind
  {
    if r.raw then Raw else if r.cut then Cut else if r.callback then Calling else Plain
  }

  function KindAt(kinds: map<Hash, Kind>, x: Hash): Kind { if x in kinds then kinds[x] else Plain }

  /** Children that go by hash. */
  ghost function KidHashes(n: Node): set<Hash> { set k | k in HashesIn(ChildNodes(n)) }

  /** What the leaves refer to. */
  ghost function SubHashes(h: Hasher, cb: Callback, n: Node): set<Hash>
  {
    set s | s in SubsOf(cb, ValuesIn(ChildNodes(n))) && !Trivial(h, s) :: s.hash
  }

  /** Children that go by hash and, if there is a callback, what the leaves refer to. */
  ghost function NeededBy(h: Hasher, cb: Callback, calling: bool, n: Node): set<Hash>
  {
    KidHashes(n) + if calling then SubHashes(h, cb, n) else {}
  }

  /** What must be in the database before the entry under hash x, if that was asked for as the given kind. */
  ghost function NeededAs(h: Hasher, cb: Callback, kind: Kind, x: Hash, data: seq<byte>): set<Hash>
  {
    if kind.Raw? then {}
    else
      match DecodeNode(Some(x), data, 0)
      case Err(_) => {}
      case Ok(n) =>
        if kind.Cut? then if x == ZeroHash() then {} else SubHashes(h, cb, n)
        else NeededBy(h, cb, kind.Calling? && x != ZeroHash(), n)
  }

  ghost function Needed(h: Hasher, cb: Callback, kinds: map<Hash, Kind>, x: Hash, data: seq<byte>): set<Hash>
  {
    NeededAs(h, cb, KindAt(kinds, x), x, data)
  }

  /** Every entry of the database has there what it needs as the kind it was first asked for. */
  ghost predicate Closed(h: Hasher, cb: Callback, kinds: map<Hash, Kind>, db: Blobs)
  {
    forall x :: x in db ==> Needed(h, cb, kinds, x, db[x]) <= db.Keys
  }

  // ----- counting -----

  function Count(ps: seq<Hash>, p: Hash): nat { multiset(ps)[p] }

  /** How often p occurs among the parents of the given requests. */
  ghost function Occ(rs: Requests, keys: set<Hash>, p: Hash): nat
    requires keys <= rs.Keys
  {
    if keys == {} then 0
    else
      var k :| k in keys;
      Count(rs[k].parents, p) + Occ(rs, keys - {k}, p)
  }

  lemma {:induction false} OccRemove(rs: Requests, keys: set<Hash>, x: Hash, p: Hash)
    requires keys <= rs.Keys && x in keys
    ensures Occ(rs, keys, p) == Count(rs[x].parents, p) + Occ(rs, keys - {x}, p)
    decreases |keys|
  {
    var k :| k in keys && Occ(rs, keys, p) == Count(rs[k].parents, p) + Occ(rs, keys - {k}, p);
    if k != x {
      OccRemove(rs, keys - {k}, x, p);
      OccRemove(rs, keys - {x}, k, p);
      assert keys - {k} - {x} == keys - {x} - {k};
    }
  }

  lemma {:induction false} OccSame(rs: Requests, qs: Requests, keys: set<Hash>, p: Hash)
    requires keys <= rs.Keys && keys <= qs.Keys && forall k :: k in keys ==> rs[k].parents == qs[k].parents
    ensures Occ(rs, keys, p) == Occ(qs, keys, p)
    decreases |keys|
  {
    if keys != {} {
      var k :| k in keys;
      OccRemove(rs, keys, k, p);
      OccRemove(qs, keys, k, p);
      OccSame(rs, qs, keys - {k}, p);
    }
  }

  /** Whoever does not occur is nobody's parent. */
  lemma {:induction false} OccZero(rs: Requests, p: Hash, c: Hash)
    requires c in rs && p in rs[c].parents
    ensures Occ(rs, rs.Keys, p) > 0
  {
    OccRemove(rs, rs.Keys, c, p);
  }

  /** A new request brings its parents. */
  lemma OccAdd(rs: Requests, x: Hash, r: Request, p: Hash)
    requires x !in rs
    ensures Occ(rs[x := r], rs[x := r].Keys, p) == Count(r.parents, p) + Occ(rs, rs.Keys, p)
  {
    var qs := rs[x := r];
    OccRemove(qs, qs.Keys, x, p);
    assert qs.Keys - {x} == rs.Keys;
    OccSame(rs, qs, rs.Keys, p);
  }

  /** A changed request counts with its new parents. */
  lemma OccChange(rs: Requests, x: Hash, r: Request, p: Hash)
    requires x in rs
    ensures Occ(rs[x := r], rs[x := r].Keys, p) + Count(rs[x].parents, p) == Occ(rs, rs.Keys, p) + Count(r.parents, p)
  {
    var qs := rs[x := r];
    OccRemove(qs, qs.Keys, x, p);
    OccRemove(rs, rs.Keys, x, p);
    assert qs.Keys == rs.Keys;
    OccSame(rs, qs, rs.Keys - {x}, p);
  }

  lemma OccDrop(rs: Requests, x: Hash, p: Hash)
    requires x in rs
    ensures Occ(rs - {x}, (rs - {x}).Keys, p) + Count(rs[x].parents, p) == Occ(rs, rs.Keys, p)
  {
    OccRemove(rs, rs.Keys, x, p);
    assert (rs - {x}).Keys == rs.Keys - {x};
    OccSame(rs, rs - {x}, rs.Keys - {x}, p);
  }

  lemma {:induction false} OccNone(rs: Requests, keys: set<Hash>, p: Hash)
    requires keys <= rs.Keys && forall c :: c in keys ==> p !in rs[c].parents
    ensures Occ(rs, keys, p) == 0
    decreases |keys|
  {
    if keys != {} {
      var k :| k in keys;
      OccRemove(rs, keys, k, p);
      OccNone(rs, keys - {k}, p);
    }
  }

  // ----- the invariants -----

  /**
   deps counts how often a request is a parent of a pending request, apart from
   links that are about to be made or broken.
   */
  ghost predicate Counted(rs: Requests, flight: multiset<Hash>)
  {
    forall p :: p in rs ==> rs[p].deps == Occ(rs, rs.Keys, p) + flight[p]
  }

  /** Parents are pending. */
  ghost predicate Linked(rs: Requests, flight: multiset<Hash>)
  {
    && (forall c, p :: c in rs && p in rs[c].parents ==> p in rs)
    && (forall p :: p in flight ==> p in rs)
  }

  ghost predicate Links(rs: Requests, flight: multiset<Hash>) { Counted(rs, flight) && Linked(rs, flight) }

  /** k is there already, or p waits for it. */
  ghost predicate Reached(have: set<Hash>, rs: Requests, p: Hash, k: Hash)
  {
    k in have || (k in rs && p in rs[k].parents)
  }

  lemma NotWaiting(rs: Requests, have: set<Hash>, p: Hash, k: Hash)
    requires Reached(have, rs, p, k) && Occ(rs, rs.Keys, p) == 0
    ensures k in have
  {
    if k !in have { OccZero(rs, p, k); }
  }

  /** An unknown hash is nobody's parent. */
  lemma UnknownOcc(rs: Requests, flight: multiset<Hash>, x: Hash)
    requires Linked(rs, flight) && x !in rs
    ensures Occ(rs, rs.Keys, x) == 0 && flight[x] == 0
  {
    OccNone(rs, rs.Keys, x);
  }

  /** schedule: a new request, or a further parent for one that is pending. */
  function Scheduled(rs: Requests, x: Hash, r: Request): Requests
  {
    if x in rs then rs[x := rs[x].(parents := rs[x].parents + r.parents)] else rs[x := r]
  }

  lemma ScheduleOcc(rs: Requests, x: Hash, r: Request, q: Hash)
    ensures Occ(Scheduled(rs, x, r), Scheduled(rs, x, r).Keys, q) == Occ(rs, rs.Keys, q) + Count(r.parents, q)
  {
    if x in rs {
      OccChange(rs, x, rs[x].(parents := rs[x].parents + r.parents), q);
    } else {
      OccAdd(rs, x, r, q);
    }
  }

  /** The links announced in flight are made. */
  lemma ScheduleLinks(rs: Requests, flight: multiset<Hash>, x: Hash, r: Request)
    requires Links(rs, flight + multiset(r.parents)) && r.deps == 0
    ensures Links(Scheduled(rs, x, r), flight)
  {
    var qs := Scheduled(rs, x, r);
    forall q | q in qs ensures qs[q].deps == Occ(qs, qs.Keys, q) + flight[q] {
      ScheduleOcc(rs, x, r, q);
      if q !in rs { UnknownOcc(rs, flight + multiset(r.parents), q); }
    }
    forall c, p | c in qs && p in qs[c].parents ensures p in qs {
      if p in r.parents { assert p in flight + multiset(r.parents); }
    }
    forall p | p in flight ensures p in qs { assert p in flight + multiset(r.parents); }
  }

  /** p, n times. */
  function Times(p: Hash, n: nat): multiset<Hash> { multiset{}[p := n] }

  /** deps is raised before the link is made. */
  lemma RaiseLinks(rs: Requests, flight: multiset<Hash>, p: Hash, n: nat)
    requires Links(rs, flight) && p in rs
    ensures Links(rs[p := rs[p].(deps := rs[p].deps + n)], flight + Times(p, n))
  {
    var qs := rs[p := rs[p].(deps := rs[p].deps + n)];
    forall q | q in qs ensures qs[q].deps == Occ(qs, qs.Keys, q) + (flight + Times(p, n))[q] {
      OccChange(rs, p, qs[p], q);
    }
  }

  /** Giving a request its data does not touch links. */
  lemma DataLinks(rs: Requests, flight: multiset<Hash>, p: Hash, data: seq<byte>)
    requires Links(rs, flight) && p in rs
    ensures Links(rs[p := rs[p].(data := Some(data))], flight)
  {
    var qs := rs[p := rs[p].(data := Some(data))];
    forall q | q in qs ensures qs[q].deps == Occ(qs, qs.Keys, q) + flight[q] {
      OccChange(rs, p, qs[p], q);
    }
  }

  /** A request that nobody counts on leaves; its links are still to be broken. */
  lemma RemoveLinks(rs: Requests, flight: multiset<Hash>, x: Hash)
    requires Links(rs, flight) && x in rs && rs[x].deps == 0
    ensures Links(rs - {x}, flight + multiset(rs[x].parents))
  {
    var qs, more := rs - {x}, flight + multiset(rs[x].parents);
    forall q | q in qs ensures qs[q].deps == Occ(qs, qs.Keys, q) + more[q] {
      OccDrop(rs, x, q);
    }
    assert Occ(rs, rs.Keys, x) == 0 && flight[x] == 0;
    forall c, p | c in qs && p in qs[c].parents ensures p in qs {
      if p == x { OccZero(rs, x, c); }
    }
    forall p | p in more ensures p in qs {
      if p == x && x in rs[x].parents { OccZero(rs, x, x); }
    }
  }

  /** One link is broken. */
  lemma LowerLinks(rs: Requests, flight: multiset<Hash>, p: Hash)
    requires Links(rs, flight + multiset{p})
    ensures p in rs && rs[p].deps > 0
    ensures Links(rs[p := rs[p].(deps := rs[p].deps - 1)], flight)
  {
    assert p in flight + multiset{p};
    var qs := rs[p := rs[p].(deps := rs[p].deps - 1)];
    forall q | q in qs ensures qs[q].deps == Occ(qs, qs.Keys, q) + flight[q] {
      OccChange(rs, p, qs[p], q);
    }
    forall q | q in flight ensures q in qs { assert q in flight + multiset{p}; }
  }

  // ----- lists of children, one at a time -----

  lemma {:induction false} HashesSnoc(ns: seq<Node>, n: Node)
    ensures HashesIn(ns + [n]) == HashesIn(ns) + if n.HashNode? then [n.hash] else []
  {
    if ns != [] {
      assert (ns + [n])[1..] == ns[1..] + [n];
      HashesSnoc(ns[1..], n);
    }
  }

  lemma {:induction false} WhereHash(ns: seq<Node>, k: Hash) returns (i: nat)
    requires k in HashesIn(ns)
    ensures i < |ns| && ns[i] == HashNode(k)
  {
    if ns[0] == HashNode(k) { return 0; }
    i := WhereHash(ns[1..], k);
    i := i + 1;
  }

  lemma {:induction false} ValuesSnoc(ns: seq<Node>, n: Node)
    ensures ValuesIn(ns + [n]) == ValuesIn(ns) + if n.Value? then [n.value] else []
  {
    if ns != [] {
      assert (ns + [n])[1..] == ns[1..] + [n];
      ValuesSnoc(ns[1..], n);
    }
  }

  lemma {:induction false} SubsSnoc(cb: Callback, vs: seq<seq<byte>>, v: seq<byte>)
    ensures SubsOf(cb, vs + [v]) == SubsOf(cb, vs) + cb(v).subs
  {
    if vs != [] {
      assert (vs + [v])[1..] == vs[1..] + [v];
      SubsSnoc(cb, vs[1..], v);
    }
  }

  /** A decoded node has a value only as its last child. */
  lemma OneValue(hash: Option<Hash>, data: seq<byte>, gen: nat, i: nat)
    requires DecodeNode(hash, data, gen).Ok?
    requires i < |ChildNodes(DecodeNode(hash, data, gen).value)|
    requires ChildNodes(DecodeNode(hash, data, gen).value)[i].Value?
    ensures var cs := ChildNodes(DecodeNode(hash, data, gen).value);
            ValuesIn(cs[..i]) == [] && ValuesIn(cs) == [cs[i].value] && cs[..i] + [cs[i]] == cs
  {
    hide DecodeNode;
    var n := DecodeNode(hash, data, gen).value;
    var cs := ChildNodes(n);
    DecodedKind(hash, data, gen);
    if n.Full? { FullShape(hash, data, gen); }
    assert i == |cs| - 1;
    NoValues(cs[..i]);
    assert cs[..i] + [cs[i]] == cs;
    ValuesSnoc(cs[..i], cs[i]);
  }

  lemma FullShape(hash: Option<Hash>, data: seq<byte>, gen: nat)
    requires DecodeNode(hash, data, gen).Ok? && DecodeNode(hash, data, gen).value.Full?
    ensures var ns := DecodeNode(hash, data, gen).value.children;
            forall j :: 0 <= j < |ns| - 1 ==> !ns[j].Value?
  {
    hide DecodeRefs;
    var elems := RlpRaw.SplitList(data).value.content;
    RefsNoValue(elems, 16, gen);
  }

  lemma {:induction false} RefsNoValue(elems: seq<byte>, n: nat, gen: nat)
    requires DecodeRefs(elems, n, gen).Ok?
    ensures forall j :: 0 <= j < |DecodeRefs(elems, n, gen).value.nodes| ==>
                !DecodeRefs(elems, n, gen).value.nodes[j].Value?
    decreases n
  {
    hide DecodeRef;
    if n > 0 {
      RefNoValue(elems, gen);
      RefsNoValue(DecodeRef(elems, gen).value.rest, n - 1, gen);
    }
  }

  lemma RefNoValue(buf: seq<byte>, gen: nat)
    requires DecodeRef(buf, gen).Ok?
    ensures !DecodeRef(buf, gen).value.node.Value?
  {
    hide DecodeNode;
    if DecodeNode(None, buf, gen).Ok? { DecodedKind(None, buf, gen); }
  }

  lemma DecodedKind(hash: Option<Hash>, data: seq<byte>, gen: nat)
    requires DecodeNode(hash, data, gen).Ok?
    ensures var n := DecodeNode(hash, data, gen).value;
            n.Short? || n.Full?
  {
    hide DecodeRef, DecodeRefs;
  }

  lemma {:induction false} NoValues(ns: seq<Node>)
    requires forall j :: 0 <= j < |ns| ==> !ns[j].Value?
    ensures ValuesIn(ns) == []
  {
    if ns != [] { NoValues(ns[1..]); }
  }
}
