/**
 Who refers to whom in a sync: every reference made to a hash, and as what. Requests for
 the same hash are merged, and the first one decides how the entry is treated
 (trie/sync.go:65-75), so that an entry may be stored without what a later reference
 expects of it.
 */
module SyncUses {
  import opened Bytes
  import opened TrieNode
  import opened SyncBook
  import opened SyncSteps
  import opened SyncRound

  /** A reference to a hash as raw data, as a node, or as a node whose leaves go to the callback. */
  datatype Use = Use(hash: Hash, kind: Kind)

  /** The kind of the reference behind a request. */
  function Asked(k: Kind): Kind { if k.Cut? then Calling else k }

  /** The references made by a node. */
  ghost function UsesBy(h: Hasher, cb: Callback, calling: bool, n: Node): set<Use>
  {
    (set k | k in HashesIn(ChildNodes(n)) :: Use(k, if calling then Calling else Plain))
    + if calling then set s | s in SubsOf(cb, Leaf(n)) && !Trivial(h, s) :: Use(s.hash, if s.raw then Raw else Plain) else {}
  }

  /** The references made by the entry under x, if it was asked for as the given kind. */
  ghost function UsesMade(h: Hasher, cb: Callback, kind: Kind, x: Hash, data: seq<byte>): set<Use>
  {
    if kind.Raw? then {}
    else
      match DecodeNode(Some(x), data, 0)
      case Err(_) => {}
      case Ok(n) => UsesBy(h, cb, !kind.Plain?, n)
  }

  /** The data for x is in the database, in the batch or with its request. */
  ghost predicate Present(b: Book, x: Hash, data: seq<byte>) { (x in b.db && b.db[x] == data) || Holds(b, x, data) }

  /** All references are noted, with those that decided about the kinds. */
  ghost predicate Noted(h: Hasher, cb: Callback, b: Book, uses: set<Use>, failed: set<Hash>)
  {
    && (forall x :: x in b.kinds ==> Use(x, Asked(b.kinds[x])) in uses && (b.kinds[x].Cut? ==> x in failed))
    && (forall x, data :: Present(b, x, data) ==> x in b.kinds && UsesMade(h, cb, b.kinds[x], x, data) <= uses)
  }

  // ----- what it is good for -----

  /** The children of an entry, taken as a node, that go by hash. */
  ghost function Kids(h: Hasher, cb: Callback, x: Hash, data: seq<byte>): set<Hash> { NeededAs(h, cb, Plain, x, data) }

  /** Every entry that anybody refers to as a node has its children in the database. */
  ghost predicate NodeClosed(h: Hasher, cb: Callback, uses: set<Use>, db: Blobs)
  {
    forall r :: r in uses && !r.kind.Raw? && r.hash in db ==> Kids(h, cb, r.hash, db[r.hash]) <= db.Keys
  }

  /** Every entry has in the database whatever anybody who refers to it expects. */
  ghost predicate UseClosed(h: Hasher, cb: Callback, uses: set<Use>, db: Blobs)
  {
    forall r :: r in uses && r.hash in db ==> NeededAs(h, cb, r.kind, r.hash, db[r.hash]) <= db.Keys
  }

  /** Nothing is referred to both as raw data and as a node. */
  ghost predicate RawApart(uses: set<Use>)
  {
    forall r, s :: r in uses && s in uses && r.kind.Raw? && !s.kind.Raw? ==> r.hash != s.hash
  }

  /** Everything is referred to in one way only. */
  ghost predicate OneKind(uses: set<Use>)
  {
    forall r, s :: r in uses && s in uses && r.hash == s.hash ==> r.kind == s.kind
  }

  /**
   The database is closed under the children of everything referred to as a node exactly
   if it has the children of those such entries that were first asked for as raw data,
   or whose callback failed.
   */
  lemma NodeClosedExactly(h: Hasher, cb: Callback, b: Book, uses: set<Use>, failed: set<Hash>)
    requires Closed(h, cb, b.kinds, b.db) && Noted(h, cb, b, uses, failed)
    ensures NodeClosed(h, cb, uses, b.db) <==>
            forall r :: r in uses && !r.kind.Raw? && r.hash in b.db
                        && (KindAt(b.kinds, r.hash).Raw? || KindAt(b.kinds, r.hash).Cut?) ==>
                          Kids(h, cb, r.hash, b.db[r.hash]) <= b.db.Keys
  {
    hide NeededAs;
    forall r | r in uses && !r.kind.Raw? && r.hash in b.db && !KindAt(b.kinds, r.hash).Raw? && !KindAt(b.kinds, r.hash).Cut?
      ensures Kids(h, cb, r.hash, b.db[r.hash]) <= b.db.Keys
    {
      KidsServed(h, cb, KindAt(b.kinds, r.hash), r.hash, b.db[r.hash]);
    }
  }

  lemma KidsServed(h: Hasher, cb: Callback, kind: Kind, x: Hash, data: seq<byte>)
    requires !kind.Raw? && !kind.Cut?
    ensures Kids(h, cb, x, data) <= NeededAs(h, cb, kind, x, data)
  {
    hide DecodeNode, KidHashes, SubHashes, ZeroHash;
  }

  /** What callers have to see to: no failing callback, and nothing announced raw that is also a node. */
  lemma NodeClosedWhen(h: Hasher, cb: Callback, b: Book, uses: set<Use>)
    requires Closed(h, cb, b.kinds, b.db) && Noted(h, cb, b, uses, {})
    ensures RawApart(uses) ==> NodeClosed(h, cb, uses, b.db)
    ensures OneKind(uses) ==> UseClosed(h, cb, uses, b.db)
  {
    hide NeededAs, UsesMade;
    NodeClosedExactly(h, cb, b, uses, {});
    forall r | r in uses && r.hash in b.db
      ensures Use(r.hash, KindAt(b.kinds, r.hash)) in uses && !KindAt(b.kinds, r.hash).Cut?
    {
      assert Present(b, r.hash, b.db[r.hash]);
    }
    if RawApart(uses) {
      forall r | r in uses && !r.kind.Raw? && r.hash in b.db ensures !KindAt(b.kinds, r.hash).Raw? {
        assert Use(r.hash, KindAt(b.kinds, r.hash)) in uses;
      }
    }
    if OneKind(uses) {
      forall r | r in uses && r.hash in b.db ensures NeededAs(h, cb, r.kind, r.hash, b.db[r.hash]) <= b.db.Keys {
        assert Use(r.hash, KindAt(b.kinds, r.hash)) in uses;
        assert Needed(h, cb, b.kinds, r.hash, b.db[r.hash]) <= b.db.Keys;
      }
    }
  }

  lemma EmptyNoted(h: Hasher, cb: Callback)
    ensures Closed(h, cb, map[], map[]) && Noted(h, cb, Book(map[], map[], [], map[], [], map[]), {}, {})
  {
    hide UsesMade, NeededAs;
  }

  // ----- asking for more -----

  /** Requests are added, for the given references. */
  ghost predicate Asks(b: Book, c: Book, made: set<Use>)
  {
    && c.db == b.db && c.batch == b.batch && b.kinds.Keys <= c.kinds.Keys
    && (forall q :: q in b.requests ==> q in c.requests && c.requests[q].data == b.requests[q].data)
    && (forall q :: q in c.requests && q !in b.requests ==> c.requests[q].data.None?)
    && (forall q :: q in c.kinds ==> (q in b.kinds && c.kinds[q] == b.kinds[q]) || Fresh(b, Use(q, c.kinds[q]), made))
  }

  /** The reference is among those made, and the hash was neither stored as a node nor requested. */
  ghost predicate Fresh(b: Book, r: Use, made: set<Use>)
  {
    r in made && Absent(b, r.hash) && r.hash !in b.requests && !r.kind.Cut?
  }

  lemma AsksSelf(b: Book, made: set<Use>)
    ensures Asks(b, b, made)
  {
    hide Absent;
  }

  lemma AsksTwice(a: Book, b: Book, c: Book, made: set<Use>)
    requires Asks(a, b, made) && Asks(b, c, made)
    ensures Asks(a, c, made)
  {
    hide Absent;
    forall q | q in c.kinds ensures (q in a.kinds && c.kinds[q] == a.kinds[q]) || Fresh(a, Use(q, c.kinds[q]), made) {
      if Fresh(b, Use(q, c.kinds[q]), made) { AbsentSame(b, a, q); }
    }
  }

  lemma AsksOne(b: Book, k: Hash, r: Request, made: set<Use>)
    requires r.data.None? && !r.cut && Absent(b, k) && Use(k, KindOf(r)) in made
    ensures Asks(b, Schedule(b, k, r), made)
  {
    hide Absent;
  }

  lemma AsksRaised(b: Book, x: Hash, n: nat, made: set<Use>)
    requires x in b.requests
    ensures Asks(b, Raised(b, x, n), made)
  {
    hide Absent;
  }

  lemma AsksSub(h: Hasher, b: Book, s: Sub, x: Hash, made: set<Use>)
    requires x in b.requests && (!Trivial(h, s) ==> Use(s.hash, if s.raw then Raw else Plain) in made)
    ensures Asks(b, AddedSub(h, b, s, x), made)
  {
    hide Asks, Schedule, Raised, ZeroHash, DecodeNode, Trivial;
    AsksSelf(b, made);
    if AddedSub(h, b, s, x) != b {
      AsksRaised(b, x, 1, made);
      RaisedIs(b, x, 1);
      if x == ZeroHash() {
        AsksOne(b, s.hash, Request(None, s.raw, [], s.depth, 0, false, false), made);
      } else {
        var mid := Raised(b, x, 1);
        AsksOne(mid, s.hash, Request(None, s.raw, [x], s.depth, 0, false, false), made);
        AsksTwice(b, mid, AddedSub(h, b, s, x), made);
      }
    }
  }

  lemma {:induction false} AsksSubs(h: Hasher, b: Book, subs: seq<Sub>, x: Hash, made: set<Use>)
    requires x in b.requests &&
             forall s :: s in subs && !Trivial(h, s) ==> Use(s.hash, if s.raw then Raw else Plain) in made
    ensures Asks(b, Announced(h, b, subs, x), made)
    decreases |subs|
  {
    hide Asks, AddedSub, Trivial;
    if subs == [] {
      AsksSelf(b, made);
    } else {
      var rest, s := subs[..|subs| - 1], subs[|subs| - 1];
      assert s in subs && forall q :: q in rest ==> q in subs;
      AsksSubs(h, b, rest, x, made);
      AsksSub(h, Announced(h, b, rest, x), s, x, made);
      AsksTwice(b, Announced(h, b, rest, x), Announced(h, b, subs, x), made);
    }
  }

  lemma AsksOpened(h: Hasher, cb: Callback, b: Book, x: Hash, n: Node)
    requires x in b.requests && |Leaf(n)| <= 1
    ensures Asks(b, Opened(h, cb, b, x, Leaf(n)), UsesBy(h, cb, b.requests[x].callback, n))
  {
    hide Asks, Announced, Leaf, Trivial, HashesIn, ChildNodes;
    var made := UsesBy(h, cb, b.requests[x].callback, n);
    AsksSelf(b, made);
    if b.requests[x].callback && Leaf(n) != [] {
      OneLeaf(cb, Leaf(n));
      AsksSubs(h, b, cb(Leaf(n)[0]).subs, x, made);
    }
  }

  lemma OneLeaf(cb: Callback, leaf: seq<seq<byte>>)
    requires |leaf| == 1
    ensures SubsOf(cb, leaf) == cb(leaf[0]).subs
  {
    assert leaf[1..] == [];
  }

  ghost predicate Gathered(b: Book, cs: seq<Node>, tasks: seq<Task>)
  {
    forall t :: t in tasks ==> t.hash in HashesIn(cs) && t.hash !in Have(b)
  }

  lemma {:induction false} GatherIn(b: Book, cs: seq<Node>, depth: nat)
    ensures Gathered(b, cs, Gather(b, cs, depth))
  {
    hide HashesIn;
    if cs != [] {
      var rest, c := cs[..|cs| - 1], cs[|cs| - 1];
      GatherIn(b, rest, depth);
      HashesSnoc(rest, c);
      assert cs == rest + [c];
    }
  }

  lemma {:induction false} AsksSpread(b: Book, x: Hash, tasks: seq<Task>, callback: bool, made: set<Use>)
    requires forall t :: t in tasks ==> t.hash !in Have(b) && Use(t.hash, if callback then Calling else Plain) in made
    ensures Asks(b, Spread(b, x, tasks, callback), made)
    decreases |tasks|
  {
    hide Asks, Have, Expected;
    if tasks == [] {
      AsksSelf(b, made);
    } else {
      var rest, t := tasks[..|tasks| - 1], tasks[|tasks| - 1];
      assert t in tasks && forall q :: q in rest ==> q in tasks;
      AsksSpread(b, x, rest, callback, made);
      var m := Spread(b, x, rest, callback);
      AsksHave(b, m, made);
      AsksExpected(m, x, t, callback, made);
      AsksTwice(b, m, Spread(b, x, tasks, callback), made);
    }
  }

  lemma AsksHave(b: Book, c: Book, made: set<Use>)
    requires Asks(b, c, made)
    ensures Have(c) == Have(b)
  {
    hide Fresh;
  }

  lemma AsksExpected(b: Book, x: Hash, t: Task, callback: bool, made: set<Use>)
    requires t.hash !in Have(b) && Use(t.hash, if callback then Calling else Plain) in made
    ensures Asks(b, Expected(b, x, t, callback), made)
  {
    hide Asks, Schedule, Absent;
    NotThere(b, t.hash);
    AsksOne(b, t.hash, Request(None, false, [x], t.depth, 0, callback, false), made);
  }

  lemma AsksBranched(h: Hasher, cb: Callback, b: Book, x: Hash, n: Node, depth: nat)
    requires x in b.requests
    ensures Asks(b, Branched(b, x, Gather(b, ChildNodes(n), depth)), UsesBy(h, cb, b.requests[x].callback, n))
  {
    hide Asks, Gather, Raised, Spread, Have, HashesIn, ChildNodes, Leaf, Trivial, SubsOf;
    var made, tasks := UsesBy(h, cb, b.requests[x].callback, n), Gather(b, ChildNodes(n), depth);
    GatherIn(b, ChildNodes(n), depth);
    AsksRaised(b, x, |tasks|, made);
    AsksHave(b, Raised(b, x, |tasks|), made);
    AsksSpread(Raised(b, x, |tasks|), x, tasks, b.requests[x].callback, made);
    AsksTwice(b, Raised(b, x, |tasks|), Branched(b, x, tasks), made);
  }

  // ----- one result -----

  /** Everything that was ever asked for. */
  ghost function AskedFor(b: Book): set<Hash> { Have(b) + b.requests.Keys }

  /** No data is lost or added, and nothing asked for is forgotten. */
  ghost predicate Kept(b: Book, c: Book)
  {
    c.db == b.db && (forall x, data :: Holds(c, x, data) <==> Holds(b, x, data)) && AskedFor(b) <= AskedFor(c)
  }

  lemma KeptTwice(a: Book, b: Book, c: Book)
    requires Kept(a, b) && Kept(b, c)
    ensures Kept(a, c)
  {
    hide Holds, AskedFor;
  }

  lemma AsksKept(b: Book, c: Book, made: set<Use>)
    requires Asks(b, c, made)
    ensures Kept(b, c)
  {
    hide Fresh;
  }

  lemma DrainedKept(b: Book, c: Book)
    requires Drained(b, c) && forall q :: q in c.requests ==> q !in c.batch
    ensures Kept(b, c)
  {
    forall x, data | Holds(c, x, data) ensures Holds(b, x, data) {
      if x in c.batch && x !in b.batch { assert x in b.requests; }
    }
  }

  lemma CutKept(b: Book, x: Hash)
    requires x in b.requests
    ensures Kept(b, CutOff(b, x))
  {
  }

  /** The data of one request has arrived. */
  ghost predicate Arrived(b: Book, c: Book, x: Hash, d: seq<byte>)
  {
    && c.db == b.db && AskedFor(b) <= AskedFor(c)
    && forall y, data :: Holds(c, y, data) <==> Holds(b, y, data) || (y == x && data == d)
  }

  lemma FilledArrived(b: Book, x: Hash, d: seq<byte>)
    requires x in b.requests && b.requests[x].data.None?
    ensures Arrived(b, Filled(b, x, d), x, d)
  {
  }

  lemma ArrivedKept(b: Book, m: Book, c: Book, x: Hash, d: seq<byte>)
    requires Arrived(b, m, x, d) && Kept(m, c)
    ensures Arrived(b, c, x, d)
  {
    hide Holds, AskedFor;
  }

  /** A decoded node has at most one value. */
  lemma LeafOne(x: Hash, data: seq<byte>, n: Node)
    requires DecodeNode(Some(x), data, 0) == Ok(n)
    ensures |Leaf(n)| <= 1
  {
    hide DecodeNode, ChildNodes;
    if Leaf(n) != [] {
      var i := SomeValue(ChildNodes(n));
      OneValue(Some(x), data, 0, i);
    }
  }

  lemma {:induction false} SomeValue(ns: seq<Node>) returns (i: nat)
    requires ValuesIn(ns) != []
    ensures i < |ns| && ns[i].Value?
  {
    if ns[0].Value? { return 0; }
    i := SomeValue(ns[1..]);
    i := i + 1;
  }

  ghost predicate Taken(o: Outcome) { o.Stored? || o.Waiting? || o.CallbackFailed? }

  /** The references a result makes, if it is taken. */
  ghost function UsesOf(h: Hasher, cb: Callback, b: Book, x: Hash, data: seq<byte>): set<Use>
  {
    if x in b.requests then UsesMade(h, cb, KindOf(b.requests[x]), x, data) else {}
  }

  lemma UsesOfNode(h: Hasher, cb: Callback, b: Book, x: Hash, data: seq<byte>, n: Node)
    requires x in b.requests && !b.requests[x].raw && !b.requests[x].cut && DecodeNode(Some(x), data, 0) == Ok(n)
    ensures UsesOf(h, cb, b, x, data) == UsesBy(h, cb, b.requests[x].callback, n)
  {
    hide DecodeNode, UsesBy;
  }

  /** What a node does to the state, apart from the cascade of commits. */
  lemma UnfoldedAsks(h: Hasher, cb: Callback, b: Book, x: Hash, data: seq<byte>, n: Node)
    requires x in b.requests && DecodeNode(Some(x), data, 0) == Ok(n)
    ensures var m := Opened(h, cb, b, x, Leaf(n));
            var made := UsesBy(h, cb, b.requests[x].callback, n);
            Asks(b, m, made) && Asks(b, Branched(m, x, Gather(b, ChildNodes(n), KidDepth(b.requests[x], n))), made)
  {
    hide *;
    var m := Opened(h, cb, b, x, Leaf(n));
    var made := UsesBy(h, cb, b.requests[x].callback, n);
    var depth := KidDepth(b.requests[x], n);
    LeafOne(x, data, n);
    AsksOpened(h, cb, b, x, n);
    AsksParts(b, m, made);
    OpenedCallback(h, cb, b, x, Leaf(n));
    GatherSame(b, m, ChildNodes(n), depth);
    AsksBranched(h, cb, m, x, n, depth);
    AsksTwice(b, m, Branched(m, x, Gather(m, ChildNodes(n), depth)), made);
  }

  lemma AsksParts(b: Book, c: Book, made: set<Use>)
    requires Asks(b, c, made)
    ensures c.db == b.db && c.batch == b.batch
  {
    hide Fresh;
  }

  lemma OpenedCallback(h: Hasher, cb: Callback, b: Book, x: Hash, leaf: seq<seq<byte>>)
    requires x in b.requests
    ensures Opened(h, cb, b, x, leaf).requests[x].callback == b.requests[x].callback
  {
    hide Announced;
    if b.requests[x].callback && leaf != [] { AnnouncedCallback(h, b, cb(leaf[0]).subs, x); }
  }

  lemma {:induction false} AnnouncedCallback(h: Hasher, b: Book, subs: seq<Sub>, x: Hash)
    requires x in b.requests
    ensures Announced(h, b, subs, x).requests[x].callback == b.requests[x].callback
  {
    hide AddedSub;
    if subs != [] {
      AnnouncedCallback(h, b, subs[..|subs| - 1], x);
      AddedCallback(h, Announced(h, b, subs[..|subs| - 1], x), subs[|subs| - 1], x);
    }
  }

  lemma AddedCallback(h: Hasher, b: Book, s: Sub, x: Hash)
    requires x in b.requests
    ensures AddedSub(h, b, s, x).requests[x].callback == b.requests[x].callback
  {
    hide DecodeNode, Trivial, ZeroHash, Schedule, WithSub;
    WithSubIs(b, s, x);
    RaisedIs(b, x, 1);
    ScheduleCallback(b, x, s.hash, Request(None, s.raw, [], s.depth, 0, false, false));
    ScheduleCallback(Raised(b, x, 1), x, s.hash, Request(None, s.raw, [x], s.depth, 0, false, false));
  }

  lemma ScheduleCallback(b: Book, x: Hash, k: Hash, r: Request)
    requires x in b.requests
    ensures x in Schedule(b, k, r).requests && Schedule(b, k, r).requests[x].callback == b.requests[x].callback
  {
  }

  ghost predicate Apart(c: Book) { forall q :: q in c.requests ==> q !in c.batch }

  /** One result: its data is there, and nothing else is lost, added or forgotten. */
  lemma ProcessedArrived(h: Hasher, cb: Callback, b: Book, x: Hash, data: seq<byte>, c: Book, o: Outcome)
    requires Processed(h, cb, b, x, data, c, o) && Apart(c)
    ensures Taken(o) ==> x in b.requests && b.requests[x].data.None? && Arrived(b, c, x, data)
    ensures !Taken(o) ==> c == b
  {
    hide *;
    ProcessedCases(h, cb, b, x, data, c, o);
    if Taken(o) {
      var m := Filled(b, x, data);
      FilledArrived(b, x, data);
      FilledHas(b, x, data);
      if b.requests[x].raw {
        ApartDrained(m, c);
      } else {
        var n := DecodeNode(Some(x), data, 0).value;
        UnfoldedKept(h, cb, m, x, data, n, c, o);
      }
      ArrivedKept(b, m, c, x, data);
    }
  }

  lemma FilledHas(b: Book, x: Hash, data: seq<byte>)
    requires x in b.requests
    ensures x in Filled(b, x, data).requests && Filled(b, x, data).requests[x] == b.requests[x].(data := Some(data))
    ensures Filled(b, x, data).kinds == b.kinds && Filled(b, x, data).db == b.db
  {
  }

  lemma ApartDrained(b: Book, c: Book)
    requires Drained(b, c) && Apart(c)
    ensures Kept(b, c)
  {
    hide Kept, Drained;
    DrainedKept(b, c);
  }

  lemma ProcessedCases(h: Hasher, cb: Callback, b: Book, x: Hash, data: seq<byte>, c: Book, o: Outcome)
    requires Processed(h, cb, b, x, data, c, o)
    ensures !Taken(o) ==> c == b
    ensures Taken(o) ==>
              && x in b.requests && b.requests[x].data.None?
              && (if b.requests[x].raw then o == Stored && Drained(Filled(b, x, data), c)
                  else
                    && DecodeNode(Some(x), data, 0).Ok?
                    && Unfolded(h, cb, Filled(b, x, data), x, DecodeNode(Some(x), data, 0).value, c, o))
  {
    hide Unfolded, DecodeNode, Drained, Filled;
    if x in b.requests && b.requests[x].data.None? && !b.requests[x].raw && DecodeNode(Some(x), data, 0).Ok? {
      FilledHas(b, x, data);
      UnfoldedTaken(h, cb, Filled(b, x, data), x, DecodeNode(Some(x), data, 0).value, c, o);
    }
  }

  lemma UnfoldedTaken(h: Hasher, cb: Callback, b: Book, x: Hash, n: Node, c: Book, o: Outcome)
    requires x in b.requests && Unfolded(h, cb, b, x, n, c, o)
    ensures Taken(o)
  {
    hide Opened, Gather, Branched, CutOff, Drained, Fails, Leaf;
  }

  lemma UnfoldedKept(h: Hasher, cb: Callback, b: Book, x: Hash, data: seq<byte>, n: Node, c: Book, o: Outcome)
    requires x in b.requests && DecodeNode(Some(x), data, 0) == Ok(n) && Unfolded(h, cb, b, x, n, c, o) && Apart(c)
    ensures Kept(b, c)
  {
    hide Asks, Opened, Gather, Branched, DecodeNode, Kept, Drained, Apart, Leaf, Fails, UsesBy, CutOff;
    var m := Opened(h, cb, b, x, Leaf(n));
    var made := UsesBy(h, cb, b.requests[x].callback, n);
    UnfoldedAsks(h, cb, b, x, data, n);
    AsksKept(b, m, made);
    if o == CallbackFailed {
      CutKept(m, x);
      KeptTwice(b, m, c);
    } else if o == Stored {
      ApartDrained(m, c);
      KeptTwice(b, m, c);
    } else {
      AsksKept(b, c, made);
    }
  }

  // ----- references stay noted -----

  lemma NotedFilled(h: Hasher, cb: Callback, b: Book, uses: set<Use>, failed: set<Hash>, x: Hash, data: seq<byte>)
    requires Noted(h, cb, b, uses, failed) && x in b.requests && b.requests[x].data.None?
    requires x in b.kinds && b.kinds[x] == KindOf(b.requests[x])
    ensures Noted(h, cb, Filled(b, x, data), uses + UsesOf(h, cb, b, x, data), failed)
  {
    hide UsesMade;
    var c := Filled(b, x, data);
    forall y, d | Present(c, y, d)
      ensures y in c.kinds && UsesMade(h, cb, c.kinds[y], y, d) <= uses + UsesOf(h, cb, b, x, data)
    {
      if Present(b, y, d) {
      } else {
        assert y == x && d == data;
      }
    }
  }

  lemma NotedAsks(h: Hasher, cb: Callback, b: Book, c: Book, uses: set<Use>, failed: set<Hash>, made: set<Use>)
    requires Noted(h, cb, b, uses, failed) && Asks(b, c, made) && made <= uses
    ensures Noted(h, cb, c, uses, failed)
  {
    hide UsesMade, Present, Kept, Absent;
    AsksKept(b, c, made);
    forall y, d | Present(c, y, d) ensures y in c.kinds && UsesMade(h, cb, c.kinds[y], y, d) <= uses {
      KeptPresent(b, c, y, d);
      if c.kinds[y] != b.kinds[y] { FreshNothing(h, cb, b, Use(y, c.kinds[y]), made, d); }
    }
  }

  lemma KeptPresent(b: Book, c: Book, y: Hash, d: seq<byte>)
    requires Kept(b, c) && Present(c, y, d)
    ensures Present(b, y, d)
  {
    hide Holds, AskedFor;
  }

  /** What is asked for afresh is at most undecodable in the database. */
  lemma FreshNothing(h: Hasher, cb: Callback, b: Book, r: Use, made: set<Use>, d: seq<byte>)
    requires Fresh(b, r, made) && Present(b, r.hash, d)
    ensures UsesMade(h, cb, r.kind, r.hash, d) == {}
  {
    hide DecodeNode, UsesBy;
  }

  lemma NotedDrained(h: Hasher, cb: Callback, b: Book, c: Book, uses: set<Use>, failed: set<Hash>)
    requires Noted(h, cb, b, uses, failed) && Drained(b, c) && Apart(c)
    ensures Noted(h, cb, c, uses, failed)
  {
    hide UsesMade, Present, Kept;
    ApartDrained(b, c);
    forall y, d | Present(c, y, d) ensures y in c.kinds && UsesMade(h, cb, c.kinds[y], y, d) <= uses {
      KeptPresent(b, c, y, d);
    }
  }

  lemma NotedCut(h: Hasher, cb: Callback, b: Book, x: Hash, uses: set<Use>, failed: set<Hash>)
    requires Noted(h, cb, b, uses, failed) && x in b.requests && x in b.kinds && b.kinds[x].Calling?
    ensures Noted(h, cb, CutOff(b, x), uses, failed + {x})
  {
    hide UsesMade, Present, Kept;
    var c := CutOff(b, x);
    CutKept(b, x);
    forall y, d | Present(c, y, d) ensures y in c.kinds && UsesMade(h, cb, c.kinds[y], y, d) <= uses {
      KeptPresent(b, c, y, d);
      SameUses(h, cb, y, d);
    }
  }

  lemma SameUses(h: Hasher, cb: Callback, x: Hash, data: seq<byte>)
    ensures UsesMade(h, cb, Cut, x, data) == UsesMade(h, cb, Calling, x, data)
  {
    hide DecodeNode, UsesBy;
  }

  /** After one result all references are noted, with those that it makes. */
  lemma ProcessedNoted(h: Hasher, cb: Callback, b: Book, uses: set<Use>, failed: set<Hash>, x: Hash, data: seq<byte>,
                       c: Book, o: Outcome)
    requires Noted(h, cb, b, uses, failed) && Processed(h, cb, b, x, data, c, o) && Apart(c)
    requires x in b.requests ==> x in b.kinds && b.kinds[x] == KindOf(b.requests[x])
    requires x in b.requests && b.requests[x].data.None? ==> !b.requests[x].cut
    ensures Noted(h, cb, c, if Taken(o) then uses + UsesOf(h, cb, b, x, data) else uses,
                  if o.CallbackFailed? then failed + {x} else failed)
  {
    hide *;
    ProcessedCases(h, cb, b, x, data, c, o);
    TakenIs(o);
    if Taken(o) {
      var m, more := Filled(b, x, data), uses + UsesOf(h, cb, b, x, data);
      NotedFilled(h, cb, b, uses, failed, x, data);
      FilledHas(b, x, data);
      if b.requests[x].raw {
        NotedDrained(h, cb, m, c, more, failed);
      } else {
        var n := DecodeNode(Some(x), data, 0).value;
        UsesOfNode(h, cb, b, x, data, n);
        KindIs(b.requests[x]);
        UnfoldedNoted(h, cb, m, x, data, n, c, o, more, failed);
      }
    }
  }

  lemma TakenIs(o: Outcome)
    ensures Taken(o) <==> o.Stored? || o.Waiting? || o.CallbackFailed?
  {
  }

  lemma UnfoldedNoted(h: Hasher, cb: Callback, b: Book, x: Hash, data: seq<byte>, n: Node, c: Book, o: Outcome,
                      uses: set<Use>, failed: set<Hash>)
    requires Noted(h, cb, b, uses, failed) && x in b.requests && DecodeNode(Some(x), data, 0) == Ok(n)
    requires Unfolded(h, cb, b, x, n, c, o) && Apart(c) && UsesBy(h, cb, b.requests[x].callback, n) <= uses
    requires x in b.kinds && b.kinds[x] == if b.requests[x].callback then Calling else Plain
    ensures Noted(h, cb, c, uses, if o.CallbackFailed? then failed + {x} else failed)
  {
    hide Asks, Opened, Gather, Branched, DecodeNode, Noted, Drained, Apart, Leaf, UsesBy, CutOff;
    var m := Opened(h, cb, b, x, Leaf(n));
    var made := UsesBy(h, cb, b.requests[x].callback, n);
    UnfoldedAsks(h, cb, b, x, data, n);
    NotedAsks(h, cb, b, m, uses, failed, made);
    if o == CallbackFailed {
      PendingKind(b, m, x, made);
      NotedCut(h, cb, m, x, uses, failed);
    } else if o == Stored {
      NotedDrained(h, cb, m, c, uses, failed);
    } else {
      NotedAsks(h, cb, b, c, uses, failed, made);
    }
  }

  /** The kind of a pending request does not change while others are asked for. */
  lemma PendingKind(b: Book, c: Book, x: Hash, made: set<Use>)
    requires Asks(b, c, made) && x in b.requests && x in b.kinds
    ensures x in c.kinds && c.kinds[x] == b.kinds[x]
  {
    hide Absent;
  }

  // ----- other operations -----

  /** Another reference, whether it leads to a request or not. */
  lemma NotedMore(h: Hasher, cb: Callback, b: Book, uses: set<Use>, more: set<Use>, failed: set<Hash>)
    requires Noted(h, cb, b, uses, failed) && uses <= more
    ensures Noted(h, cb, b, more, failed)
  {
    hide UsesMade, Present;
  }

  lemma NotedRoot(h: Hasher, cb: Callback, b: Book, uses: set<Use>, failed: set<Hash>, root: Hash, r: Request)
    requires Noted(h, cb, b, uses, failed) && Absent(b, root) && r.data.None? && !r.cut
    ensures Noted(h, cb, Schedule(b, root, r), uses + {Use(root, KindOf(r))}, failed)
  {
    hide *;
    var more := uses + {Use(root, KindOf(r))};
    AsksOne(b, root, r, more);
    NotedMore(h, cb, b, uses, more, failed);
    NotedAsks(h, cb, b, Schedule(b, root, r), more, failed, more);
  }

  /** Handing out and writing change nothing about references. */
  lemma NotedSame(h: Hasher, cb: Callback, b: Book, c: Book, uses: set<Use>, failed: set<Hash>)
    requires Noted(h, cb, b, uses, failed) && c.kinds == b.kinds &&
             forall x, data :: Present(c, x, data) ==> Present(b, x, data)
    ensures Noted(h, cb, c, uses, failed)
  {
    hide UsesMade, Present;
  }
}
