/**
 Three runs of a sync (trie/sync.go) that show why the conditions on a whole run are
 there: a hash asked for as raw data before it is asked for as a node, a callback that
 fails after it has announced something, and data that refers to its own hash.
 */
module SyncCases {
  import opened Bytes
  import opened TrieTree
  import opened TrieNode
  import opened Cycles
  import opened SyncBook
  import opened SyncSteps
  import opened SyncRound
  import opened SyncUses
  import opened TrieSync
  import opened SyncComplete
  import opened SyncWhole

  /** The state of a sync into an empty database. */
  function Young(requests: Requests, queue: seq<Task>, kinds: Kinds): Book
  {
    Book(map[], map[], [], requests, queue, kinds)
  }

  function Asking(callback: bool): Request { Request(None, false, [], 0, 0, callback, false) }

  /** The root has been asked for and handed out. */
  method Begin(h: Hasher, cb: Callback, root: Hash, callback: bool) returns (s: Sync)
    requires root != h([0x80])
    ensures fresh(s) && s.Valid() && s.h == h && s.cb == cb
    ensures s.book == Young(map[root := Asking(callback)], [], map[root := KindOf(Asking(callback))])
    ensures s.out == {root} && s.failed == {} && s.stuck == {} && s.uses == {Use(root, KindOf(Asking(callback)))}
  {
    hide *;
    EmptyNoted(h, cb);
    s := new Sync(h, cb, map[], map[], root, callback, {});
    FirstAsked(root, callback);
    HandOver(s, root, 0);
  }

  lemma FirstAsked(root: Hash, callback: bool)
    ensures Schedule(Book(map[], map[], [], map[], [], map[]), root, Request(None, false, [], 0, 0, callback, false)) ==
            Young(map[root := Asking(callback)], [Task(root, 0)], map[root := KindOf(Asking(callback))])
    ensures Young(map[root := Asking(callback)], [Task(root, 0)],
                  map[root := KindOf(Asking(callback))]).(queue := []) ==
            Young(map[root := Asking(callback)], [], map[root := KindOf(Asking(callback))])
    ensures Young(map[root := Asking(callback)], [Task(root, 0)], map[root := KindOf(Asking(callback))]).queue ==
            [Task(root, 0)]
    ensures KindOf(Asking(callback)) == if callback then Calling else Plain
  {
  }

  /** Missing on a queue of one. */
  method HandOver(s: Sync, x: Hash, depth: nat)
    requires s.Valid() && s.book.queue == [Task(x, depth)]
    modifies s
    ensures s.Valid() && s.book == old(s.book).(queue := []) && s.out == old(s.out) + {x}
    ensures s.failed == old(s.failed) && s.stuck == old(s.stuck) && s.uses == old(s.uses)
  {
    hide *;
    var hashes, tasks := s.Missing(0);
    OneHanded(Task(x, depth), tasks, hashes);
  }

  lemma OneHanded(t: Task, tasks: seq<Task>, hashes: seq<Hash>)
    requires Handed([t], tasks, [], hashes)
    ensures Elems(hashes) == {t.hash}
  {
    assert |multiset([t])| == 1 && multiset([t]) == multiset(tasks);
    assert |tasks| == |multiset(tasks)| == 1;
    assert tasks[0] in multiset(tasks);
    assert hashes == [t.hash];
  }

  /** The last calls: what is left waits for nothing, so that nothing is left, and all is written. */
  method Finish(s: Sync, r: Hash)
    requires s.Valid() && s.out == {} && s.stuck == {} && s.book.queue == []
    requires AtMost(s.book.requests, r)
    modifies s`book
    ensures s.Valid() && old(s.book).requests == map[] && s.book.requests == map[] && s.book.batch == map[] &&
            s.book.queue == []
    ensures Have(s.book) == Have(old(s.book)) &&
            forall x, data :: Present(s.book, x, data) ==> Present(old(s.book), x, data)
  {
    hide *;
    NothingPending(s);
    NoWaiting(s.book.requests, r);
    var written, ok := s.Commit(|s.book.order|);
  }

  /** Only r is pending, if anything, and nobody waits for it. */
  ghost predicate AtMost(rs: Requests, r: Hash) { forall q :: q in rs ==> q == r && rs[q].parents == [] }

  lemma NoWaiting(rs: Requests, r: Hash)
    requires AtMost(rs, r)
    ensures !HasCycle(WaitGraph(rs))
  {
    hide HasCycle;
    Downhill(WaitGraph(rs), x => 0);
  }

  // ----- asked for as raw data first -----

  /** Leaves that refer to x as raw data, and are then good or bad. */
  function RawTo(x: Hash, ok: bool): Callback { (v: seq<byte>) => Answer([Sub(x, true, 0)], ok) }

  /** The root waits for x twice, and x is asked for as raw data. */
  function AwaitingRaw(r: Hash, data: seq<byte>, x: Hash): Book
  {
    Young(map[r := Request(Some(data), false, [], 0, 2, true, false), x := Request(None, true, [r, r], 0, 0, false, false)],
          [Task(x, 0)], map[r := Calling, x := Raw])
  }

  function Filling(r: Hash, data: seq<byte>): Book
  {
    Young(map[r := Request(Some(data), false, [], 0, 0, true, false)], [], map[r := Calling])
  }

  function AwaitingOnce(r: Hash, data: seq<byte>, x: Hash): Book
  {
    Young(map[r := Request(Some(data), false, [], 0, 1, true, false), x := Request(None, true, [r], 0, 0, false, false)],
          [Task(x, 0)], map[r := Calling, x := Raw])
  }

  lemma FirstFilled(r: Hash, data: seq<byte>)
    ensures Filled(Young(map[r := Asking(true)], [], map[r := Calling]), r, data) == Filling(r, data)
  {
  }

  lemma WithSubNow(b: Book, s: Sub, r: Hash)
    requires r in b.requests && r != ZeroHash()
    ensures WithSub(b, s, r) == Schedule(Raised(b, r, 1), s.hash, Request(None, s.raw, [r], s.depth, 0, false, false))
  {
    hide ZeroHash, Schedule;
  }

  lemma FirstNow(r: Hash, data: seq<byte>, x: Hash)
    requires r != x
    ensures Schedule(Raised(Filling(r, data), r, 1), x, Request(None, true, [r], 0, 0, false, false)) ==
            AwaitingOnce(r, data, x)
  {
    assert Raised(Filling(r, data), r, 1).requests == map[r := Request(Some(data), false, [], 0, 1, true, false)];
  }

  /** The announcement makes a request. */
  lemma FirstSub(h: Hasher, r: Hash, data: seq<byte>, x: Hash)
    requires r != x && r != ZeroHash() && x != h([])
    ensures AddedSub(h, Filling(r, data), Sub(x, true, 0), r) == AwaitingOnce(r, data, x)
  {
    hide ZeroHash, DecodeNode, WithSub, Schedule;
    var b, s := Filling(r, data), Sub(x, true, 0);
    WithSubNow(b, s, r);
    assert AddedSub(h, b, s, r) == WithSub(b, s, r);
    FirstNow(r, data, x);
  }

  lemma OneCall(h: Hasher, b: Book, s: Sub, r: Hash)
    requires r in b.requests
    ensures Announced(h, b, [s], r) == AddedSub(h, b, s, r)
  {
    hide AddedSub;
    assert [s][..0] == [];
  }

  lemma LeafOpened(h: Hasher, r: Hash, x: Hash, data: seq<byte>, v: seq<byte>, ok: bool)
    requires r != x && r != ZeroHash() && x != h([])
    ensures Opened(h, RawTo(x, ok), Filling(r, data), r, [v]) == AwaitingOnce(r, data, x)
  {
    hide ZeroHash, Announced, AddedSub;
    FirstSub(h, r, data, x);
    OneCall(h, Filling(r, data), Sub(x, true, 0), r);
  }

  lemma ValueNode(h: Hasher, v: seq<byte>)
    ensures RefNode(h, Val(v), 0) == Value(v)
  {
    hide NodeOf, Big, HashOf;
  }

  lemma BranchLeaf(h: Hasher, cs: seq<Tree>, v: seq<byte>, r: Hash)
    requires Norm(Branch(cs)) && Bounded(Branch(cs)) && |cs| == 17 && cs[16] == Val(v)
    ensures Leaf(NodeOf(h, Branch(cs), Some(r), 0)) == [v]
  {
    hide *;
    Decoded(h, Branch(cs), r);
    BranchNode(h, cs, r);
    ValueNode(h, v);
    var n := NodeOf(h, Branch(cs), Some(r), 0);
    OneValue(Some(r), Enc(h, Branch(cs)), 0, 16);
    LeafIs(n);
  }

  lemma BranchNode(h: Hasher, cs: seq<Tree>, r: Hash)
    requires |cs| == 17
    ensures var ns := ChildNodes(NodeOf(h, Branch(cs), Some(r), 0));
            |ns| == 17 && ns[16] == RefNode(h, cs[16], 0)
  {
    hide RefNode;
  }

  /** A root whose only child by hash is number i, with a value. */
  ghost predicate OneChild(h: Hasher, cs: seq<Tree>, i: nat, v: seq<byte>)
  {
    && Norm(Branch(cs)) && Bounded(Branch(cs)) && i < 16 && |cs| == 17 && cs[16] == Val(v)
    && Inner(cs[i]) && Big(h, cs[i]) && forall j :: 0 <= j < 17 && j != i && Inner(cs[j]) ==> !Big(h, cs[j])
  }

  lemma OneHash(h: Hasher, cs: seq<Tree>, i: nat, v: seq<byte>, r: Hash)
    requires OneChild(h, cs, i, v)
    ensures var n := NodeOf(h, Branch(cs), Some(r), 0);
            && n.Full? && ChildNodes(n) == n.children && |n.children| == 17 && n.children[i] == HashNode(HashOf(h, cs[i]))
            && forall j :: 0 <= j < 17 && j != i ==> !n.children[j].HashNode?
  {
    hide Norm, Bounded, Big, HashOf, NodeItem;
    var n := NodeOf(h, Branch(cs), Some(r), 0);
    assert n.children == RefNodes(h, cs, 0);
    forall j | 0 <= j < 17 && j != i ensures !n.children[j].HashNode? {
      assert n.children[j] == RefNode(h, cs[j], 0);
      NoHash(h, cs[j]);
    }
    assert n.children[i] == RefNode(h, cs[i], 0);
  }

  lemma NoHash(h: Hasher, c: Tree)
    requires Inner(c) ==> !Big(h, c)
    ensures !RefNode(h, c, 0).HashNode?
  {
    hide Big, HashOf;
  }

  lemma {:induction false} GatherNone(b: Book, ns: seq<Node>, depth: nat)
    requires forall j :: 0 <= j < |ns| ==> !ns[j].HashNode?
    ensures Gather(b, ns, depth) == []
  {
    if ns != [] { GatherNone(b, ns[..|ns| - 1], depth); }
  }

  lemma {:induction false} GatherOne(b: Book, ns: seq<Node>, i: nat, depth: nat)
    requires i < |ns| && ns[i].HashNode? && ns[i].hash !in b.batch && ns[i].hash !in b.db
    requires forall j :: 0 <= j < |ns| && j != i ==> !ns[j].HashNode?
    ensures Gather(b, ns, depth) == [Task(ns[i].hash, depth)]
  {
    var rest := ns[..|ns| - 1];
    if i == |ns| - 1 { GatherNone(b, rest, depth); } else { GatherOne(b, rest, i, depth); }
  }

  /** The request for the child is merged into the one for raw data. */
  lemma Merged(r: Hash, data: seq<byte>, x: Hash)
    requires r != x
    ensures Branched(AwaitingOnce(r, data, x), r, [Task(x, 1)]) == AwaitingRaw(r, data, x)
  {
    hide Expected;
    var b, t := AwaitingOnce(r, data, x), Task(x, 1);
    var m := Raised(b, r, 1);
    assert [t][..0] == [];
    assert Spread(m, r, [t], true) == Expected(Spread(m, r, [], true), r, t, true);
    MergedNow(r, data, x);
  }

  lemma MergedNow(r: Hash, data: seq<byte>, x: Hash)
    requires r != x
    ensures Expected(Raised(AwaitingOnce(r, data, x), r, 1), r, Task(x, 1), true) == AwaitingRaw(r, data, x)
  {
    var b := Raised(AwaitingOnce(r, data, x), r, 1);
    assert [r] + [r] == [r, r];
    assert Scheduled(b.requests, x, Request(None, false, [r], 1, 0, true, false)) == AwaitingRaw(r, data, x).requests;
  }

  /** What the root does: its leaf announces its child as raw data. */
  lemma RootCalls(h: Hasher, cs: seq<Tree>, i: nat, v: seq<byte>, r: Hash, x: Hash, c: Book, o: Outcome)
    requires OneChild(h, cs, i, v) && x == HashOf(h, cs[i]) && r != x && r != ZeroHash() && x != h([])
    requires Processed(h, RawTo(x, true), Young(map[r := Asking(true)], [], map[r := Calling]), r,
                       Enc(h, Branch(cs)), c, o)
    ensures o == Waiting && c == AwaitingRaw(r, Enc(h, Branch(cs)), x)
  {
    hide *;
    var data, n := Enc(h, Branch(cs)), NodeOf(h, Branch(cs), Some(r), 0);
    ChildParts(h, cs, i, v);
    Decoded(h, Branch(cs), r);
    BranchLeaf(h, cs, v, r);
    OneHash(h, cs, i, v, r);
    FirstFilled(r, data);
    FillingIs(r, data);
    AskingIs(true);
    LeafOpened(h, r, x, data, v, true);
    GatherOne(Filling(r, data), ChildNodes(n), i, 1);
    Merged(r, data, x);
    RootWaits(h, r, x, data, n, v, c, o);
  }

  lemma ChildParts(h: Hasher, cs: seq<Tree>, i: nat, v: seq<byte>)
    requires OneChild(h, cs, i, v)
    ensures Norm(Branch(cs)) && Bounded(Branch(cs)) && i < 16 && |cs| == 17 && cs[16] == Val(v)
    ensures Inner(cs[i]) && Big(h, cs[i]) && Norm(cs[i]) && Bounded(cs[i])
  {
    hide Big;
    BoundedBranch(cs, i);
  }

  lemma FillingIs(r: Hash, data: seq<byte>)
    ensures Filling(r, data).requests == map[r := Request(Some(data), false, [], 0, 0, true, false)]
    ensures Filling(r, data).batch == map[] && Filling(r, data).db == map[]
  {
  }

  lemma RootWaits(h: Hasher, r: Hash, x: Hash, data: seq<byte>, n: Node, v: seq<byte>, c: Book, o: Outcome)
    requires Processed(h, RawTo(x, true), Young(map[r := Asking(true)], [], map[r := Calling]), r, data, c, o)
    requires DecodeNode(Some(r), data, 0) == Ok(n) && Leaf(n) == [v] && n.Full?
    requires Filled(Young(map[r := Asking(true)], [], map[r := Calling]), r, data) == Filling(r, data)
    requires Opened(h, RawTo(x, true), Filling(r, data), r, [v]) == AwaitingOnce(r, data, x) && r != x
    requires Gather(Filling(r, data), ChildNodes(n), 1) == [Task(x, 1)]
    requires Branched(AwaitingOnce(r, data, x), r, [Task(x, 1)]) == AwaitingRaw(r, data, x)
    ensures o == Waiting && c == AwaitingRaw(r, data, x)
  {
    hide DecodeNode, Opened, Gather, Branched, Filled, Leaf, ChildNodes;
  }

  /** The root refers to its child as a node. */
  lemma RootUses(h: Hasher, cs: seq<Tree>, i: nat, v: seq<byte>, r: Hash, x: Hash)
    requires OneChild(h, cs, i, v) && x == HashOf(h, cs[i])
    ensures Use(x, Calling) in UsesOf(h, RawTo(x, true), Young(map[r := Asking(true)], [], map[r := Calling]), r,
                                      Enc(h, Branch(cs)))
  {
    hide Enc, Norm, Bounded, DecodeNode, NodeOf, Leaf, ChildNodes, OneChild, HashOf, HashesIn;
    var n := NodeOf(h, Branch(cs), Some(r), 0);
    ChildParts(h, cs, i, v);
    Decoded(h, Branch(cs), r);
    OneHash(h, cs, i, v, r);
    HashIn(ChildNodes(n), i);
  }

  /** Raw data arrives, and what waited for it goes to the batch. */
  lemma RawArrives(h: Hasher, cb: Callback, b: Book, x: Hash, data: seq<byte>, r: Hash, c: Book, o: Outcome)
    requires x in b.requests && b.requests[x].raw && b.requests[x].data.None? && b.queue == [] && b.batch == map[]
    requires r in b.requests && b.requests[r].parents == [] && b.requests.Keys == {r, x}
    requires Processed(h, cb, b, x, data, c, o)
    ensures o == Stored && c.queue == [] && c.batch.Keys <= {r, x} && c.db == b.db && AtMost(c.requests, r)
  {
    hide DecodeNode, Unfolded, Drained;
    DrainedLast(b, Filled(b, x, data), c, x, r);
  }

  lemma DrainedLast(b: Book, m: Book, c: Book, x: Hash, r: Hash)
    requires Drained(m, c) && x !in c.requests && m.requests.Keys == {r, x} && m.requests[r].parents == []
    requires m == b.(requests := m.requests) && b.queue == [] && b.batch == map[]
    ensures c.queue == [] && c.batch.Keys <= {r, x} && c.db == b.db && AtMost(c.requests, r)
  {
  }

  /** What has arrived is in the database at the end, and nothing else is. */
  lemma EndsThere(b: Book, c: Book, x: Hash, data: seq<byte>)
    requires Have(c) == Have(b) && c.batch == map[] && b.requests == map[] && b.db == map[] && Holds(b, x, data)
    requires forall y, d :: Present(c, y, d) ==> Present(b, y, d)
    ensures x in c.db && c.db[x] == data && c.db.Keys == b.batch.Keys
  {
    assert x in Have(c);
    assert Present(c, x, c.db[x]);
  }

  /** The last data that is missing is raw data. */
  method Supply(s: Sync, x: Hash, data: seq<byte>, r: Hash)
    requires s.Valid() && s.out == {x} && s.stuck == {} && s.book.queue == [] && s.book.batch == map[] &&
             s.book.db == map[]
    requires s.book.requests.Keys == {r, x} && s.book.requests[r].parents == []
    requires s.book.requests[x].raw && s.book.requests[x].data.None?
    modifies s
    ensures s.Valid() && s.book.queue == [] && s.out == {} && s.book.batch == map[] && s.stuck == {} &&
            s.book.requests == map[]
    ensures s.failed == old(s.failed) && old(s.uses) <= s.uses
    ensures s.book.db.Keys <= {r, x} && x in s.book.db && s.book.db[x] == data
    ensures forall d :: Holds(old(s.book), r, d) ==> r in s.book.db && s.book.db[r] == d
  {
    hide *;
    ghost var b := s.book;
    Feed(s, x, data, r);
    ghost var m := s.book;
    Finish(s, r);
    AllThere(b, m, s.book, x, data, r);
  }

  method Feed(s: Sync, x: Hash, data: seq<byte>, r: Hash)
    requires s.Valid() && s.out == {x} && s.stuck == {} && s.book.queue == [] && s.book.batch == map[] &&
             s.book.db == map[]
    requires s.book.requests.Keys == {r, x} && s.book.requests[r].parents == []
    requires s.book.requests[x].raw && s.book.requests[x].data.None?
    modifies s
    ensures s.Valid() && s.out == {} && s.stuck == {} && s.failed == old(s.failed) && old(s.uses) <= s.uses
    ensures s.book.queue == [] && s.book.db == map[] && s.book.batch.Keys <= {r, x} && AtMost(s.book.requests, r)
    ensures Arrived(old(s.book), s.book, x, data)
  {
    hide *;
    ghost var b := s.book;
    var o := s.ProcessOne(x, data);
    RawArrives(s.h, s.cb, b, x, data, r, s.book, o);
    TakenIs(o);
    ValidIs(s);
    GoodFacts(s.h, s.cb, s.book, s.out, s.stuck, x);
    ProcessedArrived(s.h, s.cb, b, x, data, s.book, o);
  }

  lemma AllThere(b: Book, m: Book, c: Book, x: Hash, data: seq<byte>, r: Hash)
    requires Arrived(b, m, x, data) && m.requests == map[] && m.db == map[] && m.batch.Keys <= {r, x}
    requires Have(c) == Have(m) && c.batch == map[] && forall y, d :: Present(c, y, d) ==> Present(m, y, d)
    ensures c.db.Keys <= {r, x} && x in c.db && c.db[x] == data
    ensures forall d :: Holds(b, r, d) ==> r in c.db && c.db[r] == d
  {
    hide *;
    ArrivedIs(b, m, x, data, x, data);
    EndsThere(m, c, x, data);
    forall d | Holds(b, r, d) ensures r in c.db && c.db[r] == d {
      ArrivedIs(b, m, x, data, r, d);
      EndsThere(m, c, r, d);
    }
  }

  /** The root refers to x as a node, and its leaf as raw data. */
  method RawRoot(h: Hasher, cs: seq<Tree>, i: nat, v: seq<byte>, r: Hash, x: Hash) returns (s: Sync)
    requires OneChild(h, cs, i, v) && x == HashOf(h, cs[i]) && x != h([])
    requires r != ZeroHash() && r != h([0x80]) && r != x
    ensures fresh(s) && s.Valid() && s.h == h && s.book == AwaitingRaw(r, Enc(h, Branch(cs)), x)
    ensures s.out == {} && s.failed == {} && s.stuck == {} && Use(x, Calling) in s.uses
  {
    hide *;
    s := Begin(h, RawTo(x, true), r, true);
    KindIs(Asking(true));
    AskingIs(true);
    var o := s.ProcessOne(r, Enc(h, Branch(cs)));
    RootCalls(h, cs, i, v, r, x, s.book, o);
    RootUses(h, cs, i, v, r, x);
    TakenIs(o);
  }

  /**
   A sync of a root with child x, whose leaf refers to x as raw data. All data is what it
   should be and nothing is left to do, but the child of x is neither in the database nor
   asked for.
   */
  method RawFirst(h: Hasher, cs: seq<Tree>, i: nat, v: seq<byte>, ghost c: Tree) returns (s: Sync)
    requires OneChild(h, cs, i, v) && IsChild(cs[i], c) && Inner(c) && Big(h, c) && HashOf(h, cs[i]) != h([])
    requires var r := HashOf(h, Branch(cs));
             r != ZeroHash() && r != h([0x80]) && r != HashOf(h, cs[i]) && HashOf(h, c) !in {r, HashOf(h, cs[i])}
    ensures fresh(s) && s.Valid() && Finished(s) && s.book.requests == map[] && i < |cs|
    ensures HashOf(h, cs[i]) in s.book.db && s.book.db[HashOf(h, cs[i])] == Enc(h, cs[i]) && HashOf(h, c) !in s.book.db
    ensures Use(HashOf(h, cs[i]), Calling) in s.uses && !NodeClosed(h, s.cb, s.uses, s.book.db)
  {
    hide *;
    ChildParts(h, cs, i, v);
    var r, x := HashOf(h, Branch(cs)), HashOf(h, cs[i]);
    s := RawRoot(h, cs, i, v, r, x);
    AwaitingIs(r, Enc(h, Branch(cs)), x);
    HandOver(s, x, 0);
    Supply(s, x, Enc(h, cs[i]), r);
    FinishedIs(s);
    ChildMissing(h, s.cb, s.uses, s.book.db, Calling, cs[i], c);
  }

  lemma AskingIs(callback: bool)
    ensures Asking(callback) == Request(None, false, [], 0, 0, callback, false)
  {
  }

  lemma AwaitingIs(r: Hash, data: seq<byte>, x: Hash)
    requires r != x
    ensures var b := AwaitingRaw(r, data, x);
            && b.queue == [Task(x, 0)] && b.batch == map[] && b.db == map[] && b.requests.Keys == {r, x}
            && b.requests[r].parents == [] && b.requests[x].raw && b.requests[x].data.None?
  {
  }

  lemma ArrivedIs(b: Book, c: Book, x: Hash, data: seq<byte>, y: Hash, d: seq<byte>)
    requires Arrived(b, c, x, data) && (Holds(b, y, d) || (y == x && d == data))
    ensures Holds(c, y, d)
  {
    hide Holds, AskedFor;
  }

  /** An entry without its child. */
  lemma ChildMissing(h: Hasher, cb: Callback, uses: set<Use>, db: Blobs, kind: Kind, t: Tree, c: Tree)
    requires Norm(t) && Bounded(t) && IsChild(t, c) && Inner(c) && Big(h, c)
    requires HashOf(h, t) in db && db[HashOf(h, t)] == Enc(h, t) && HashOf(h, c) !in db
    requires Use(HashOf(h, t), kind) in uses && !kind.Raw?
    ensures !NodeClosed(h, cb, uses, db)
  {
    hide NeededAs, Norm, Bounded, Enc, HashOf, Big, IsChild, Inner;
    BigChild(h, cb, map[], t, c);
    assert !(Kids(h, cb, HashOf(h, t), db[HashOf(h, t)]) <= db.Keys);
    var r := Use(HashOf(h, t), kind);
    assert r in uses && !r.kind.Raw? && r.hash in db;
  }

  // ----- a callback that fails -----

  /** The node waits for z and for nothing else. */
  function AwaitingCut(r: Hash, data: seq<byte>, z: Hash): Book
  {
    Young(map[r := Request(Some(data), false, [], 0, 1, true, true), z := Request(None, true, [r], 0, 0, false, false)],
          [Task(z, 0)], map[r := Cut, z := Raw])
  }

  lemma BranchCut(h: Hasher, cs: seq<Tree>, v: seq<byte>, r: Hash, z: Hash, c: Book, o: Outcome)
    requires Norm(Branch(cs)) && Bounded(Branch(cs)) && |cs| == 17 && cs[16] == Val(v) && r != z && r != ZeroHash() &&
             z != h([])
    requires Processed(h, RawTo(z, false), Young(map[r := Asking(true)], [], map[r := Calling]), r, Enc(h, Branch(cs)),
                       c, o)
    ensures o == CallbackFailed && c == AwaitingCut(r, Enc(h, Branch(cs)), z)
  {
    hide Enc, Norm, Bounded, DecodeNode, ZeroHash, Opened, Gather, Branched, NodeOf, Filled, Leaf, ChildNodes, CutOff,
         AddedSub;
    var data := Enc(h, Branch(cs));
    Decoded(h, Branch(cs), r);
    BranchLeaf(h, cs, v, r);
    FirstFilled(r, data);
    LeafOpened(h, r, z, data, v, false);
    CutNow(r, data, z);
  }

  lemma CutNow(r: Hash, data: seq<byte>, z: Hash)
    requires r != z
    ensures CutOff(AwaitingOnce(r, data, z), r) == AwaitingCut(r, data, z)
  {
    assert CutOff(AwaitingOnce(r, data, z), r).requests == AwaitingCut(r, data, z).requests;
    assert CutOff(AwaitingOnce(r, data, z), r).kinds == AwaitingCut(r, data, z).kinds;
  }

  lemma CutAwaits(r: Hash, data: seq<byte>, z: Hash)
    requires r != z
    ensures var b := AwaitingCut(r, data, z);
            && b.queue == [Task(z, 0)] && b.batch == map[] && b.db == map[] && b.requests.Keys == {r, z}
            && b.requests[r].parents == [] && b.requests[z].raw && b.requests[z].data.None?
    ensures Holds(AwaitingCut(r, data, z).(queue := []), r, data) && Stuck(AwaitingCut(r, data, z), r, {}) == {}
  {
  }

  /** The root is a node with a bad leaf. */
  method BadLeaf(h: Hasher, cs: seq<Tree>, v: seq<byte>, r: Hash, z: Hash) returns (s: Sync)
    requires Norm(Branch(cs)) && Bounded(Branch(cs)) && |cs| == 17 && cs[16] == Val(v)
    requires r != ZeroHash() && r != h([0x80]) && r != z && z != h([])
    ensures fresh(s) && s.Valid() && s.h == h && s.book == AwaitingCut(r, Enc(h, Branch(cs)), z)
    ensures s.out == {} && s.failed == {r} && s.stuck == {} && Use(r, Calling) in s.uses
  {
    hide *;
    s := Begin(h, RawTo(z, false), r, true);
    KindIs(Asking(true));
    AskingIs(true);
    var o := s.ProcessOne(r, Enc(h, Branch(cs)));
    BranchCut(h, cs, v, r, z, s.book, o);
    TakenIs(o);
    CutAwaits(r, Enc(h, Branch(cs)), z);
  }

  /**
   A sync whose callback announces z and then fails: the error is reported once, and when
   z arrives the node is written without its child, which is never asked for.
   */
  method FailedCallback(h: Hasher, cs: seq<Tree>, v: seq<byte>, data: seq<byte>, ghost c: Tree) returns (s: Sync)
    requires Norm(Branch(cs)) && Bounded(Branch(cs)) && |cs| == 17 && cs[16] == Val(v) && c in cs && Inner(c) &&
             Big(h, c)
    requires var r := HashOf(h, Branch(cs));
             r != ZeroHash() && r != h([0x80]) && r != h(data) && HashOf(h, c) !in {r, h(data)} && h(data) != h([])
    ensures fresh(s) && s.Valid() && s.book.requests == map[] && s.book.queue == [] && s.out == {} &&
            s.book.batch == map[]
    ensures s.failed == {HashOf(h, Branch(cs))}
    ensures HashOf(h, Branch(cs)) in s.book.db && s.book.db[HashOf(h, Branch(cs))] == Enc(h, Branch(cs)) &&
            HashOf(h, c) !in s.book.db
    ensures Use(HashOf(h, Branch(cs)), Calling) in s.uses && !NodeClosed(h, s.cb, s.uses, s.book.db)
  {
    hide *;
    var r, z := HashOf(h, Branch(cs)), h(data);
    s := BadLeaf(h, cs, v, r, z);
    CutAwaits(r, Enc(h, Branch(cs)), z);
    HandOver(s, z, 0);
    Supply(s, z, data, r);
    ChildIs(cs, c);
    ChildMissing(h, s.cb, s.uses, s.book.db, Calling, Branch(cs), c);
  }

  lemma ChildIs(cs: seq<Tree>, c: Tree)
    requires c in cs
    ensures IsChild(Branch(cs), c)
  {
  }

  // ----- data that refers to its own hash -----

  /** x waits for itself. */
  function AwaitingSelf(x: Hash, data: seq<byte>): Book
  {
    Young(map[x := Request(Some(data), false, [x], 0, 1, false, false)], [], map[x := Plain])
  }

  lemma SelfBranched(x: Hash, data: seq<byte>, depth: nat)
    ensures var b := Filled(Young(map[x := Asking(false)], [], map[x := Plain]), x, data);
            Gather(b, [HashNode(x)], depth) == [Task(x, depth)] && Branched(b, x, [Task(x, depth)]) == AwaitingSelf(x, data)
  {
    var b := Filled(Young(map[x := Asking(false)], [], map[x := Plain]), x, data);
    assert [HashNode(x)][..0] == [];
    var m, t := Raised(b, x, 1), Task(x, depth);
    assert [t][..0] == [];
    assert Spread(m, x, [t], false) == Expected(Spread(m, x, [], false), x, t, false);
    assert m.requests[x].parents + [x] == [x];
    assert Expected(m, x, t, false).requests == AwaitingSelf(x, data).requests;
  }

  lemma SelfNode(h: Hasher, k: seq<byte>, c: Tree, x: Hash)
    requires Inner(c) && Big(h, c)
    ensures var n := NodeOf(h, Ext(k, c), Some(x), 0);
            ChildNodes(n) == [HashNode(HashOf(h, c))] && n.Short? && n.key == k
  {
    hide Enc, HashOf, Big;
  }

  lemma SelfWaits(h: Hasher, cb: Callback, k: seq<byte>, c: Tree, x: Hash, b: Book, o: Outcome)
    requires Norm(Ext(k, c)) && Bounded(Ext(k, c)) && Inner(c) && Big(h, c) && x == HashOf(h, c)
    requires Processed(h, cb, Young(map[x := Asking(false)], [], map[x := Plain]), x, Enc(h, Ext(k, c)), b, o)
    ensures o == Waiting && b == AwaitingSelf(x, Enc(h, Ext(k, c)))
  {
    hide Enc, Norm, Bounded, DecodeNode, Gather, Branched, NodeOf, Filled, Leaf, ChildNodes, Big, HashOf, Inner;
    var data, n := Enc(h, Ext(k, c)), NodeOf(h, Ext(k, c), Some(x), 0);
    Decoded(h, Ext(k, c), x);
    SelfNode(h, k, c, x);
    SelfBranched(x, data, |k|);
    FilledIs(Young(map[x := Asking(false)], [], map[x := Plain]), x, data);
  }

  /**
   A node is delivered under the hash of its own child, which Process does not check: the
   request waits for itself, nothing is queued or handed out, and no further result is taken.
   */
  method SelfReference(h: Hasher, k: seq<byte>, c: Tree) returns (s: Sync)
    requires Norm(Ext(k, c)) && Bounded(Ext(k, c)) && Inner(c) && Big(h, c) && HashOf(h, c) != h([0x80])
    ensures fresh(s) && s.Valid() && s.out == {} && s.failed == {} && s.stuck == {}
    ensures s.book == AwaitingSelf(HashOf(h, c), Enc(h, Ext(k, c))) && HasCycle(WaitGraph(s.book.requests))
  {
    hide *;
    var x := HashOf(h, c);
    s := Begin(h, (v: seq<byte>) => Answer([], true), x, false);
    KindIs(Asking(false));
    AskingIs(false);
    var o := s.ProcessOne(x, Enc(h, Ext(k, c)));
    SelfWaits(h, s.cb, k, c, x, s.book, o);
    TakenIs(o);
    SelfIs(x, Enc(h, Ext(k, c)));
    NothingPending(s);
  }

  lemma SelfIs(x: Hash, data: seq<byte>)
    ensures AwaitingSelf(x, data).requests != map[] && AwaitingSelf(x, data).queue == []
  {
    assert x in AwaitingSelf(x, data).requests;
  }

  /** No result that may follow changes anything. */
  lemma SelfForever(h: Hasher, cb: Callback, x: Hash, data: seq<byte>, y: Hash, d: seq<byte>, c: Book, o: Outcome)
    requires Processed(h, cb, AwaitingSelf(x, data), y, d, c, o)
    ensures c == AwaitingSelf(x, data) && o == if y == x then AlreadyProcessed else NotRequested
  {
    hide DecodeNode, Unfolded;
  }
}
