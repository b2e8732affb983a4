/**
 Whole runs of a trie sync (trie/sync.go): any calls of Missing, Process and Commit in
 any order, with data that is what the hashes stand for. When nothing is left to do,
 nothing is pending, and the database has the whole trie.
 */
module SyncWhole {
  import opened Bytes
  import opened TrieTree
  import opened TrieNode
  import opened TrieRep
  import TrieUnique
  import opened Cycles
  import opened SyncBook
  import opened SyncSteps
  import opened SyncUses
  import opened TrieSync
  import opened SyncComplete

  /** A call by the user of a Sync. */
  datatype Act = Fetch(max: nat) | Deliver(results: seq<SyncResult>) | Save(fail: nat)

  /** The results are from the given data. */
  ghost predicate From(world: Blobs, act: Act)
  {
    act.Deliver? ==> forall r :: r in act.results ==> r.hash in world && world[r.hash] == r.data
  }

  /** All data that has arrived is from there, and the database has nothing else for its hashes. */
  ghost predicate Faithful(b: Book, world: Blobs)
  {
    && (forall x, data :: Holds(b, x, data) ==> x in world && world[x] == data)
    && (forall x :: x in b.db && x in world ==> b.db[x] == world[x])
  }

  /** What refers to what. */
  ghost function References(h: Hasher, cb: Callback, world: Blobs): Graph<Hash>
  {
    map x | x in world :: NeededAs(h, cb, Calling, x, world[x])
  }

  /** Nothing is queued, handed out or unwritten, and no callback has failed. */
  ghost predicate Finished(s: Sync)
    reads s
  {
    s.book.queue == [] && s.out == {} && s.book.batch == map[] && s.failed == {} && s.stuck == {}
  }

  /** One call. */
  method Perform(s: Sync, act: Act, ghost world: Blobs)
    requires s.Valid() && Faithful(s.book, world) && From(world, act)
    modifies s
    ensures s.Valid() && Faithful(s.book, world) && old(AskedFor(s.book)) <= AskedFor(s.book)
  {
    hide *;
    match act
    case Fetch(max) =>
      var hashes, tasks := s.Missing(max);
      FetchFaithful(old(s.book), s.book, world);
    case Deliver(results) =>
      var committed, index, failure, books := s.Process(results);
      DeliverFaithful(old(s.book), s.book, world, act);
    case Save(fail) =>
      var written, ok := s.Commit(fail);
      SaveFaithful(old(s.book), s.book, world);
  }

  lemma FetchFaithful(b: Book, c: Book, world: Blobs)
    requires Faithful(b, world) && c == b.(queue := c.queue)
    ensures Faithful(c, world) && AskedFor(b) <= AskedFor(c)
  {
    hide Holds;
    forall x, data | Holds(c, x, data) ensures x in world && world[x] == data { HoldsLess(b, c, x, data); }
  }

  lemma HoldsLess(b: Book, c: Book, x: Hash, data: seq<byte>)
    requires Holds(c, x, data) && c.requests == b.requests && (c.batch == b.batch || c.batch == map[])
    ensures Holds(b, x, data)
  {
  }

  lemma DeliverFaithful(b: Book, c: Book, world: Blobs, act: Act)
    requires Faithful(b, world) && From(world, act) && act.Deliver? && Delivered(b, c, act.results)
    ensures Faithful(c, world) && AskedFor(b) <= AskedFor(c)
  {
    hide Holds, AskedFor, Carries;
  }

  lemma SaveFaithful(b: Book, c: Book, world: Blobs)
    requires Faithful(b, world) && Have(c) == Have(b) && forall x, data :: Present(c, x, data) ==> Present(b, x, data)
    requires c == b.(db := c.db) || c == b.(db := c.db, batch := map[], order := [])
    ensures Faithful(c, world) && AskedFor(b) <= AskedFor(c)
  {
    hide Holds, Have;
    forall x, data | Holds(c, x, data) ensures x in world && world[x] == data { HoldsLess(b, c, x, data); }
    forall x | x in c.db && x in world ensures c.db[x] == world[x] {
      assert Present(c, x, c.db[x]);
    }
  }

  /** Any calls in any order. */
  method Run(s: Sync, acts: seq<Act>, ghost world: Blobs)
    requires s.Valid() && Faithful(s.book, world) && forall a :: a in acts ==> From(world, a)
    modifies s
    ensures s.Valid() && Faithful(s.book, world) && old(AskedFor(s.book)) <= AskedFor(s.book)
  {
    hide *;
    for i := 0 to |acts|
      invariant s.Valid() && Faithful(s.book, world) && old(AskedFor(s.book)) <= AskedFor(s.book)
    {
      Perform(s, acts[i], world);
    }
  }

  /**
   When all that was asked for has arrived and the data delivered does not refer to
   itself in a circle, nothing is pending.
   */
  lemma NoneLeft(s: Sync, world: Blobs)
    requires s.Valid() && Faithful(s.book, world) && s.book.queue == [] && s.out == {} && s.stuck == {}
    requires !HasCycle(References(s.h, s.cb, world))
    ensures s.book.requests == map[]
  {
    hide *;
    ValidIs(s);
    NothingPending(s);
    var g, w := WaitGraph(s.book.requests), References(s.h, s.cb, world);
    if HasCycle(g) {
      forall p | p in g && g[p] != {} ensures p in w && g[p] <= w[p] {
        WaitsWithin(s.h, s.cb, s.book, s.out, s.stuck, world, p);
      }
      PartCycle(g, w);
    }
  }

  /** Requests wait for what their data refers to. */
  lemma WaitsWithin(h: Hasher, cb: Callback, b: Book, out: set<Hash>, stuck: set<Hash>, world: Blobs, p: Hash)
    requires Good(h, cb, b, out, stuck) && Faithful(b, world) && p in WaitGraph(b.requests) &&
             WaitGraph(b.requests)[p] != {}
    ensures p in References(h, cb, world) && WaitGraph(b.requests)[p] <= References(h, cb, world)[p]
  {
    hide Steady, Live, Queued, Caused, NeededAs;
    forall c | c in WaitGraph(b.requests)[p] ensures p in world && c in NeededAs(h, cb, Calling, p, world[p]) {
      CausedAt(h, cb, b.requests, c, p);
      var d := b.requests[p].data.value;
      assert Holds(b, p, d);
      AsCalling(h, cb, p, d);
    }
  }

  lemma AsCalling(h: Hasher, cb: Callback, p: Hash, data: seq<byte>)
    ensures NeededAs(h, cb, Plain, p, data) <= NeededAs(h, cb, Calling, p, data)
  {
    hide DecodeNode, KidHashes, SubHashes, ZeroHash;
  }

  /** Nothing asks for the given nodes as raw data: neither the callback nor anybody before. */
  ghost predicate NeverRaw(h: Hasher, cb: Callback, start: set<Use>, encs: set<seq<byte>>)
  {
    forall e :: e in encs ==> !Announces(cb, h(e)) && Use(h(e), Raw) !in start
  }

  /** The data under the hashes of the given nodes is these nodes. */
  ghost predicate Genuine(h: Hasher, world: Blobs, encs: set<seq<byte>>)
  {
    forall e :: e in encs ==> h(e) in world && world[h(e)] == e
  }

  /**
   A sync that has been asked for the root of a trie has the whole trie when it is
   finished, if no callback asks for one of its nodes as raw data and the data delivered
   does not refer to itself in a circle.
   */
  lemma FinishedStores(s: Sync, world: Blobs, t: Tree, encs: set<seq<byte>>)
    requires s.Valid() && Faithful(s.book, world) && Finished(s) && HashOf(s.h, t) in AskedFor(s.book)
    requires TrieUnique.Known(s.h, encs, t) && Genuine(s.h, world, encs) && NeverRaw(s.h, s.cb, s.start, encs)
    requires !HasCycle(References(s.h, s.cb, world))
    ensures s.book.requests == map[] && TrieRep.Stored(Env(s.h, s.book.db, true), t)
  {
    hide *;
    FinishedIs(s);
    NoneLeft(s, world);
    ValidIs(s);
    AllWritten(s.book, HashOf(s.h, t));
    NotedHonest(s.h, s.cb, s.book, s.start, s.uses, world, encs);
    GoodClosed(s.h, s.cb, s.book, s.out, s.stuck);
    ClosedStores(s.h, s.cb, s.book.kinds, s.book.db, t, encs);
  }

  lemma FinishedIs(s: Sync)
    ensures Finished(s) <==>
            s.book.queue == [] && s.out == {} && s.book.batch == map[] && s.failed == {} && s.stuck == {}
  {
  }

  lemma AllWritten(b: Book, x: Hash)
    requires x in AskedFor(b) && b.requests == map[] && b.batch == map[]
    ensures x in b.db
  {
  }

  lemma GoodClosed(h: Hasher, cb: Callback, b: Book, out: set<Hash>, stuck: set<Hash>)
    requires Good(h, cb, b, out, stuck)
    ensures Closed(h, cb, b.kinds, b.db)
  {
    hide Closed, Ordered, Links, Waits, Pending, Live, Caused, Queued;
  }

  lemma NotedHonest(h: Hasher, cb: Callback, b: Book, start: set<Use>, uses: set<Use>, world: Blobs,
                    encs: set<seq<byte>>)
    requires Noted(h, cb, b, uses, {}) && Sourced(cb, start, uses) && Faithful(b, world)
    requires Genuine(h, world, encs) && NeverRaw(h, cb, start, encs)
    ensures Honest(h, b.kinds, b.db, encs)
  {
    hide UsesMade, Announces, Holds;
    forall e | e in encs && h(e) in b.db ensures b.db[h(e)] == e && Whole(b.kinds, h(e)) {
      assert Present(b, h(e), b.db[h(e)]);
      var r := Use(h(e), Asked(b.kinds[h(e)]));
      assert r in uses;
    }
  }

  lemma StartFaithful(h: Hasher, db: Blobs, kinds: Kinds, root: Hash, callback: bool, c: Book, world: Blobs)
    requires Faithful(Book(db, map[], [], map[], [], kinds), world)
    requires var b := Book(db, map[], [], map[], [], kinds);
             c == b || c == Schedule(b, root, Request(None, false, [], 0, 0, callback, false))
    ensures Faithful(c, world)
  {
  }

  /** A sync from its beginning. */
  method SyncTrie(h: Hasher, cb: Callback, db: Blobs, kinds: Kinds, callback: bool, ghost start: set<Use>, acts: seq<Act>,
                  ghost world: Blobs, root: Hash, ghost t: Tree, ghost encs: set<seq<byte>>)
    returns (s: Sync)
    requires Closed(h, cb, kinds, db) && Noted(h, cb, Book(db, map[], [], map[], [], kinds), start, {})
    requires Faithful(Book(db, map[], [], map[], [], kinds), world) && forall a :: a in acts ==> From(world, a)
    requires root == HashOf(h, t) && root != h([0x80]) && TrieUnique.Known(h, encs, t)
    requires Genuine(h, world, encs) && NeverRaw(h, cb, start, encs) && !HasCycle(References(h, cb, world))
    ensures fresh(s) && s.Valid()
    ensures Finished(s) ==> s.book.requests == map[] && TrieRep.Stored(Env(h, s.book.db, true), t)
  {
    hide *;
    s := new Sync(h, cb, db, kinds, root, callback, start);
    StartFaithful(h, db, kinds, root, callback, s.book, world);
    Run(s, acts, world);
    if Finished(s) { FinishedStores(s, world, t, encs); }
  }
}
