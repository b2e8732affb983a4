/**
 Driving a sync to its end (trie/sync.go): everything missing is fetched, processed and
 written, until nothing is missing. If all that anybody asks for can be had, no result is
 refused and the loop ends.
 */
module SyncDrive {
  import opened Bytes
  import opened TrieTree
  import opened TrieNode
  import opened TrieRep
  import TrieUnique
  import opened Cycles
  import opened SyncBook
  import opened SyncSteps
  import opened SyncRound
  import opened SyncUses
  import opened TrieSync
  import opened SyncWhole

  // ----- what can be had -----

  predicate Decodes(x: Hash, data: seq<byte>) { DecodeNode(Some(x), data, 0).Ok? }

  /** The data for a hash that is asked for as a node. */
  predicate NodeIn(world: Blobs, x: Hash) { x in world && Decodes(x, world[x]) }

  /** What a call of the callback asks for can be had. */
  ghost predicate SubIn(h: Hasher, world: Blobs, s: Sub)
  {
    !Trivial(h, s) ==> s.hash in world && (s.raw || NodeIn(world, s.hash))
  }

  /** The children of a node can be had, and what its leaf asks for, if that goes to the callback. */
  ghost predicate WholeAt(h: Hasher, cb: Callback, world: Blobs, calling: set<Hash>, x: Hash, n: Node)
  {
    && (forall k :: k in HashesIn(ChildNodes(n)) ==> NodeIn(world, k) && (x in calling ==> k in calling))
    && (x in calling ==> forall v :: v in Leaf(n) ==> cb(v).ok && forall s :: s in cb(v).subs ==> SubIn(h, world, s))
  }

  /** The data has all that it refers to; calling are the nodes whose leaves go to the callback. */
  ghost predicate Complete(h: Hasher, cb: Callback, world: Blobs, calling: set<Hash>)
  {
    forall x :: NodeIn(world, x) ==> WholeAt(h, cb, world, calling, x, DecodeNode(Some(x), world[x], 0).value)
  }

  // ----- what is asked for can be had, and once -----

  /** Asked for, and not arrived. */
  predicate Open(b: Book, p: Hash) { p in b.requests && b.requests[p].data.None? }

  ghost predicate Ready(world: Blobs, calling: set<Hash>, p: Hash, r: Request)
  {
    p in world && (r.raw || (NodeIn(world, p) && (r.callback ==> p in calling)))
  }

  /** No hash is queued twice. */
  ghost predicate Once(queue: seq<Task>)
  {
    && (forall t, u :: t in queue && u in queue && t.hash == u.hash ==> t == u)
    && (forall t :: multiset(queue)[t] <= 1)
  }

  ghost predicate QueueOk(b: Book, out: set<Hash>)
  {
    Once(b.queue) && forall t :: t in b.queue ==> Open(b, t.hash) && t.hash !in out
  }

  ghost predicate Served(world: Blobs, calling: set<Hash>, b: Book, out: set<Hash>)
  {
    && (forall p :: p in b.requests ==> p !in b.db)
    && (forall p :: Open(b, p) ==> Ready(world, calling, p, b.requests[p]))
    && (forall p :: p in out ==> Open(b, p))
    && (forall k :: k in b.db && k in world ==> b.db[k] == world[k])
    && QueueOk(b, out)
  }

  lemma OnceMore(queue: seq<Task>, t: Task)
    requires Once(queue) && forall u :: u in queue ==> u.hash != t.hash
    ensures Once(queue + [t])
  {
    forall u ensures multiset(queue + [t])[u] <= 1 {
      if u == t { assert t !in queue; assert multiset(queue)[t] == 0; }
    }
  }

  lemma ServedSchedule(world: Blobs, calling: set<Hash>, b: Book, out: set<Hash>, k: Hash, r: Request)
    requires Served(world, calling, b, out) && r.data.None?
    requires k !in b.requests ==> k !in b.db && Ready(world, calling, k, r)
    ensures Served(world, calling, Schedule(b, k, r), out)
  {
    hide NodeIn, Once;
    if k !in b.requests { OnceMore(b.queue, Task(k, r.depth)); }
  }

  lemma ServedRaised(world: Blobs, calling: set<Hash>, b: Book, out: set<Hash>, x: Hash, n: nat)
    requires Served(world, calling, b, out) && x in b.requests
    ensures Served(world, calling, Raised(b, x, n), out)
  {
    hide NodeIn, Once;
  }

  lemma ServedFilled(world: Blobs, calling: set<Hash>, b: Book, out: set<Hash>, x: Hash, data: seq<byte>)
    requires Served(world, calling, b, out) && x in out
    ensures x in b.requests && Served(world, calling, Filled(b, x, data), out - {x})
  {
    hide Ready, Once;
  }

  lemma ServedDrained(world: Blobs, calling: set<Hash>, b: Book, c: Book, out: set<Hash>)
    requires Served(world, calling, b, out) && Drained(b, c)
    ensures Served(world, calling, c, out)
  {
    hide NodeIn, Once;
  }

  /** One call of the callback. */
  lemma ServedSub(h: Hasher, world: Blobs, calling: set<Hash>, b: Book, out: set<Hash>, s: Sub, x: Hash)
    requires Served(world, calling, b, out) && x in b.requests && SubIn(h, world, s)
    ensures Served(world, calling, AddedSub(h, b, s, x), out)
  {
    hide Served, Schedule, Raised, ZeroHash, Trivial, DecodeNode;
    if AddedSub(h, b, s, x) != b {
      NotYet(world, calling, b, out, s);
      ServedRaised(world, calling, b, out, x, 1);
      RaisedIs(b, x, 1);
      ServedSchedule(world, calling, b, out, s.hash, Request(None, s.raw, [], s.depth, 0, false, false));
      ServedSchedule(world, calling, Raised(b, x, 1), out, s.hash, Request(None, s.raw, [x], s.depth, 0, false, false));
    }
  }

  /** What is in the database is not asked for again. */
  lemma NotYet(world: Blobs, calling: set<Hash>, b: Book, out: set<Hash>, s: Sub)
    requires Served(world, calling, b, out) && s.hash in world && (s.raw || NodeIn(world, s.hash))
    requires !(s.hash in b.db && (s.raw || DecodeNode(Some(s.hash), b.db[s.hash], 0).Ok?))
    ensures s.hash !in b.db
  {
    hide Open, Ready, QueueOk, DecodeNode;
  }

  lemma {:induction false} ServedSubs(h: Hasher, world: Blobs, calling: set<Hash>, b: Book, out: set<Hash>,
                                      subs: seq<Sub>, x: Hash)
    requires Served(world, calling, b, out) && x in b.requests && forall s :: s in subs ==> SubIn(h, world, s)
    ensures Served(world, calling, Announced(h, b, subs, x), out)
    decreases |subs|
  {
    hide Served, AddedSub, SubIn;
    if subs != [] {
      var rest := subs[..|subs| - 1];
      ServedSubs(h, world, calling, b, out, rest, x);
      ServedSub(h, world, calling, Announced(h, b, rest, x), out, subs[|subs| - 1], x);
    }
  }

  /** The requests for children. */
  lemma {:induction false} ServedSpread(world: Blobs, calling: set<Hash>, b: Book, out: set<Hash>, x: Hash,
                                        tasks: seq<Task>, callback: bool)
    requires Served(world, calling, b, out)
    requires forall t :: t in tasks ==> t.hash !in b.db && NodeIn(world, t.hash) && (callback ==> t.hash in calling)
    ensures Served(world, calling, Spread(b, x, tasks, callback), out) && Spread(b, x, tasks, callback).db == b.db
    decreases |tasks|
  {
    hide Served, Schedule, NodeIn;
    if tasks != [] {
      var rest, t := tasks[..|tasks| - 1], tasks[|tasks| - 1];
      assert forall u :: u in rest ==> u in tasks;
      ServedSpread(world, calling, b, out, x, rest, callback);
      var m, r := Spread(b, x, rest, callback), Request(None, false, [x], t.depth, 0, callback, false);
      assert t in tasks;
      ReadyNode(world, calling, t.hash, r);
      ServedSchedule(world, calling, m, out, t.hash, r);
      SameDb(m, t.hash, r);
    }
  }

  lemma ReadyNode(world: Blobs, calling: set<Hash>, p: Hash, r: Request)
    requires NodeIn(world, p) && (r.callback ==> p in calling)
    ensures Ready(world, calling, p, r)
  {
    hide Decodes;
  }

  lemma SameDb(b: Book, k: Hash, r: Request)
    ensures Schedule(b, k, r).db == b.db
  {
  }

  // ----- one result -----

  /** A result that is as it should be is taken. */
  lemma ServedStep(h: Hasher, cb: Callback, world: Blobs, calling: set<Hash>, b: Book, out: set<Hash>, x: Hash,
                   c: Book, o: Outcome)
    requires Served(world, calling, b, out) && Complete(h, cb, world, calling) && x in out && x in world
    requires Processed(h, cb, b, x, world[x], c, o)
    ensures Served(world, calling, c, out - {x}) && (o.Stored? || o.Waiting?)
  {
    hide *;
    var data := world[x];
    OutOpen(world, calling, b, out, x);
    ServedFilled(world, calling, b, out, x, data);
    FilledHas(b, x, data);
    if b.requests[x].raw {
      ProcessedOpen(h, cb, b, x, data, c, o);
      ServedDrained(world, calling, Filled(b, x, data), c, out - {x});
    } else {
      CompleteAt(h, cb, world, calling, x);
      ProcessedOpen(h, cb, b, x, data, c, o);
      var n := DecodeNode(Some(x), data, 0).value;
      ServedNode(h, cb, world, calling, Filled(b, x, data), out - {x}, x, n, c, o);
    }
  }

  lemma OutOpen(world: Blobs, calling: set<Hash>, b: Book, out: set<Hash>, x: Hash)
    requires Served(world, calling, b, out) && x in out
    ensures Open(b, x) && x in b.requests && b.requests[x].data.None?
    ensures b.requests[x].raw || (NodeIn(world, x) && (b.requests[x].callback ==> x in calling))
  {
    hide QueueOk, NodeIn;
  }

  lemma ProcessedOpen(h: Hasher, cb: Callback, b: Book, x: Hash, data: seq<byte>, c: Book, o: Outcome)
    requires Processed(h, cb, b, x, data, c, o) && x in b.requests && b.requests[x].data.None?
    requires b.requests[x].raw || Decodes(x, data)
    ensures b.requests[x].raw ==> o == Stored && Drained(Filled(b, x, data), c)
    ensures !b.requests[x].raw ==>
              && DecodeNode(Some(x), data, 0).Ok? && x in Filled(b, x, data).requests
              && Unfolded(h, cb, Filled(b, x, data), x, DecodeNode(Some(x), data, 0).value, c, o)
  {
    hide Unfolded, DecodeNode, Drained;
  }

  lemma CompleteAt(h: Hasher, cb: Callback, world: Blobs, calling: set<Hash>, x: Hash)
    requires Complete(h, cb, world, calling) && NodeIn(world, x)
    ensures x in world && Decodes(x, world[x])
    ensures DecodeNode(Some(x), world[x], 0).Ok?
    ensures WholeAt(h, cb, world, calling, x, DecodeNode(Some(x), world[x], 0).value)
  {
    hide WholeAt, DecodeNode;
  }

  lemma ServedNode(h: Hasher, cb: Callback, world: Blobs, calling: set<Hash>, b: Book, out: set<Hash>, x: Hash, n: Node,
                   c: Book, o: Outcome)
    requires Served(world, calling, b, out) && x in b.requests && (b.requests[x].callback ==> x in calling)
    requires WholeAt(h, cb, world, calling, x, n) && Unfolded(h, cb, b, x, n, c, o)
    ensures Served(world, calling, c, out) && (o.Stored? || o.Waiting?)
  {
    hide Served, Opened, Gather, Branched, Drained, Leaf, WholeAt, CutOff, KidDepth;
    var m := Opened(h, cb, b, x, Leaf(n));
    var tasks := Gather(b, ChildNodes(n), KidDepth(b.requests[x], n));
    WholeCalls(h, cb, world, calling, b, out, x, n);
    if o == Stored {
      ServedDrained(world, calling, m, c, out);
    } else {
      GatherIn(b, ChildNodes(n), KidDepth(b.requests[x], n));
      WholeKids(h, cb, world, calling, b, x, n, tasks);
      ServedBranched(world, calling, m, out, x, tasks);
    }
  }

  /** The callback succeeds, and what it asks for can be had. */
  lemma WholeCalls(h: Hasher, cb: Callback, world: Blobs, calling: set<Hash>, b: Book, out: set<Hash>, x: Hash, n: Node)
    requires Served(world, calling, b, out) && x in b.requests && (b.requests[x].callback ==> x in calling)
    requires WholeAt(h, cb, world, calling, x, n)
    ensures var m := Opened(h, cb, b, x, Leaf(n));
            Served(world, calling, m, out) && m.db == b.db && m.requests[x].callback == b.requests[x].callback
    ensures !Fails(cb, b.requests[x], Leaf(n))
  {
    hide Served, Announced, Leaf, HashesIn, NodeIn, SubIn;
    OpenedCallback(h, cb, b, x, Leaf(n));
    if b.requests[x].callback && Leaf(n) != [] {
      var v := Leaf(n)[0];
      assert v in Leaf(n);
      ServedSubs(h, world, calling, b, out, cb(v).subs, x);
      AnnouncedDb(h, b, cb(v).subs, x);
    }
  }

  lemma {:induction false} AnnouncedDb(h: Hasher, b: Book, subs: seq<Sub>, x: Hash)
    requires x in b.requests
    ensures Announced(h, b, subs, x).db == b.db
  {
    hide AddedSub;
    if subs != [] {
      AnnouncedDb(h, b, subs[..|subs| - 1], x);
      AddedDb(h, Announced(h, b, subs[..|subs| - 1], x), subs[|subs| - 1], x);
    }
  }

  lemma AddedDb(h: Hasher, b: Book, s: Sub, x: Hash)
    requires x in b.requests
    ensures AddedSub(h, b, s, x).db == b.db
  {
    hide ZeroHash, DecodeNode, Trivial, Schedule;
    SameDb(b, s.hash, Request(None, s.raw, [], s.depth, 0, false, false));
    SameDb(Raised(b, x, 1), s.hash, Request(None, s.raw, [x], s.depth, 0, false, false));
  }

  /** The children to be requested can be had. */
  lemma WholeKids(h: Hasher, cb: Callback, world: Blobs, calling: set<Hash>, b: Book, x: Hash, n: Node, tasks: seq<Task>)
    requires WholeAt(h, cb, world, calling, x, n) && Gathered(b, ChildNodes(n), tasks) && x in b.requests
    requires b.requests[x].callback ==> x in calling
    ensures forall t :: t in tasks ==>
              t.hash !in b.db && NodeIn(world, t.hash) && (b.requests[x].callback ==> t.hash in calling)
  {
    hide Leaf, HashesIn, NodeIn, SubIn;
  }

  lemma ServedBranched(world: Blobs, calling: set<Hash>, b: Book, out: set<Hash>, x: Hash, tasks: seq<Task>)
    requires Served(world, calling, b, out) && x in b.requests
    requires forall t :: t in tasks ==>
               t.hash !in b.db && NodeIn(world, t.hash) && (b.requests[x].callback ==> t.hash in calling)
    ensures Served(world, calling, Branched(b, x, tasks), out)
  {
    hide Served, Spread, NodeIn;
    ServedRaised(world, calling, b, out, x, |tasks|);
    ServedSpread(world, calling, Raised(b, x, |tasks|), out, x, tasks, b.requests[x].callback);
  }

  // ----- all results -----

  /** The results are for hashes handed out, each once, and as they should be. */
  ghost predicate Wanted(world: Blobs, out: set<Hash>, rs: seq<SyncResult>)
  {
    && (forall i :: 0 <= i < |rs| ==> rs[i].hash in out && rs[i].hash in world && world[rs[i].hash] == rs[i].data)
    && (forall i, j :: 0 <= i < j < |rs| ==> rs[i].hash != rs[j].hash)
  }

  lemma WantedAt(world: Blobs, out: set<Hash>, rs: seq<SyncResult>, k: nat)
    requires Wanted(world, out, rs) && k < |rs|
    ensures rs[k].hash in out - Hashes(rs[..k]) && rs[k].hash in world && world[rs[k].hash] == rs[k].data
  {
  }

  lemma {:induction false} ServedInTurn(h: Hasher, cb: Callback, world: Blobs, calling: set<Hash>, books: seq<Book>,
                                        out: set<Hash>, rs: seq<SyncResult>, k: nat)
    requires InTurn(h, cb, books, rs) && k < |books| && Wanted(world, out, rs)
    requires Served(world, calling, books[0], out) && Complete(h, cb, world, calling)
    ensures k <= |rs| && Served(world, calling, books[k], out - Hashes(rs[..k]))
    decreases k
  {
    hide *;
    TurnBound(h, cb, books, rs);
    if k == 0 {
      NoHashes(rs, out);
    } else {
      ServedInTurn(h, cb, world, calling, books, out, rs, k - 1);
      var o := TurnAt(h, cb, books, rs, k - 1);
      WantedAt(world, out, rs, k - 1);
      ServedStep(h, cb, world, calling, books[k - 1], out - Hashes(rs[..k - 1]), rs[k - 1].hash, books[k], o);
      HashesStep(rs, k - 1, out);
    }
  }

  lemma TurnBound(h: Hasher, cb: Callback, books: seq<Book>, rs: seq<SyncResult>)
    requires InTurn(h, cb, books, rs)
    ensures 0 < |books| <= |rs| + 1
  {
    hide Took;
  }

  lemma TurnAt(h: Hasher, cb: Callback, books: seq<Book>, rs: seq<SyncResult>, i: nat) returns (o: Outcome)
    requires InTurn(h, cb, books, rs) && i + 1 < |books|
    ensures i < |rs| && Processed(h, cb, books[i], rs[i].hash, rs[i].data, books[i + 1], o)
  {
    hide Processed;
    assert Took(h, cb, books, rs, i);
    o :| Processed(h, cb, books[i], rs[i].hash, rs[i].data, books[i + 1], o) && (o.Stored? || o.Waiting?);
  }

  lemma NoHashes(rs: seq<SyncResult>, out: set<Hash>)
    ensures out - Hashes(rs[..0]) == out
  {
  }

  /** Process on such results: none is refused. */
  method ProcessAll(s: Sync, results: seq<SyncResult>, ghost world: Blobs, ghost calling: set<Hash>)
    requires s.Valid() && Wanted(world, s.out, results) && Complete(s.h, s.cb, world, calling)
    requires Served(world, calling, s.book, s.out)
    modifies s
    ensures s.Valid() && Delivered(old(s.book), s.book, results) && AllHold(s.book, results, |results|)
    ensures s.out == old(s.out) - Hashes(results) && s.failed == old(s.failed) && s.stuck == old(s.stuck)
    ensures Served(world, calling, s.book, s.out)
  {
    hide *;
    var committed, index, failure, books := s.Process(results);
    ghost var k := |books| - 1;
    ServedInTurn(s.h, s.cb, world, calling, books, old(s.out), results, k);
    if failure.Some? {
      WantedAt(world, old(s.out), results, index);
      ServedStep(s.h, s.cb, world, calling, books[index], old(s.out) - Hashes(results[..index]), results[index].hash,
                 s.book, failure.value);
    }
    assert results[..|results|] == results;
  }

  // ----- a round -----

  /** Missing hands out every queued hash once. */
  lemma AllHanded(world: Blobs, calling: set<Hash>, b: Book, c: Book, tasks: seq<Task>, hashes: seq<Hash>)
    requires Served(world, calling, b, {}) && c == b.(queue := []) && Handed(b.queue, tasks, [], hashes)
    ensures Served(world, calling, c, Elems(hashes)) && (forall i, j :: 0 <= i < j < |hashes| ==> hashes[i] != hashes[j])
    ensures forall x :: x in hashes ==> Open(b, x) && x in world
    ensures b.queue != [] ==> hashes != []
  {
    hide NodeIn;
    assert multiset(tasks) == multiset(b.queue);
    forall i | 0 <= i < |tasks| ensures tasks[i] in b.queue { assert tasks[i] in multiset(tasks); }
    forall i, j | 0 <= i < j < |hashes| ensures hashes[i] != hashes[j] {
      if hashes[i] == hashes[j] { Twice(tasks, i, j); }
    }
    if b.queue != [] { assert b.queue[0] in multiset(tasks); }
  }

  lemma Twice(tasks: seq<Task>, i: nat, j: nat)
    requires i < j < |tasks| && tasks[i] == tasks[j]
    ensures multiset(tasks)[tasks[i]] >= 2
  {
    assert tasks == tasks[..j] + tasks[j..];
    assert tasks[..j][i] == tasks[i] && tasks[j..][0] == tasks[j];
    assert tasks[i] in multiset(tasks[..j]) && tasks[i] in multiset(tasks[j..]);
  }

  /** What has arrived. */
  ghost function Got(b: Book): set<Hash> { Have(b) + set p | p in b.requests && b.requests[p].data.Some? }

  /** More of the data has arrived. */
  ghost predicate Further(world: Blobs, a: set<Hash>, b: set<Hash>)
  {
    a <= b && exists x :: x in world && x in b && x !in a
  }

  lemma GotMore(b: Book, c: Book, rs: seq<SyncResult>, x: Hash)
    requires Delivered(b, c, rs) && Apart(b) && x in b.requests && b.requests[x].data.None? && x !in b.db
    requires AllHold(c, rs, |rs|) && exists i :: 0 <= i < |rs| && rs[i].hash == x
    ensures Got(b) <= Got(c) && x in Got(c) && x !in Got(b)
  {
    hide AskedFor;
    forall y | y in Got(b) ensures y in Got(c) {
      if y in b.batch { assert Holds(b, y, b.batch[y]); }
      if y in b.requests && b.requests[y].data.Some? { assert Holds(b, y, b.requests[y].data.value); }
    }
    var i :| 0 <= i < |rs| && rs[i].hash == x;
    assert Holds(c, rs[i].hash, rs[i].data);
  }

  lemma GotSame(b: Book, c: Book)
    requires c.requests == b.requests && Have(c) == Have(b)
    ensures Got(c) == Got(b)
  {
    hide Have;
  }

  /** Writing the batch changes nothing about what is asked for. */
  lemma ServedWritten(world: Blobs, calling: set<Hash>, b: Book, c: Book, out: set<Hash>)
    requires Served(world, calling, b, out) && Apart(b) && Have(c) == Have(b) && Faithful(c, world)
    requires c == b.(db := c.db, batch := map[], order := [])
    ensures Served(world, calling, c, out)
  {
    hide NodeIn, Once, Holds;
    forall p | p in c.requests ensures p !in c.db { assert p !in Have(b); }
  }

  /** Between rounds. */
  ghost predicate Rested(s: Sync, world: Blobs, calling: set<Hash>)
    reads s
  {
    && s.Valid() && Faithful(s.book, world) && Served(world, calling, s.book, {}) && Complete(s.h, s.cb, world, calling)
    && s.out == {} && s.failed == {} && s.stuck == {} && s.book.batch == map[]
  }

  lemma RestedIs(s: Sync, world: Blobs, calling: set<Hash>)
    requires Rested(s, world, calling)
    ensures s.Valid() && Faithful(s.book, world) && Served(world, calling, s.book, {})
    ensures Complete(s.h, s.cb, world, calling)
    ensures s.out == {} && s.failed == {} && s.stuck == {} && s.book.batch == map[]
  {
    hide Faithful, Served, Complete;
  }

  lemma Rests(s: Sync, world: Blobs, calling: set<Hash>)
    requires s.Valid() && Faithful(s.book, world) && Served(world, calling, s.book, {})
    requires Complete(s.h, s.cb, world, calling)
    requires s.out == {} && s.failed == {} && s.stuck == {} && s.book.batch == map[]
    ensures Rested(s, world, calling)
  {
    hide Faithful, Served, Complete;
  }

  /** The data for the hashes handed out. */
  function Fetched(world: Blobs, hashes: seq<Hash>): (rs: seq<SyncResult>)
    requires forall x :: x in hashes ==> x in world
    ensures |rs| == |hashes| && forall i :: 0 <= i < |rs| ==> rs[i] == SyncResult(hashes[i], world[hashes[i]])
  {
    seq(|hashes|, i requires 0 <= i < |hashes| => SyncResult(hashes[i], world[hashes[i]]))
  }

  lemma FetchedWanted(world: Blobs, hashes: seq<Hash>)
    requires forall x :: x in hashes ==> x in world
    requires forall i, j :: 0 <= i < j < |hashes| ==> hashes[i] != hashes[j]
    ensures Wanted(world, Elems(hashes), Fetched(world, hashes)) && From(world, Deliver(Fetched(world, hashes)))
    ensures Elems(hashes) - Hashes(Fetched(world, hashes)) == {}
  {
    var rs := Fetched(world, hashes);
    forall x | x in hashes ensures x in Hashes(rs) {
      var i :| 0 <= i < |hashes| && hashes[i] == x;
      assert rs[i] in rs && rs[i].hash == x;
    }
  }

  /** Everything missing is fetched and processed. */
  method FetchAll(s: Sync, world: Blobs, ghost calling: set<Hash>)
    requires Rested(s, world, calling) && s.book.queue != []
    modifies s
    ensures s.Valid() && Faithful(s.book, world) && Served(world, calling, s.book, {})
    ensures s.out == {} && s.failed == {} && s.stuck == {} && old(AskedFor(s.book)) <= AskedFor(s.book)
    ensures Further(world, old(Got(s.book)), Got(s.book))
  {
    hide *;
    RestedIs(s, world, calling);
    ghost var b := s.book;
    var hashes, tasks := s.Missing(0);
    ghost var m := s.book;
    assert s.out == Elems(hashes);
    AllHanded(world, calling, b, m, tasks, hashes);
    FetchFaithful(b, m, world);
    FetchedWanted(world, hashes);
    var results := Fetched(world, hashes);
    ProcessAll(s, results, world, calling);
    DeliverFaithful(m, s.book, world, Deliver(results));
    FetchedMore(world, calling, b, m, s.book, hashes, results);
  }

  lemma FetchedMore(world: Blobs, calling: set<Hash>, b: Book, m: Book, c: Book, hashes: seq<Hash>,
                    results: seq<SyncResult>)
    requires Served(world, calling, b, {}) && b.batch == map[] && m == b.(queue := []) && hashes != []
    requires Delivered(m, c, results) && AllHold(c, results, |results|) && |results| == |hashes|
    requires results[0].hash == hashes[0] && Open(b, hashes[0]) && hashes[0] in world
    ensures Further(world, Got(b), Got(c))
  {
    hide Delivered, AllHold, Ready, QueueOk, Got;
    GotSame(b, m);
    GotMore(m, c, results, hashes[0]);
  }

  /** Everything missing is fetched, processed and written. */
  method Round(s: Sync, world: Blobs, ghost calling: set<Hash>)
    requires Rested(s, world, calling) && s.book.queue != []
    modifies s
    ensures Rested(s, world, calling) && old(AskedFor(s.book)) <= AskedFor(s.book)
    ensures |world.Keys - Got(s.book)| < |world.Keys - old(Got(s.book))|
  {
    hide *;
    ghost var b := s.book;
    RestedIs(s, world, calling);
    FetchAll(s, world, calling);
    ghost var m := s.book;
    SaveAll(s, world, calling);
    Rests(s, world, calling);
    FewerLeft(world, Got(b), Got(m));
  }

  /** Everything in the batch is written. */
  method SaveAll(s: Sync, ghost world: Blobs, ghost calling: set<Hash>)
    requires s.Valid() && Faithful(s.book, world) && Served(world, calling, s.book, {})
    modifies s`book
    ensures s.Valid() && Faithful(s.book, world) && Served(world, calling, s.book, {})
    ensures s.book.batch == map[] && Got(s.book) == old(Got(s.book)) && old(AskedFor(s.book)) <= AskedFor(s.book)
  {
    hide *;
    ghost var m := s.book;
    ValidIs(s);
    GoodApart(s.h, s.cb, m, s.out, s.stuck);
    var written, ok := s.Commit(|s.book.order|);
    SaveFaithful(m, s.book, world);
    ServedWritten(world, calling, m, s.book, {});
    GotSame(m, s.book);
  }

  lemma GoodApart(h: Hasher, cb: Callback, b: Book, out: set<Hash>, stuck: set<Hash>)
    requires Good(h, cb, b, out, stuck)
    ensures Apart(b)
  {
    hide Good, Apart;
    GoodFacts(h, cb, b, out, stuck, []);
  }

  lemma FewerLeft(world: Blobs, a: set<Hash>, b: set<Hash>)
    requires Further(world, a, b)
    ensures |world.Keys - b| < |world.Keys - a|
  {
    var x :| x in world && x in b && x !in a;
    Smaller(world.Keys - b, world.Keys - a, x);
  }

  lemma Smaller(a: set<Hash>, b: set<Hash>, x: Hash)
    requires a <= b && x in b && x !in a
    ensures |a| < |b|
  {
    Subset(a, b - {x});
  }

  lemma {:induction false} Subset(a: set<Hash>, b: set<Hash>)
    requires a <= b
    ensures |a| <= |b|
  {
    if a != {} {
      var x :| x in a;
      Subset(a - {x}, b - {x});
    }
  }

  /** Rounds until nothing is missing. */
  method Drive(s: Sync, world: Blobs, ghost calling: set<Hash>)
    requires Rested(s, world, calling)
    modifies s
    ensures Rested(s, world, calling) && Finished(s) && old(AskedFor(s.book)) <= AskedFor(s.book)
  {
    hide *;
    while s.book.queue != []
      invariant Rested(s, world, calling) && old(AskedFor(s.book)) <= AskedFor(s.book)
      decreases |world.Keys - Got(s.book)|
    {
      Round(s, world, calling);
    }
    RestedIs(s, world, calling);
    FinishedIs(s);
  }

  // ----- from the beginning to the end -----

  /** A new sync asks for what can be had. */
  lemma NewServed(h: Hasher, cb: Callback, world: Blobs, calling: set<Hash>, root: Hash, callback: bool)
    requires NodeIn(world, root) && (callback ==> root in calling)
    ensures var b := Book(map[], map[], [], map[], [], map[]);
            Served(world, calling, Schedule(b, root, Request(None, false, [], 0, 0, callback, false)), {})
    ensures Schedule(Book(map[], map[], [], map[], [], map[]), root,
                     Request(None, false, [], 0, 0, callback, false)).batch == map[]
    ensures Faithful(Book(map[], map[], [], map[], [], map[]), world)
  {
    hide NodeIn, Served;
    var b, r := Book(map[], map[], [], map[], [], map[]), Request(None, false, [], 0, 0, callback, false);
    EmptyServed(world, calling);
    ReadyNode(world, calling, root, r);
    ServedSchedule(world, calling, b, {}, root, r);
  }

  lemma EmptyServed(world: Blobs, calling: set<Hash>)
    ensures Served(world, calling, Book(map[], map[], [], map[], [], map[]), {})
  {
    hide Ready;
  }

  /**
   A sync into an empty database, driven until nothing is missing: it ends, nothing is
   pending, and the whole trie is there.
   */
  method SyncToEnd(h: Hasher, cb: Callback, world: Blobs, root: Hash, callback: bool, ghost calling: set<Hash>,
                   ghost t: Tree, ghost encs: set<seq<byte>>)
    returns (s: Sync)
    requires Complete(h, cb, world, calling) && NodeIn(world, root) && (callback ==> root in calling)
    requires root == HashOf(h, t) && root != h([0x80]) && TrieUnique.Known(h, encs, t)
    requires Genuine(h, world, encs) && NeverRaw(h, cb, {}, encs) && !HasCycle(References(h, cb, world))
    ensures fresh(s) && s.Valid() && Finished(s) && s.book.requests == map[]
    ensures TrieRep.Stored(Env(h, s.book.db, true), t)
  {
    hide *;
    EmptyNoted(h, cb);
    NewServed(h, cb, world, calling, root, callback);
    s := new Sync(h, cb, map[], map[], root, callback, {});
    StartFaithful(h, map[], map[], root, callback, s.book, world);
    Rests(s, world, calling);
    Drive(s, world, calling);
    RestedIs(s, world, calling);
    FinishedStores(s, world, t, encs);
  }
}
