/**
 The steps of the trie sync scheduler (trie/sync.go) on its state: what scheduling,
 raising and lowering deps and moving to the batch keep.
 */
module SyncSteps {
  import opened Bytes
  import opened TrieNode
  import opened SyncBook
  import opened C = Cycles

  /** An entry of the priority queue. */
  datatype Task = Task(hash: Hash, depth: nat)

  type Kinds = map<Hash, Kind>

  /**
   The state of a Sync: the database, the batch not yet written with its order, the
   pending requests and the queue. kinds notes what each hash was requested as; it
   only serves to say what an entry needs.
   */
  datatype Book = Book(db: Blobs, batch: Blobs, order: seq<Hash>, requests: Requests, queue: seq<Task>, kinds: Kinds)

  /** What is written or about to be written. */
  ghost function Have(b: Book): set<Hash> { b.db.Keys + b.batch.Keys }

  ghost function Elems(xs: seq<Hash>): set<Hash> { set x | x in xs }

  /** Entry number i of the batch comes after what it needs. */
  ghost predicate Follows(h: Hasher, cb: Callback, kinds: Kinds, keys: set<Hash>, batch: Blobs, order: seq<Hash>,
                          i: nat)
    requires i < |order|
  {
    order[i] in batch && Needed(h, cb, kinds, order[i], batch[order[i]]) <= keys + Elems(order[..i])
  }

  /** Every entry of the batch comes after what it needs. */
  ghost predicate Ordered(h: Hasher, cb: Callback, kinds: Kinds, keys: set<Hash>, batch: Blobs, order: seq<Hash>)
  {
    batch.Keys == Elems(order) && forall i :: 0 <= i < |order| ==> Follows(h, cb, kinds, keys, batch, order, i)
  }

  /** A request with data has all that it needs, or waits for it. */
  ghost predicate Settled(h: Hasher, cb: Callback, kinds: Kinds, have: set<Hash>, rs: Requests, p: Hash)
  {
    && p in rs && rs[p].data.Some?
    && (forall k :: k in Needed(h, cb, kinds, p, rs[p].data.value) ==> Reached(have, rs, p, k))
  }

  ghost predicate Waits(h: Hasher, cb: Callback, kinds: Kinds, have: set<Hash>, rs: Requests, busy: set<Hash>)
  {
    forall p :: p in rs && p !in busy && rs[p].deps > 0 ==> Settled(h, cb, kinds, have, rs, p)
  }

  /** A pending request is not in the batch, and it is known what it was requested as. */
  ghost predicate Pending(kinds: Kinds, batch: Blobs, rs: Requests)
  {
    forall p :: p in rs ==> p !in batch && p in kinds && kinds[p] == KindOf(rs[p])
  }

  /** What holds between steps; busy requests are just being processed. */
  ghost predicate Steady(h: Hasher, cb: Callback, b: Book, flight: multiset<Hash>, busy: set<Hash>)
  {
    && Closed(h, cb, b.kinds, b.db) && Ordered(h, cb, b.kinds, b.db.Keys, b.batch, b.order)
    && Links(b.requests, flight) && Waits(h, cb, b.kinds, Have(b), b.requests, busy)
    && Pending(b.kinds, b.batch, b.requests)
  }

  /** A request with data waits for something, unless its callback failed without announcing anything. */
  ghost predicate Live(rs: Requests, busy: set<Hash>, stuck: set<Hash>)
  {
    forall p :: p in rs && p !in busy && p !in stuck && rs[p].data.Some? ==> rs[p].deps > 0
  }

  /** What a request with data may wait for. */
  ghost function KidsOf(h: Hasher, cb: Callback, p: Hash, r: Request): set<Hash>
  {
    if r.data.None? then {} else NeededAs(h, cb, if r.callback then Calling else Plain, p, r.data.value)
  }

  /** A request waits only for what its data refers to. */
  ghost predicate Caused(h: Hasher, cb: Callback, rs: Requests)
  {
    forall c, p :: c in rs && p in rs[c].parents && p in rs ==> c in KidsOf(h, cb, p, rs[p])
  }

  ghost predicate InQueue(queue: seq<Task>, p: Hash) { exists t :: t in queue && t.hash == p }

  /** What has not arrived is in the queue or has been handed out, and its callback has not failed. */
  ghost predicate Queued(b: Book, out: set<Hash>)
  {
    forall p :: p in b.requests && b.requests[p].data.None? ==> !b.requests[p].cut && (p in out || InQueue(b.queue, p))
  }

  // ----- who waits goes on waiting -----

  /** Whatever was reached or waited for still is. */
  ghost predicate Keeps(have: set<Hash>, rs: Requests, have': set<Hash>, rs': Requests)
  {
    have <= have' && forall k, p :: k in rs && p in rs[k].parents ==> Reached(have', rs', p, k)
  }

  lemma SettledKeeps(h: Hasher, cb: Callback, kinds: Kinds, have: set<Hash>, rs: Requests, have': set<Hash>,
                     rs': Requests, p: Hash)
    requires Settled(h, cb, kinds, have, rs, p) && Keeps(have, rs, have', rs') && p in rs' && rs'[p].data == rs[p].data
    ensures Settled(h, cb, kinds, have', rs', p)
  {
    hide Needed;
    forall k | k in Needed(h, cb, kinds, p, rs[p].data.value) ensures Reached(have', rs', p, k) {
      assert Reached(have, rs, p, k);
    }
  }

  lemma WaitsKeep(h: Hasher, cb: Callback, kinds: Kinds, have: set<Hash>, rs: Requests, busy: set<Hash>,
                  have': set<Hash>, rs': Requests, busy': set<Hash>)
    requires Waits(h, cb, kinds, have, rs, busy) && Keeps(have, rs, have', rs')
    requires forall q :: q in rs' && q !in busy' && rs'[q].deps > 0 ==>
                 q in rs && q !in busy && rs[q].deps > 0 && rs'[q].data == rs[q].data
    ensures Waits(h, cb, kinds, have', rs', busy')
  {
    hide Settled, Keeps;
    forall q | q in rs' && q !in busy' && rs'[q].deps > 0 ensures Settled(h, cb, kinds, have', rs', q) {
      SettledKeeps(h, cb, kinds, have, rs, have', rs', q);
    }
  }

  // ----- commit -----

  /** commit, first part: the request moves to the batch. */
  function Moved(b: Book, x: Hash): Book
    requires x in b.requests && b.requests[x].data.Some?
  {
    b.(batch := b.batch[x := b.requests[x].data.value], order := b.order + [x], requests := b.requests - {x})
  }

  lemma MoveSteady(h: Hasher, cb: Callback, b: Book, flight: multiset<Hash>, x: Hash)
    requires Steady(h, cb, b, flight, {x}) && x in b.requests && b.requests[x].data.Some? && b.requests[x].deps == 0
    requires Needed(h, cb, b.kinds, x, b.requests[x].data.value) <= Have(b)
    ensures Steady(h, cb, Moved(b, x), flight + multiset(b.requests[x].parents), {})
  {
    hide Needed, Links, Ordered, Waits, Closed, Pending, Keeps;
    RemoveLinks(b.requests, flight, x);
    MovePending(b.kinds, b.batch, b.requests, x, b.requests[x].data.value);
    MoveOrdered(h, cb, b.kinds, b.db.Keys, b.batch, b.order, x, b.requests[x].data.value);
    MoveKeeps(b, x);
    WaitsKeep(h, cb, b.kinds, Have(b), b.requests, {x}, Have(Moved(b, x)), b.requests - {x}, {});
  }

  lemma MovePending(kinds: Kinds, batch: Blobs, rs: Requests, x: Hash, data: seq<byte>)
    requires Pending(kinds, batch, rs) && x in rs
    ensures x !in batch && Pending(kinds, batch[x := data], rs - {x})
  {
  }

  lemma MoveKeeps(b: Book, x: Hash)
    requires x in b.requests && b.requests[x].data.Some?
    ensures Keeps(Have(b), b.requests, Have(Moved(b, x)), b.requests - {x})
  {
  }

  lemma MoveOrdered(h: Hasher, cb: Callback, kinds: Kinds, keys: set<Hash>, batch: Blobs, order: seq<Hash>, x: Hash,
                    data: seq<byte>)
    requires Ordered(h, cb, kinds, keys, batch, order) && x !in batch
    requires Needed(h, cb, kinds, x, data) <= keys + batch.Keys
    ensures Ordered(h, cb, kinds, keys, batch[x := data], order + [x])
  {
    hide Needed;
    var more, big := order + [x], batch[x := data];
    assert Elems(more) == Elems(order) + {x};
    forall i | 0 <= i < |more| ensures Follows(h, cb, kinds, keys, big, more, i) {
      if i < |order| {
        assert more[..i] == order[..i];
        assert Follows(h, cb, kinds, keys, batch, order, i);
      } else {
        assert more[..i] == order;
      }
    }
  }

  /** commit, second part: a parent has one thing less to wait for. */
  function Lowered(b: Book, p: Hash): Book
    requires p in b.requests && b.requests[p].deps > 0
  {
    b.(requests := b.requests[p := b.requests[p].(deps := b.requests[p].deps - 1)])
  }

  lemma LowerSteady(h: Hasher, cb: Callback, b: Book, flight: multiset<Hash>, p: Hash)
    requires Steady(h, cb, b, flight + multiset{p}, {})
    ensures p in b.requests && b.requests[p].deps > 0 && b.requests[p].data.Some?
    ensures Steady(h, cb, Lowered(b, p), flight, {})
    ensures b.requests[p].deps == 1 ==> Needed(h, cb, b.kinds, p, b.requests[p].data.value) <= Have(b)
  {
    hide Needed, Links, Ordered, Closed, Settled, Keeps, Pending, Waits, Have;
    LowerLinks(b.requests, flight, p);
    var c := Lowered(b, p);
    ChangePending(b.kinds, b.batch, b.requests, p, c.requests[p]);
    ChangeKeeps(Have(b), b.requests, p, c.requests[p]);
    LowerWaits(h, cb, b.kinds, Have(b), b.requests, p);
    HaveSame(b, c);
    if b.requests[p].deps == 1 { LastNeed(h, cb, c.kinds, Have(c), c.requests, flight, p); }
  }

  lemma HaveSame(b: Book, c: Book)
    requires b.db == c.db && b.batch == c.batch
    ensures Have(b) == Have(c)
  {
  }

  lemma LowerWaits(h: Hasher, cb: Callback, kinds: Kinds, have: set<Hash>, rs: Requests, p: Hash)
    requires Waits(h, cb, kinds, have, rs, {}) && p in rs && rs[p].deps > 0
    ensures var qs := rs[p := rs[p].(deps := rs[p].deps - 1)];
            rs[p].data.Some? && Waits(h, cb, kinds, have, qs, {}) && Settled(h, cb, kinds, have, qs, p)
  {
    hide Needed, Keeps, Reached;
    var r := rs[p].(deps := rs[p].deps - 1);
    ChangeKeeps(have, rs, p, r);
    WaitsKeep(h, cb, kinds, have, rs, {}, have, rs[p := r], {});
    assert Settled(h, cb, kinds, have, rs, p);
    SettledKeeps(h, cb, kinds, have, rs, have, rs[p := r], p);
  }

  /** Changing a request other than its parents and its kind. */
  lemma ChangeKeeps(have: set<Hash>, rs: Requests, p: Hash, r: Request)
    requires p in rs && r.parents == rs[p].parents
    ensures Keeps(have, rs, have, rs[p := r])
  {
  }

  lemma ChangePending(kinds: Kinds, batch: Blobs, rs: Requests, p: Hash, r: Request)
    requires Pending(kinds, batch, rs) && p in rs && KindOf(r) == KindOf(rs[p])
    ensures Pending(kinds, batch, rs[p := r])
  {
  }

  /** A settled request that nothing pending counts on has all that it needs. */
  lemma LastNeed(h: Hasher, cb: Callback, kinds: Kinds, have: set<Hash>, rs: Requests, flight: multiset<Hash>, p: Hash)
    requires Links(rs, flight) && Settled(h, cb, kinds, have, rs, p) && rs[p].deps == 0
    ensures Needed(h, cb, kinds, p, rs[p].data.value) <= have
  {
    hide Needed, Linked, Reached;
    forall k | k in Needed(h, cb, kinds, p, rs[p].data.value) ensures k in have {
      NotWaiting(rs, have, p, k);
    }
  }

  // ----- schedule -----

  /** schedule on the whole state. */
  function Schedule(b: Book, x: Hash, r: Request): Book
  {
    if x in b.requests then b.(requests := Scheduled(b.requests, x, r))
    else b.(requests := Scheduled(b.requests, x, r), queue := b.queue + [Task(x, r.depth)], kinds := b.kinds[x := KindOf(r)])
  }

  /** Not in the batch, and not a node in the database. */
  ghost predicate Absent(b: Book, x: Hash)
  {
    x !in b.batch && (x in b.db ==> DecodeNode(Some(x), b.db[x], 0).Err?)
  }

  lemma ScheduleSteady(h: Hasher, cb: Callback, b: Book, flight: multiset<Hash>, busy: set<Hash>, x: Hash, r: Request)
    requires Steady(h, cb, b, flight + multiset(r.parents), busy) && r.deps == 0 && r.data.None? && Absent(b, x)
    ensures Steady(h, cb, Schedule(b, x, r), flight, busy)
  {
    hide Needed, Links, Ordered, Closed, Settled, Waits, Scheduled, Absent, Pending, Keeps, Have;
    ScheduleLinks(b.requests, flight, x, r);
    ScheduleKeeps(Have(b), b.requests, x, r);
    ScheduledOnes(b.requests, x, r);
    WaitsKeep(h, cb, b.kinds, Have(b), b.requests, busy, Have(b), Scheduled(b.requests, x, r), busy);
    HaveSame(b, Schedule(b, x, r));
    SchedulePending(b, x, r);
    if x !in b.requests {
      NewKind(h, cb, b, x, KindOf(r));
      NewKindWaits(h, cb, b.kinds, Have(b), Scheduled(b.requests, x, r), busy, x, KindOf(r));
    }
  }

  lemma ScheduledOnes(rs: Requests, x: Hash, r: Request)
    requires r.deps == 0
    ensures forall q :: q in Scheduled(rs, x, r) && Scheduled(rs, x, r)[q].deps > 0 ==>
              q in rs && rs[q].deps > 0 && Scheduled(rs, x, r)[q].data == rs[q].data
    ensures x in Scheduled(rs, x, r) && (x !in rs ==> Scheduled(rs, x, r)[x].deps == 0)
  {
  }

  lemma ScheduleKeeps(have: set<Hash>, rs: Requests, x: Hash, r: Request)
    ensures Keeps(have, rs, have, Scheduled(rs, x, r))
    ensures forall p :: p in r.parents ==> Reached(have, Scheduled(rs, x, r), p, x)
  {
  }

  lemma SchedulePending(b: Book, x: Hash, r: Request)
    requires Pending(b.kinds, b.batch, b.requests) && Absent(b, x)
    ensures var c := Schedule(b, x, r);
            Pending(c.kinds, c.batch, c.requests)
  {
    hide DecodeNode;
  }

  /** A hash that is not in the batch, and at most undecodable in the database, may change its kind. */
  lemma NewKind(h: Hasher, cb: Callback, b: Book, x: Hash, k: Kind)
    requires Closed(h, cb, b.kinds, b.db) && Ordered(h, cb, b.kinds, b.db.Keys, b.batch, b.order) && Absent(b, x)
    ensures Closed(h, cb, b.kinds[x := k], b.db) && Ordered(h, cb, b.kinds[x := k], b.db.Keys, b.batch, b.order)
  {
    hide NeededBy, DecodeNode;
    var kinds := b.kinds[x := k];
    forall i | 0 <= i < |b.order| ensures Follows(h, cb, kinds, b.db.Keys, b.batch, b.order, i) {
      assert Follows(h, cb, b.kinds, b.db.Keys, b.batch, b.order, i);
    }
  }

  lemma NewKindWaits(h: Hasher, cb: Callback, kinds: Kinds, have: set<Hash>, rs: Requests, busy: set<Hash>, x: Hash,
                     k: Kind)
    requires Waits(h, cb, kinds, have, rs, busy) && x in rs && rs[x].deps == 0
    ensures Waits(h, cb, kinds[x := k], have, rs, busy)
  {
    hide Reached, Needed;
    forall p | p in rs && p !in busy && rs[p].deps > 0 ensures Settled(h, cb, kinds[x := k], have, rs, p) {
      assert Settled(h, cb, kinds, have, rs, p);
      OtherKind(h, cb, kinds, x, k, p, rs[p].data.value);
    }
  }

  lemma OtherKind(h: Hasher, cb: Callback, kinds: Kinds, x: Hash, k: Kind, p: Hash, data: seq<byte>)
    requires p != x
    ensures Needed(h, cb, kinds[x := k], p, data) == Needed(h, cb, kinds, p, data)
  {
    hide DecodeNode, NeededBy;
  }

  /** deps of a busy request is raised by n. */
  function Raised(b: Book, p: Hash, n: nat): Book
    requires p in b.requests
  {
    b.(requests := b.requests[p := b.requests[p].(deps := b.requests[p].deps + n)])
  }

  lemma RaiseSteady(h: Hasher, cb: Callback, b: Book, flight: multiset<Hash>, busy: set<Hash>, p: Hash, n: nat)
    requires Steady(h, cb, b, flight, busy) && p in b.requests && p in busy
    ensures Steady(h, cb, Raised(b, p, n), flight + Times(p, n), busy)
  {
    hide Needed, Links, Ordered, Closed, Settled, Keeps, Pending, Waits, Have, Times, Raised;
    RaiseParts(h, cb, b, flight, busy, p, n);
  }

  lemma RaiseParts(h: Hasher, cb: Callback, b: Book, flight: multiset<Hash>, busy: set<Hash>, p: Hash, n: nat)
    requires Links(b.requests, flight) && Waits(h, cb, b.kinds, Have(b), b.requests, busy) &&
             Pending(b.kinds, b.batch, b.requests)
    requires p in b.requests && p in busy
    ensures var c := Raised(b, p, n);
            && c == b.(requests := c.requests) && Links(c.requests, flight + Times(p, n))
            && Waits(h, cb, c.kinds, Have(c), c.requests, busy) && Pending(c.kinds, c.batch, c.requests)
  {
    hide *;
    var r := MoreDeps(b.requests, p, n);
    RaiseLinks(b.requests, flight, p, n);
    RaisedIs(b, p, n);
    HaveSame(b, Raised(b, p, n));
    BusyChange(h, cb, b.kinds, Have(b), b.batch, b.requests, busy, p, r);
  }

  function MoreDeps(rs: Requests, p: Hash, n: nat): Request
    requires p in rs
  {
    rs[p].(deps := rs[p].deps + n)
  }

  lemma RaisedIs(b: Book, p: Hash, n: nat)
    requires p in b.requests
    ensures Raised(b, p, n) == b.(requests := b.requests[p := MoreDeps(b.requests, p, n)])
    ensures MoreDeps(b.requests, p, n) == b.requests[p].(deps := b.requests[p].deps + n)
    ensures KindOf(MoreDeps(b.requests, p, n)) == KindOf(b.requests[p])
  {
  }

  /** A busy request may change apart from its parents and its kind. */
  lemma BusyChange(h: Hasher, cb: Callback, kinds: Kinds, have: set<Hash>, batch: Blobs, rs: Requests,
                   busy: set<Hash>, p: Hash, r: Request)
    requires Waits(h, cb, kinds, have, rs, busy) && Pending(kinds, batch, rs) && p in rs && p in busy
    requires r.parents == rs[p].parents && KindOf(r) == KindOf(rs[p])
    ensures Waits(h, cb, kinds, have, rs[p := r], busy) && Pending(kinds, batch, rs[p := r])
  {
    hide Keeps, Pending, Waits;
    ChangePending(kinds, batch, rs, p, r);
    ChangeKeeps(have, rs, p, r);
    WaitsKeep(h, cb, kinds, have, rs, busy, have, rs[p := r], busy);
  }

  /** The data of a request has arrived. */
  function Filled(b: Book, p: Hash, data: seq<byte>): Book
    requires p in b.requests
  {
    b.(requests := b.requests[p := b.requests[p].(data := Some(data))])
  }

  lemma FillSteady(h: Hasher, cb: Callback, b: Book, flight: multiset<Hash>, p: Hash, data: seq<byte>)
    requires Steady(h, cb, b, flight, {}) && p in b.requests
    ensures Steady(h, cb, Filled(b, p, data), flight, {p})
  {
    hide Needed, Links, Ordered, Closed, Settled, Keeps, Pending, Waits, Have;
    DataLinks(b.requests, flight, p, data);
    var r := b.requests[p].(data := Some(data));
    ChangePending(b.kinds, b.batch, b.requests, p, r);
    ChangeKeeps(Have(b), b.requests, p, r);
    HaveSame(b, Filled(b, p, data));
    WaitsKeep(h, cb, b.kinds, Have(b), b.requests, {}, Have(b), b.requests[p := r], {p});
  }

  // ----- the scheduler -----

  /** What commit may change: requests leave for the batch, and deps go down. */
  ghost predicate Drained(b: Book, c: Book)
  {
    && c.db == b.db && c.queue == b.queue && c.kinds == b.kinds
    && (forall q :: q in b.batch ==> q in c.batch && c.batch[q] == b.batch[q])
    && (forall q :: q in b.requests && q !in c.requests ==> q in c.batch && b.requests[q].data == Some(c.batch[q]))
    && (forall q :: q in c.requests ==> q in b.requests && c.requests[q] == b.requests[q].(deps := c.requests[q].deps))
    && (forall q :: q in c.batch ==> q in b.batch || q in b.requests)
    && |c.requests| <= |b.requests|
  }

  /** The data delivered for x is in the batch or with its request. */
  ghost predicate Holds(b: Book, x: Hash, data: seq<byte>)
  {
    || (x in b.batch && b.batch[x] == data)
    || (x in b.requests && b.requests[x].data == Some(data))
  }

  /** Nothing that was delivered is lost or altered. */
  ghost predicate Carries(b: Book, c: Book)
  {
    forall x, data :: Holds(b, x, data) ==> Holds(c, x, data)
  }

  lemma DrainedSize(b: Book, c: Book)
    requires Drained(b, c)
    ensures |c.requests| <= |b.requests|
  {
  }

  lemma DrainedTwice(a: Book, b: Book, c: Book)
    requires Drained(a, b) && Drained(b, c)
    ensures Drained(a, c)
  {
  }

  lemma MoveDrained(b: Book, x: Hash)
    requires x in b.requests && b.requests[x].data.Some? && x !in b.batch
    ensures Drained(b, Moved(b, x)) && |Moved(b, x).requests| < |b.requests|
  {
    assert (b.requests - {x}).Keys == b.requests.Keys - {x};
    assert |(b.requests - {x}).Keys| == |b.requests.Keys| - 1;
  }

  lemma LowerDrained(b: Book, p: Hash)
    requires p in b.requests && b.requests[p].deps > 0
    ensures Drained(b, Lowered(b, p)) && |Lowered(b, p).requests| == |b.requests|
  {
    assert Lowered(b, p).requests.Keys == b.requests.Keys;
  }

  /** What may change while request x is processed: it gets new children from the given set. */
  ghost predicate Grown(b: Book, c: Book, x: Hash, kids: set<Hash>)
  {
    && c.db == b.db && c.batch == b.batch && c.order == b.order
    && (forall q :: q in b.requests ==> q in c.requests && GrownRequest(b.requests[q], c.requests[q], q == x))
    && (forall q :: q in b.requests && q in b.kinds ==> q in c.kinds && c.kinds[q] == b.kinds[q])
    && (forall q :: q in c.requests && q !in b.requests ==>
          c.requests[q].data.None? && !c.requests[q].cut && InQueue(c.queue, q))
    && (forall q :: InQueue(b.queue, q) ==> InQueue(c.queue, q))
    && (forall q, p :: q in c.requests && p in c.requests[q].parents ==>
          (q in b.requests && p in b.requests[q].parents) || (p == x && q in kids))
  }

  ghost predicate GrownRequest(r: Request, s: Request, busy: bool)
  {
    && s.data == r.data && s.raw == r.raw && s.callback == r.callback && s.cut == r.cut
    && r.parents <= s.parents && (busy || s.deps == r.deps)
  }

  lemma GrownSelf(b: Book, x: Hash, kids: set<Hash>)
    ensures Grown(b, b, x, kids)
  {
  }

  lemma GrownTwice(a: Book, b: Book, c: Book, x: Hash, kids: set<Hash>, more: set<Hash>)
    requires Grown(a, b, x, kids) && Grown(b, c, x, more)
    ensures Grown(a, c, x, kids + more)
  {
    hide InQueue;
    forall q | q in a.requests ensures q in c.requests && GrownRequest(a.requests[q], c.requests[q], q == x) {
      assert GrownRequest(a.requests[q], b.requests[q], q == x) && GrownRequest(b.requests[q], c.requests[q], q == x);
    }
  }

  lemma GrownReached(b: Book, c: Book, x: Hash, kids: set<Hash>, k: Hash)
    requires Grown(b, c, x, kids) && Reached(Have(b), b.requests, x, k)
    ensures Reached(Have(c), c.requests, x, k)
  {
    hide InQueue;
    if k in b.requests { assert GrownRequest(b.requests[k], c.requests[k], k == x); }
  }

  lemma RaiseGrown(b: Book, x: Hash, n: nat)
    requires x in b.requests
    ensures Grown(b, Raised(b, x, n), x, {})
  {
  }

  lemma ScheduleGrown(b: Book, x: Hash, k: Hash, r: Request)
    requires r.data.None? && !r.cut && (r.parents == [] || r.parents == [x])
    ensures Grown(b, Schedule(b, k, r), x, if r.parents == [] then {} else {k})
  {
    var c := Schedule(b, k, r);
    if k !in b.requests { assert Task(k, r.depth) in c.queue; }
    forall q | InQueue(b.queue, q) ensures InQueue(c.queue, q) {
      var t :| t in b.queue && t.hash == q;
      assert t in c.queue;
    }
  }

  datatype Outcome = Stored | Waiting | NotRequested | AlreadyProcessed | BadNode(error: NodeError) | CallbackFailed

  lemma RawNeeds(h: Hasher, cb: Callback, b: Book, x: Hash, data: seq<byte>)
    requires Steady(h, cb, b, multiset{}, {}) && x in b.requests && b.requests[x].raw
    ensures Needed(h, cb, b.kinds, x, data) == {}
  {
    hide Steady;
    NotInBatch(h, cb, b, multiset{}, {}, x);
  }

  lemma FillOk(h: Hasher, cb: Callback, b: Book, x: Hash, data: seq<byte>, stuck: set<Hash>)
    requires Steady(h, cb, b, multiset{}, {}) && Live(b.requests, {}, stuck) && x in b.requests &&
             b.requests[x].data.None?
    ensures var c := Filled(b, x, data);
            && Steady(h, cb, c, multiset{}, {x}) && Live(c.requests, {x}, stuck) && x in c.requests
            && c == b.(requests := c.requests) && c.requests[x] == b.requests[x].(data := Some(data))
            && c.requests[x].deps == 0
            && Calls(c, x) == Calls(b, x)
  {
    hide Steady;
    FillSteady(h, cb, b, multiset{}, x, data);
    NoDataNoDeps(h, cb, b, x);
  }

  lemma NoDataNoDeps(h: Hasher, cb: Callback, b: Book, x: Hash)
    requires Steady(h, cb, b, multiset{}, {}) && x in b.requests && b.requests[x].data.None?
    ensures b.requests[x].deps == 0
  {
    hide Links, Ordered, Closed, Needed, Pending, Have;
  }

  /** After a commit, what was in order about links and the queue still is. */
  lemma DrainedOk(h: Hasher, cb: Callback, b: Book, filled: Book, c: Book, x: Hash, data: seq<byte>, out: set<Hash>)
    requires x in b.requests && b.requests[x].data.None? && filled == Filled(b, x, data) && Drained(filled, c)
    ensures Queued(b, out) ==> Queued(c, out - {x})
    ensures Caused(h, cb, b.requests) ==> Caused(h, cb, c.requests)
    ensures c.db == b.db && (x !in c.requests ==> x in c.batch && c.batch[x] == data)
  {
    hide *;
    if Caused(h, cb, b.requests) {
      FilledCaused(h, cb, b, x, data);
      DrainedCaused(h, cb, filled, c);
    }
    if Queued(b, out) {
      FilledQueued(b, x, data, out);
      DrainedQueued(filled, c, out - {x});
    }
    DrainedData(b, filled, c, x, data);
  }

  lemma FilledQueued(b: Book, x: Hash, data: seq<byte>, out: set<Hash>)
    requires x in b.requests && Queued(b, out)
    ensures Queued(Filled(b, x, data), out - {x})
  {
    hide InQueue;
  }

  lemma DrainedQueued(b: Book, c: Book, out: set<Hash>)
    requires Drained(b, c) && Queued(b, out)
    ensures Queued(c, out)
  {
    hide InQueue;
  }

  lemma DrainedData(b: Book, filled: Book, c: Book, x: Hash, data: seq<byte>)
    requires x in b.requests && filled == Filled(b, x, data) && Drained(filled, c)
    ensures c.db == b.db && (x !in c.requests ==> x in c.batch && c.batch[x] == data)
  {
  }

  lemma FilledCaused(h: Hasher, cb: Callback, b: Book, x: Hash, data: seq<byte>)
    requires x in b.requests && b.requests[x].data.None? && Caused(h, cb, b.requests)
    ensures Caused(h, cb, Filled(b, x, data).requests)
  {
    hide *;
    var rs := Filled(b, x, data).requests;
    forall k, p | k in rs && p in rs[k].parents && p in rs ensures k in KidsOf(h, cb, p, rs[p]) {
      FilledLink(h, cb, b, x, data, k, p);
      CausedAt(h, cb, b.requests, k, p);
      SameKids(h, cb, p, b.requests[p], rs[p]);
    }
    CausedFrom(h, cb, rs);
  }

  /** Nobody waits as x before x has its data. */
  lemma FilledLink(h: Hasher, cb: Callback, b: Book, x: Hash, data: seq<byte>, k: Hash, p: Hash)
    requires x in b.requests && b.requests[x].data.None? && Caused(h, cb, b.requests)
    requires var rs := Filled(b, x, data).requests; k in rs && p in rs[k].parents && p in rs
    ensures k in b.requests && p in b.requests[k].parents && p in b.requests
    ensures var rs := Filled(b, x, data).requests; rs[p] == b.requests[p]
  {
    hide NeededAs;
    if p == x { CausedAt(h, cb, b.requests, k, x); }
  }

  lemma DrainedCaused(h: Hasher, cb: Callback, b: Book, c: Book)
    requires Drained(b, c) && Caused(h, cb, b.requests)
    ensures Caused(h, cb, c.requests)
  {
    hide *;
    var rs := c.requests;
    forall k, p | k in rs && p in rs[k].parents && p in rs ensures k in KidsOf(h, cb, p, rs[p]) {
      DrainedLink(b, c, k, p);
      CausedAt(h, cb, b.requests, k, p);
      SameKids(h, cb, p, b.requests[p], rs[p]);
    }
    CausedFrom(h, cb, rs);
  }

  lemma DrainedLink(b: Book, c: Book, k: Hash, p: Hash)
    requires Drained(b, c) && k in c.requests && p in c.requests[k].parents && p in c.requests
    ensures k in b.requests && p in b.requests[k].parents && p in b.requests
    ensures c.requests[p].data == b.requests[p].data && c.requests[p].callback == b.requests[p].callback
  {
  }

  lemma GrownCaused(h: Hasher, cb: Callback, b: Book, c: Book, x: Hash, kids: set<Hash>)
    requires Grown(b, c, x, kids) && Caused(h, cb, b.requests) && x in b.requests &&
             kids <= KidsOf(h, cb, x, b.requests[x])
    requires Linked(b.requests, multiset{})
    ensures Caused(h, cb, c.requests)
  {
    hide *;
    forall k, p | k in c.requests && p in c.requests[k].parents && p in c.requests
      ensures k in KidsOf(h, cb, p, c.requests[p])
    {
      GrownLink(h, cb, b, c, x, kids, k, p);
    }
    CausedFrom(h, cb, c.requests);
  }

  lemma CausedFrom(h: Hasher, cb: Callback, rs: Requests)
    requires forall c, p :: c in rs && p in rs[c].parents && p in rs ==> c in KidsOf(h, cb, p, rs[p])
    ensures Caused(h, cb, rs)
  {
    hide KidsOf;
  }

  lemma GrownLink(h: Hasher, cb: Callback, b: Book, c: Book, x: Hash, kids: set<Hash>, k: Hash, p: Hash)
    requires Grown(b, c, x, kids) && Caused(h, cb, b.requests) && x in b.requests &&
             kids <= KidsOf(h, cb, x, b.requests[x])
    requires Linked(b.requests, multiset{}) && k in c.requests && p in c.requests[k].parents && p in c.requests
    ensures k in KidsOf(h, cb, p, c.requests[p])
  {
    hide NeededAs, InQueue;
    assert p in b.requests;
    assert GrownRequest(b.requests[p], c.requests[p], p == x);
  }

  lemma RaiseOk(h: Hasher, cb: Callback, b: Book, x: Hash, n: nat, kids: set<Hash>)
    requires Steady(h, cb, b, multiset{}, {x}) && x in b.requests
    ensures var c := Raised(b, x, n);
            && Steady(h, cb, c, Times(x, n), {x}) && Grown(b, c, x, kids) && x in c.requests
            && c.requests[x].deps == b.requests[x].deps + n && Have(c) == Have(b)
  {
    hide *;
    RaiseSteady(h, cb, b, multiset{}, {x}, x, n);
    RaiseGrown(b, x, n);
    RaisedIs(b, x, n);
    GrownMore(b, Raised(b, x, n), x, {}, kids);
    NoFlight(x, n);
    HaveSame(b, Raised(b, x, n));
  }

  function Expected(b: Book, x: Hash, t: Task, callback: bool): Book
  {
    Schedule(b, t.hash, Request(None, false, [x], t.depth, 0, callback, false))
  }

  lemma ExpectOk(h: Hasher, cb: Callback, b: Book, x: Hash, t: Task, callback: bool, n: nat, kids: set<Hash>)
    requires n > 0 && Steady(h, cb, b, Times(x, n), {x}) && x in b.requests && t.hash in kids && t.hash !in Have(b)
    ensures var c := Expected(b, x, t, callback);
            && Steady(h, cb, c, Times(x, n - 1), {x}) && Grown(b, c, x, kids) && x in c.requests
            && c.requests[x].deps == b.requests[x].deps && Have(c) == Have(b) && Reached(Have(c), c.requests, x, t.hash)
  {
    hide *;
    var r := Request(None, false, [x], t.depth, 0, callback, false);
    var c := Expected(b, x, t, callback);
    ExpectedIs(b, x, t, callback);
    OneMore(x, n);
    NotThere(b, t.hash);
    ScheduleOk(h, cb, b, Times(x, n - 1), x, t.hash, r);
    ScheduleDeps(b, x, t.hash, r);
    GrownMore(b, c, x, {t.hash}, kids);
    GrownParts(b, c, x, kids);
    HaveSame(b, c);
  }

  lemma ExpectedIs(b: Book, x: Hash, t: Task, callback: bool)
    ensures Expected(b, x, t, callback) == Schedule(b, t.hash, Request(None, false, [x], t.depth, 0, callback, false))
  {
    hide Schedule;
  }

  ghost predicate TasksReached(b: Book, x: Hash, tasks: seq<Task>, i: nat)
    requires i <= |tasks|
  {
    forall j :: 0 <= j < i ==> Reached(Have(b), b.requests, x, tasks[j].hash)
  }

  lemma NoTaskReached(b: Book, x: Hash, tasks: seq<Task>)
    ensures TasksReached(b, x, tasks, 0)
  {
  }

  lemma NextTaskReached(b: Book, c: Book, x: Hash, tasks: seq<Task>, i: nat, kids: set<Hash>)
    requires i < |tasks| && TasksReached(b, x, tasks, i) && Grown(b, c, x, kids) &&
             Reached(Have(c), c.requests, x, tasks[i].hash)
    ensures TasksReached(c, x, tasks, i + 1)
  {
    hide Grown, Have, Reached;
    forall j | 0 <= j < i ensures Reached(Have(c), c.requests, x, tasks[j].hash) {
      GrownReached(b, c, x, kids, tasks[j].hash);
    }
  }

  lemma LastTaskReached(b: Book, x: Hash, tasks: seq<Task>)
    requires TasksReached(b, x, tasks, |tasks|)
    ensures forall t :: t in tasks ==> Reached(Have(b), b.requests, x, t.hash)
  {
    hide Have, Reached;
  }

  lemma NoFlight(x: Hash, n: nat)
    ensures multiset{} + Times(x, n) == Times(x, n)
    ensures n == 0 ==> Times(x, n) == multiset{}
  {
  }

  lemma OneMore(x: Hash, n: nat)
    requires n > 0
    ensures Times(x, n) == Times(x, n - 1) + multiset([x])
  {
  }

  lemma NotThere(b: Book, k: Hash)
    requires k !in Have(b)
    ensures Absent(b, k)
  {
  }

  lemma ScheduleDeps(b: Book, x: Hash, k: Hash, r: Request)
    requires x in b.requests
    ensures x in Schedule(b, k, r).requests && Schedule(b, k, r).requests[x].deps == b.requests[x].deps
  {
  }

  /** A child that goes by hash is to be requested unless it is there. */
  function Collect(b: Book, child: Node, depth: nat, tasks: seq<Task>): seq<Task>
  {
    if child.HashNode? && child.hash !in b.batch && child.hash !in b.db then tasks + [Task(child.hash, depth)] else tasks
  }

  lemma LeafSubs(cb: Callback, child: Node)
    ensures SubsOf(cb, ValuesIn([child])) == if child.Value? then cb(child.value).subs else []
  {
  }

  /** What a call of the callback adds to the children of x. */
  ghost function SubKid(h: Hasher, s: Sub, x: Hash): set<Hash>
  {
    if Trivial(h, s) || x == ZeroHash() then {} else {s.hash}
  }

  lemma GrownMore(b: Book, c: Book, x: Hash, kids: set<Hash>, more: set<Hash>)
    requires Grown(b, c, x, kids) && kids <= more
    ensures Grown(b, c, x, more)
  {
    hide InQueue, GrownRequest;
  }

  lemma GrownStep(a: Book, b: Book, c: Book, x: Hash, kids: set<Hash>)
    requires Grown(a, b, x, kids) && Grown(b, c, x, kids)
    ensures Grown(a, c, x, kids)
  {
    hide Grown;
    GrownTwice(a, b, c, x, kids, kids);
    assert kids + kids == kids;
  }

  ghost predicate HashesFound(have: set<Hash>, hs: seq<Hash>, tasks: seq<Task>)
  {
    && (forall k :: k in hs ==> k in have || InQueue(tasks, k))
    && (forall t :: t in tasks ==> t.hash in hs && t.hash !in have)
  }

  ghost predicate SubsFound(h: Hasher, cb: Callback, have: set<Hash>, rs: Requests, x: Hash, leaves: seq<seq<byte>>)
  {
    forall s :: s in SubsOf(cb, leaves) && !Trivial(h, s) ==> Reached(have, rs, x, s.hash)
  }

  /** Every child in the list is there, or waited for, or to be requested; tasks are for absent children. */
  ghost predicate AllFound(h: Hasher, cb: Callback, b: Book, x: Hash, cs: seq<Node>, calling: bool, tasks: seq<Task>)
  {
    HashesFound(Have(b), HashesIn(cs), tasks) && (calling ==> SubsFound(h, cb, Have(b), b.requests, x, ValuesIn(cs)))
  }

  lemma FoundNone(h: Hasher, cb: Callback, b: Book, x: Hash, calling: bool)
    ensures AllFound(h, cb, b, x, [], calling, [])
  {
  }

  lemma FoundNext(h: Hasher, cb: Callback, b: Book, c: Book, x: Hash, cs: seq<Node>, i: nat, calling: bool,
                  seen: seq<Task>, tasks: seq<Task>, kids: set<Hash>)
    requires i < |cs| && AllFound(h, cb, b, x, cs[..i], calling, seen) && Grown(b, c, x, kids)
    requires exists depth :: tasks == Collect(c, cs[i], depth, seen)
    requires calling ==> SubsFound(h, cb, Have(c), c.requests, x, ValuesIn([cs[i]]))
    ensures AllFound(h, cb, c, x, cs[..i + 1], calling, tasks)
    ensures ValuesIn(cs[..i + 1]) == [] ==> ValuesIn(cs[..i]) == [] && !cs[i].Value?
  {
    hide Grown, HashesFound, SubsFound, ValuesIn, HashesIn, Collect, Have;
    assert cs[..i + 1] == cs[..i] + [cs[i]];
    GrownParts(b, c, x, kids);
    HaveSame(b, c);
    var depth :| tasks == Collect(c, cs[i], depth, seen);
    HashesNext(c, cs[..i], cs[i], depth, seen);
    ValuesSnoc(cs[..i], cs[i]);
    if calling { SubsNext(h, cb, b, c, x, cs[..i], cs[i], kids); }
  }

  lemma HashesNext(b: Book, cs: seq<Node>, child: Node, depth: nat, seen: seq<Task>)
    requires HashesFound(Have(b), HashesIn(cs), seen)
    ensures HashesFound(Have(b), HashesIn(cs + [child]), Collect(b, child, depth, seen))
  {
    hide HashesIn;
    HashesSnoc(cs, child);
    var tasks := Collect(b, child, depth, seen);
    forall k | InQueue(seen, k) ensures InQueue(tasks, k) {
      var t :| t in seen && t.hash == k;
      assert t in tasks;
    }
    if tasks != seen { assert Task(child.hash, depth) in tasks; }
  }

  lemma SubsNext(h: Hasher, cb: Callback, b: Book, c: Book, x: Hash, cs: seq<Node>, child: Node, kids: set<Hash>)
    requires SubsFound(h, cb, Have(b), b.requests, x, ValuesIn(cs)) && Grown(b, c, x, kids)
    requires SubsFound(h, cb, Have(c), c.requests, x, ValuesIn([child]))
    ensures SubsFound(h, cb, Have(c), c.requests, x, ValuesIn(cs + [child]))
  {
    hide Grown, Have, Reached, Trivial, SubsOf, ValuesIn;
    SubsSplit(cb, cs, child);
    forall s | s in SubsOf(cb, ValuesIn(cs + [child])) && !Trivial(h, s)
      ensures Reached(Have(c), c.requests, x, s.hash)
    {
      if s in SubsOf(cb, ValuesIn(cs)) {
        GrownReached(b, c, x, kids, s.hash);
      }
    }
  }

  lemma SubsSplit(cb: Callback, cs: seq<Node>, child: Node)
    ensures SubsOf(cb, ValuesIn(cs + [child])) == SubsOf(cb, ValuesIn(cs)) + SubsOf(cb, ValuesIn([child]))
  {
    hide SubsOf, ValuesIn;
    ValuesSnoc(cs, child);
    LeafSubs(cb, child);
    if child.Value? {
      SubsSnoc(cb, ValuesIn(cs), child.value);
    } else {
      assert ValuesIn(cs + [child]) == ValuesIn(cs);
    }
  }

  lemma SubsNeeded(h: Hasher, cb: Callback, n: Node, i: nat, calling: bool, x: Hash)
    requires i < |ChildNodes(n)|
    ensures var child := ChildNodes(n)[i];
            child.Value? && (calling || x == ZeroHash()) ==>
              forall s :: s in cb(child.value).subs ==> SubKid(h, s, x) <= NeededBy(h, cb, calling, n)
  {
    hide ChildNodes, HashesIn, ValuesIn, SubsOf, ZeroHash, Trivial;
    var child := ChildNodes(n)[i];
    if child.Value? {
      forall s | s in cb(child.value).subs
        ensures s in SubsOf(cb, ValuesIn(ChildNodes(n)))
      {
        SubIn(cb, ChildNodes(n), i, s);
      }
    }
  }

  lemma {:induction false} SubIn(cb: Callback, ns: seq<Node>, i: nat, s: Sub)
    requires i < |ns| && ns[i].Value? && s in cb(ns[i].value).subs
    ensures s in SubsOf(cb, ValuesIn(ns))
  {
    var rest := ValuesIn(ns[1..]);
    if ns[0].Value? {
      assert ValuesIn(ns)[1..] == rest && ValuesIn(ns)[0] == ns[0].value;
    } else {
      assert ValuesIn(ns) == rest;
    }
    if i > 0 { SubIn(cb, ns[1..], i - 1, s); }
  }

  /** The first i of the subs are there or waited for. */
  ghost predicate SubsReached(h: Hasher, b: Book, x: Hash, subs: seq<Sub>, i: nat)
    requires i <= |subs|
  {
    forall j :: 0 <= j < i && !Trivial(h, subs[j]) ==> Reached(Have(b), b.requests, x, subs[j].hash)
  }

  lemma NoneReached(h: Hasher, b: Book, x: Hash, subs: seq<Sub>)
    ensures SubsReached(h, b, x, subs, 0)
  {
  }

  lemma NextReached(h: Hasher, b: Book, c: Book, x: Hash, subs: seq<Sub>, i: nat, kids: set<Hash>)
    requires i < |subs| && SubsReached(h, b, x, subs, i) && Grown(b, c, x, kids)
    requires !Trivial(h, subs[i]) ==> Reached(Have(c), c.requests, x, subs[i].hash)
    ensures SubsReached(h, c, x, subs, i + 1)
  {
    hide Grown, Have, Reached, Trivial;
    forall j | 0 <= j < i && !Trivial(h, subs[j]) ensures Reached(Have(c), c.requests, x, subs[j].hash) {
      GrownReached(b, c, x, kids, subs[j].hash);
    }
  }

  lemma LastReached(h: Hasher, b: Book, x: Hash, subs: seq<Sub>)
    requires SubsReached(h, b, x, subs, |subs|)
    ensures forall s :: s in subs && !Trivial(h, s) ==> Reached(Have(b), b.requests, x, s.hash)
  {
    hide Have, Reached, Trivial;
  }

  lemma SubThere(b: Book, x: Hash, k: Hash)
    ensures k in b.batch || k in b.db ==> Reached(Have(b), b.requests, x, k)
  {
  }

  /** The ancestor's deps is raised and the request scheduled; the zero hash stands for no parent. */
  function WithSub(b: Book, s: Sub, x: Hash): Book
    requires x in b.requests
  {
    if x == ZeroHash() then Schedule(b, s.hash, Request(None, s.raw, [], s.depth, 0, false, false))
    else Schedule(Raised(b, x, 1), s.hash, Request(None, s.raw, [x], s.depth, 0, false, false))
  }

  lemma WithSubOk(h: Hasher, cb: Callback, b: Book, s: Sub, x: Hash)
    requires Steady(h, cb, b, multiset{}, {x}) && x in b.requests && Absent(b, s.hash)
    ensures var c := WithSub(b, s, x);
            && Steady(h, cb, c, multiset{}, {x}) && Grown(b, c, x, if x == ZeroHash() then {} else {s.hash})
            && x in c.requests
            && (x != ZeroHash() ==> Reached(Have(c), c.requests, x, s.hash))
  {
    hide *;
    WithSubIs(b, s, x);
    if x == ZeroHash() {
      NoTime([], multiset{});
      ScheduleOk(h, cb, b, multiset{}, x, s.hash, Request(None, s.raw, [], s.depth, 0, false, false));
    } else {
      var mid := Raised(b, x, 1);
      RaiseSteady(h, cb, b, multiset{}, {x}, x, 1);
      RaiseGrown(b, x, 1);
      GrownParts(b, mid, x, {});
      OneTime(x);
      AbsentSame(b, mid, s.hash);
      ScheduleOk(h, cb, mid, multiset{}, x, s.hash, Request(None, s.raw, [x], s.depth, 0, false, false));
      GrownTwice(b, mid, WithSub(b, s, x), x, {}, {s.hash});
      assert {} + {s.hash} == {s.hash};
    }
  }

  lemma WithSubIs(b: Book, s: Sub, x: Hash)
    requires x in b.requests
    ensures x == ZeroHash() ==>
              WithSub(b, s, x) == Schedule(b, s.hash, Request(None, s.raw, [], s.depth, 0, false, false))
    ensures x != ZeroHash() ==>
              WithSub(b, s, x) == Schedule(Raised(b, x, 1), s.hash, Request(None, s.raw, [x], s.depth, 0, false, false))
  {
    hide Schedule, Raised, ZeroHash;
  }

  lemma AbsentSame(b: Book, c: Book, k: Hash)
    requires Absent(b, k) && c.db == b.db && c.batch == b.batch
    ensures Absent(c, k)
  {
    hide DecodeNode;
  }

  /** schedule for a child of x, or for a request without parent. */
  lemma ScheduleOk(h: Hasher, cb: Callback, b: Book, flight: multiset<Hash>, x: Hash, k: Hash, r: Request)
    requires r.deps == 0 && r.data.None? && !r.cut && (r.parents == [] || r.parents == [x]) && Absent(b, k) &&
             x in b.requests
    requires Steady(h, cb, b, flight + multiset(r.parents), {x})
    ensures var c := Schedule(b, k, r);
            && Steady(h, cb, c, flight, {x}) && Grown(b, c, x, if r.parents == [] then {} else {k}) && x in c.requests
            && (r.parents == [x] ==> Reached(Have(c), c.requests, x, k))
  {
    hide *;
    ScheduleSteady(h, cb, b, flight, {x}, k, r);
    ScheduleGrown(b, x, k, r);
    GrownParts(b, Schedule(b, k, r), x, if r.parents == [] then {} else {k});
    ScheduleReaches(b, x, k, r);
  }

  lemma OneTime(x: Hash)
    ensures multiset{} + Times(x, 1) == multiset{} + multiset([x])
  {
  }

  lemma NoTime(ps: seq<Hash>, flight: multiset<Hash>)
    requires ps == []
    ensures flight + multiset(ps) == flight
  {
  }

  lemma GrownParts(b: Book, c: Book, x: Hash, kids: set<Hash>)
    requires Grown(b, c, x, kids)
    ensures c.db == b.db && c.batch == b.batch && c.order == b.order && (x in b.requests ==> x in c.requests)
  {
  }

  lemma ScheduleReaches(b: Book, x: Hash, k: Hash, r: Request)
    requires x in r.parents || r.parents == []
    ensures x in r.parents ==> Reached(Have(Schedule(b, k, r)), Schedule(b, k, r).requests, x, k)
  {
    ScheduleKeeps(Have(b), b.requests, k, r);
  }

  lemma DrainedSelf(b: Book)
    ensures Drained(b, b)
  {
  }

  lemma NotInBatch(h: Hasher, cb: Callback, b: Book, flight: multiset<Hash>, busy: set<Hash>, x: Hash)
    requires Steady(h, cb, b, flight, busy) && x in b.requests
    ensures x !in b.batch && x in b.kinds && b.kinds[x] == KindOf(b.requests[x]) && Links(b.requests, flight)
  {
    hide Links, Ordered, Closed, Waits;
  }

  lemma DrainedKeeps(b: Book, c: Book, x: Hash)
    requires Drained(b, c)
    ensures (x !in b.requests ==> x !in c.requests) && (x in b.batch ==> x in c.batch)
  {
  }

  lemma AllParents(ps: seq<Hash>, flight: multiset<Hash>)
    ensures flight + multiset(ps[0..]) == flight + multiset(ps)
  {
    assert ps[0..] == ps;
  }

  lemma NextParent(ps: seq<Hash>, i: nat, flight: multiset<Hash>)
    requires i < |ps|
    ensures flight + multiset(ps[i..]) == flight + multiset(ps[i + 1..]) + multiset{ps[i]}
  {
    assert ps[i..] == [ps[i]] + ps[i + 1..];
  }

  lemma NoParents(ps: seq<Hash>, flight: multiset<Hash>)
    ensures flight + multiset(ps[|ps|..]) == flight
  {
    assert ps[|ps|..] == [];
  }

  lemma SteadyBusy(h: Hasher, cb: Callback, b: Book, flight: multiset<Hash>, p: Hash)
    requires Steady(h, cb, b, flight, {})
    ensures Steady(h, cb, b, flight, {p})
  {
    hide Needed, Links, Ordered, Closed, Settled, Pending, Have;
  }

  lemma LowerHave(b: Book, c: Book)
    requires c == b.(requests := c.requests)
    ensures Have(c) == Have(b) && c.kinds == b.kinds
  {
  }

  lemma MoveLive(b: Book, x: Hash, stuck: set<Hash>)
    requires x in b.requests && b.requests[x].data.Some? && Live(b.requests, {x}, stuck)
    ensures Live(Moved(b, x).requests, {}, stuck) && x !in Moved(b, x).requests && x in Moved(b, x).batch
  {
  }

  lemma LowerLive(b: Book, p: Hash, stuck: set<Hash>)
    requires p in b.requests && b.requests[p].deps > 0 && Live(b.requests, {}, stuck)
    ensures Live(Lowered(b, p).requests, {p}, stuck)
    ensures b.requests[p].deps > 1 ==> Live(Lowered(b, p).requests, {}, stuck)
  {
  }

  // ----- processing a node -----

  lemma NodeNeeds(h: Hasher, cb: Callback, b: Book, busy: set<Hash>, x: Hash, data: seq<byte>, n: Node)
    requires Steady(h, cb, b, multiset{}, busy) && x in b.requests && !b.requests[x].raw && !b.requests[x].cut
    requires DecodeNode(Some(x), data, 0) == Ok(n)
    ensures Needed(h, cb, b.kinds, x, data) == NeededBy(h, cb, Calls(b, x), n)
  {
    hide Steady, DecodeNode, NeededBy, ZeroHash;
    NotInBatch(h, cb, b, multiset{}, busy, x);
  }

  lemma KidsNeeded(h: Hasher, cb: Callback, b: Book, x: Hash, data: seq<byte>, n: Node)
    requires x in b.requests && b.requests[x].data == Some(data) && DecodeNode(Some(x), data, 0) == Ok(n)
    ensures KidsOf(h, cb, x, b.requests[x]) == NeededBy(h, cb, Calls(b, x), n)
  {
    hide DecodeNode, NeededBy, ZeroHash;
  }

  /** After scheduling, what was in order about the queue and waiting still is. */
  lemma GrownFinal(b: Book, filled: Book, c: Book, x: Hash, data: seq<byte>, kids: set<Hash>, out: set<Hash>,
                   stuck: set<Hash>)
    requires x in b.requests && filled == Filled(b, x, data) && Grown(filled, c, x, kids)
    ensures Queued(b, out) ==> Queued(c, out - {x})
    ensures Live(b.requests, {}, stuck) ==> Live(c.requests, {x}, stuck)
    ensures c.db == b.db && x in c.requests && c.requests[x].data == Some(data) &&
            c.requests[x].callback == b.requests[x].callback
    ensures c.requests[x].raw == b.requests[x].raw && c.requests[x].cut == b.requests[x].cut
  {
    hide InQueue;
    assert GrownRequest(filled.requests[x], c.requests[x], true);
    GrownLive(filled, c, x, kids, stuck);
    GrownQueued(b, filled, c, x, data, kids, out);
  }

  lemma GrownLive(b: Book, c: Book, x: Hash, kids: set<Hash>, stuck: set<Hash>)
    requires Grown(b, c, x, kids)
    ensures Live(b.requests, {x}, stuck) ==> Live(c.requests, {x}, stuck)
  {
    hide InQueue;
    if Live(b.requests, {x}, stuck) {
      forall p | p in c.requests && p != x && p !in stuck && c.requests[p].data.Some? ensures c.requests[p].deps > 0 {
        assert p in b.requests && GrownRequest(b.requests[p], c.requests[p], p == x);
      }
    }
  }

  /** Scheduling more for the same request. */
  lemma GrownLater(b: Book, c: Book, x: Hash, kids: set<Hash>, out: set<Hash>, stuck: set<Hash>)
    requires x in b.requests && b.requests[x].data.Some? && Grown(b, c, x, kids)
    ensures Queued(b, out) ==> Queued(c, out)
    ensures Live(b.requests, {x}, stuck) ==> Live(c.requests, {x}, stuck)
    ensures c.db == b.db && x in c.requests && c.requests[x].data == b.requests[x].data &&
            c.requests[x].cut == b.requests[x].cut
    ensures c.requests[x].raw == b.requests[x].raw && c.requests[x].callback == b.requests[x].callback
  {
    hide InQueue;
    assert GrownRequest(b.requests[x], c.requests[x], true);
    GrownLive(b, c, x, kids, stuck);
    if Queued(b, out) {
      forall p | p in c.requests && c.requests[p].data.None?
        ensures !c.requests[p].cut && (p in out || InQueue(c.queue, p))
      {
        if p in b.requests { assert GrownRequest(b.requests[p], c.requests[p], p == x); }
      }
    }
  }

  lemma GrownQueued(b: Book, filled: Book, c: Book, x: Hash, data: seq<byte>, kids: set<Hash>, out: set<Hash>)
    requires x in b.requests && filled == Filled(b, x, data) && Grown(filled, c, x, kids)
    ensures Queued(b, out) ==> Queued(c, out - {x})
  {
    hide InQueue;
    if Queued(b, out) {
      forall p | p in c.requests && c.requests[p].data.None?
        ensures !c.requests[p].cut && (p in out - {x} || InQueue(c.queue, p))
      {
        if p in filled.requests { assert GrownRequest(filled.requests[p], c.requests[p], p == x); }
      }
    }
  }

  /** What every operation keeps. */
  ghost predicate Good(h: Hasher, cb: Callback, b: Book, out: set<Hash>, stuck: set<Hash>)
  {
    Steady(h, cb, b, multiset{}, {}) && Live(b.requests, {}, stuck) && Caused(h, cb, b.requests) && Queued(b, out)
  }

  lemma GoodParts(h: Hasher, cb: Callback, b: Book, out: set<Hash>, stuck: set<Hash>)
    requires Good(h, cb, b, out, stuck)
    ensures Steady(h, cb, b, multiset{}, {}) && Live(b.requests, {}, stuck) && Caused(h, cb, b.requests) &&
            Queued(b, out)
  {
    hide Steady, Live, Caused, Queued;
  }

  lemma GoodFrom(h: Hasher, cb: Callback, b: Book, out: set<Hash>, stuck: set<Hash>)
    requires Steady(h, cb, b, multiset{}, {}) && Live(b.requests, {}, stuck) && Caused(h, cb, b.requests) &&
             Queued(b, out)
    ensures Good(h, cb, b, out, stuck)
  {
    hide Steady, Live, Caused, Queued;
  }

  lemma RawFinal(h: Hasher, cb: Callback, b: Book, filled: Book, c: Book, x: Hash, data: seq<byte>, out: set<Hash>,
                 stuck: set<Hash>)
    requires Good(h, cb, b, out, stuck) && x in b.requests && b.requests[x].data.None?
    requires filled == Filled(b, x, data) && Drained(filled, c)
    requires Steady(h, cb, c, multiset{}, {}) && Live(c.requests, {}, stuck) && x !in c.requests
    ensures Good(h, cb, c, out - {x}, stuck) && c.db == b.db && x in c.batch && c.batch[x] == data
  {
    hide Steady, Live, Caused, Queued, Drained, Filled;
    DrainedOk(h, cb, b, filled, c, x, data, out);
  }

  /** The callback failed: what the leaf announced before is all that the request now waits for. */
  function CutOff(b: Book, x: Hash): Book
    requires x in b.requests
  {
    b.(requests := b.requests[x := b.requests[x].(cut := true)], kinds := b.kinds[x := Cut])
  }

  /** A request that waits for nothing after its callback has failed is never committed. */
  ghost function Stuck(b: Book, x: Hash, stuck: set<Hash>): set<Hash>
  {
    if x in b.requests && b.requests[x].deps == 0 then stuck + {x} else stuck
  }

  lemma CutFinal(h: Hasher, cb: Callback, b: Book, c: Book, x: Hash, data: seq<byte>, n: Node, out: set<Hash>,
                 stuck: set<Hash>)
    requires Good(h, cb, b, out, stuck) && x in b.requests && b.requests[x].data.None?
    requires !b.requests[x].raw && b.requests[x].callback && !b.requests[x].cut && DecodeNode(Some(x), data, 0) == Ok(n)
    requires Steady(h, cb, c, multiset{}, {x}) && Grown(Filled(b, x, data), c, x, NeededBy(h, cb, Calls(b, x), n))
    requires x != ZeroHash() ==> SubsFound(h, cb, Have(c), c.requests, x, ValuesIn(ChildNodes(n)))
    ensures x in c.requests && Good(h, cb, CutOff(c, x), out - {x}, Stuck(c, x, stuck)) && CutOff(c, x).db == b.db
  {
    hide *;
    var filled := Filled(b, x, data);
    GoodParts(h, cb, b, out, stuck);
    GrownFinal(b, filled, c, x, data, NeededBy(h, cb, Calls(b, x), n), out, stuck);
    FilledCaused(h, cb, b, x, data);
    FilledIs(b, x, data);
    KidsNeeded(h, cb, filled, x, data, n);
    FilledLinked(h, cb, b, x, data);
    GrownCaused(h, cb, filled, c, x, NeededBy(h, cb, Calls(b, x), n));
    CutSteady(h, cb, c, x, data, n);
    CutRest(h, cb, c, x, out - {x}, stuck);
    GoodFrom(h, cb, CutOff(c, x), out - {x}, Stuck(c, x, stuck));
  }

  lemma SteadyLinked(h: Hasher, cb: Callback, b: Book, busy: set<Hash>)
    requires Steady(h, cb, b, multiset{}, busy)
    ensures Linked(b.requests, multiset{})
  {
    hide Closed, Ordered, Waits, Pending, Counted, Linked;
  }

  lemma FilledLinked(h: Hasher, cb: Callback, b: Book, x: Hash, data: seq<byte>)
    requires Steady(h, cb, b, multiset{}, {}) && x in b.requests
    ensures Linked(Filled(b, x, data).requests, multiset{})
  {
    hide Steady;
    SteadyLinked(h, cb, b, {});
  }

  lemma FilledIs(b: Book, x: Hash, data: seq<byte>)
    requires x in b.requests
    ensures x in Filled(b, x, data).requests && Filled(b, x, data).requests[x] == b.requests[x].(data := Some(data))
    ensures Calls(Filled(b, x, data), x) == Calls(b, x)
  {
  }

  lemma CutSteady(h: Hasher, cb: Callback, b: Book, x: Hash, data: seq<byte>, n: Node)
    requires Steady(h, cb, b, multiset{}, {x}) && x in b.requests && b.requests[x].data == Some(data)
    requires !b.requests[x].raw && b.requests[x].callback && !b.requests[x].cut && DecodeNode(Some(x), data, 0) == Ok(n)
    requires x != ZeroHash() ==> SubsFound(h, cb, Have(b), b.requests, x, ValuesIn(ChildNodes(n)))
    ensures Steady(h, cb, CutOff(b, x), multiset{}, {})
  {
    hide *;
    SteadyParts(h, cb, b, multiset{}, {x});
    NotInBatch(h, cb, b, multiset{}, {x}, x);
    KindIs(b.requests[x]);
    var c := CutOff(b, x);
    CutIs(b, x);
    CutLess(h, cb, b.kinds, x);
    LessClosed(h, cb, b.kinds, c.kinds, b.db);
    LessOrdered(h, cb, b.kinds, c.kinds, b.db.Keys, b.batch, b.order);
    CutLinks(b.requests, x);
    CutPending(b.kinds, b.batch, b.requests, x);
    HaveSame(b, c);
    CutSettled(h, cb, b, x, data, n);
    CutWaits(h, cb, b.kinds, Have(b), b.requests, x);
    SteadyFrom(h, cb, c, multiset{}, {});
  }

  lemma KindIs(r: Request)
    ensures KindOf(r) == if r.raw then Raw else if r.cut then Cut else if r.callback then Calling else Plain
  {
  }

  lemma CutIs(b: Book, x: Hash)
    requires x in b.requests
    ensures CutOff(b, x) == b.(requests := b.requests[x := b.requests[x].(cut := true)], kinds := b.kinds[x := Cut])
  {
  }

  /** No entry needs more than before. */
  ghost predicate Less(h: Hasher, cb: Callback, kinds: Kinds, fewer: Kinds)
  {
    forall p, d :: Needed(h, cb, fewer, p, d) <= Needed(h, cb, kinds, p, d)
  }

  lemma CutLess(h: Hasher, cb: Callback, kinds: Kinds, x: Hash)
    requires x in kinds && kinds[x].Calling?
    ensures Less(h, cb, kinds, kinds[x := Cut])
  {
    hide DecodeNode, SubHashes, KidHashes;
  }

  lemma LessClosed(h: Hasher, cb: Callback, kinds: Kinds, fewer: Kinds, db: Blobs)
    requires Less(h, cb, kinds, fewer) && Closed(h, cb, kinds, db)
    ensures Closed(h, cb, fewer, db)
  {
    hide Needed;
  }

  lemma LessOrdered(h: Hasher, cb: Callback, kinds: Kinds, fewer: Kinds, keys: set<Hash>, batch: Blobs,
                    order: seq<Hash>)
    requires Less(h, cb, kinds, fewer) && Ordered(h, cb, kinds, keys, batch, order)
    ensures Ordered(h, cb, fewer, keys, batch, order)
  {
    hide Needed;
    forall i | 0 <= i < |order| ensures Follows(h, cb, fewer, keys, batch, order, i) {
      assert Follows(h, cb, kinds, keys, batch, order, i);
    }
  }

  lemma CutLinks(rs: Requests, x: Hash)
    requires Links(rs, multiset{}) && x in rs
    ensures Links(rs[x := rs[x].(cut := true)], multiset{})
  {
    var qs := rs[x := rs[x].(cut := true)];
    forall q | q in qs ensures qs[q].deps == Occ(qs, qs.Keys, q) + multiset{}[q] {
      OccChange(rs, x, qs[x], q);
    }
  }

  lemma CutPending(kinds: Kinds, batch: Blobs, rs: Requests, x: Hash)
    requires Pending(kinds, batch, rs) && x in rs && !rs[x].raw
    ensures Pending(kinds[x := Cut], batch, rs[x := rs[x].(cut := true)])
  {
  }

  /** What is left to need is there or waited for. */
  lemma CutSettled(h: Hasher, cb: Callback, b: Book, x: Hash, data: seq<byte>, n: Node)
    requires x in b.requests && b.requests[x].data == Some(data) && DecodeNode(Some(x), data, 0) == Ok(n)
    requires x != ZeroHash() ==> SubsFound(h, cb, Have(b), b.requests, x, ValuesIn(ChildNodes(n)))
    ensures Settled(h, cb, b.kinds[x := Cut], Have(b), b.requests, x)
  {
    hide DecodeNode, Have, Reached, ZeroHash, Trivial, ValuesIn, ChildNodes, SubsOf;
  }

  lemma CutWaits(h: Hasher, cb: Callback, kinds: Kinds, have: set<Hash>, rs: Requests, x: Hash)
    requires Waits(h, cb, kinds, have, rs, {x}) && x in rs && Settled(h, cb, kinds[x := Cut], have, rs, x)
    ensures Waits(h, cb, kinds[x := Cut], have, rs[x := rs[x].(cut := true)], {})
  {
    hide Needed, Keeps;
    var r := rs[x].(cut := true);
    ChangeKeeps(have, rs, x, r);
    var qs := rs[x := r];
    forall p | p in qs && qs[p].deps > 0 ensures Settled(h, cb, kinds[x := Cut], have, qs, p) {
      if p != x {
        assert Settled(h, cb, kinds, have, rs, p);
        OtherKind(h, cb, kinds, x, Cut, p, rs[p].data.value);
        assert Settled(h, cb, kinds[x := Cut], have, rs, p);
      }
      SettledKeeps(h, cb, kinds[x := Cut], have, rs, have, qs, p);
    }
  }

  lemma CutRest(h: Hasher, cb: Callback, b: Book, x: Hash, out: set<Hash>, stuck: set<Hash>)
    requires x in b.requests && b.requests[x].data.Some? && Live(b.requests, {x}, stuck) && Queued(b, out) &&
             Caused(h, cb, b.requests)
    ensures var c := CutOff(b, x);
            c.db == b.db && Live(c.requests, {}, Stuck(b, x, stuck)) && Queued(c, out) && Caused(h, cb, c.requests)
  {
    hide InQueue, KidsOf, Caused;
    var rs := CutOff(b, x).requests;
    forall k, p | k in rs && p in rs[k].parents && p in rs ensures k in KidsOf(h, cb, p, rs[p]) {
      CausedAt(h, cb, b.requests, k, p);
      SameKids(h, cb, p, b.requests[p], rs[p]);
    }
    CausedFrom(h, cb, rs);
  }

  lemma NothingMissing(h: Hasher, cb: Callback, b: Book, x: Hash, n: Node, calling: bool)
    requires Steady(h, cb, b, multiset{}, {x}) && x in b.requests && b.requests[x].deps == 0
    requires AllFound(h, cb, b, x, ChildNodes(n), calling, [])
    ensures NeededBy(h, cb, calling, n) <= Have(b)
  {
    hide Steady, ChildNodes, Reached, Have, Trivial, NeededBy, AllFound, HashesIn;
    NotInBatch(h, cb, b, multiset{}, {x}, x);
    forall k | k in NeededBy(h, cb, calling, n) ensures k in Have(b) {
      FoundWhere(h, cb, b, x, n, calling, k);
      if k !in HashesIn(ChildNodes(n)) { NotWaiting(b.requests, Have(b), x, k); }
    }
  }

  lemma FoundWhere(h: Hasher, cb: Callback, b: Book, x: Hash, n: Node, calling: bool, k: Hash)
    requires AllFound(h, cb, b, x, ChildNodes(n), calling, []) && k in NeededBy(h, cb, calling, n)
    ensures if k in HashesIn(ChildNodes(n)) then k in Have(b) else Reached(Have(b), b.requests, x, k)
  {
    hide ChildNodes, Reached, Have, Trivial, HashesIn, ValuesIn;
  }

  lemma TasksFound(h: Hasher, cb: Callback, b: Book, x: Hash, n: Node, calling: bool, tasks: seq<Task>)
    requires AllFound(h, cb, b, x, ChildNodes(n), calling, tasks)
    ensures forall t :: t in tasks ==> t.hash in NeededBy(h, cb, calling, n) && t.hash !in Have(b)
  {
    hide ChildNodes, Have, SubsFound;
  }

  /** Once the tasks are scheduled, everything needed is there or waited for. */
  lemma AllReached(h: Hasher, cb: Callback, b: Book, c: Book, x: Hash, n: Node, calling: bool, tasks: seq<Task>)
    requires AllFound(h, cb, b, x, ChildNodes(n), calling, tasks) && Grown(b, c, x, NeededBy(h, cb, calling, n))
    requires forall t :: t in tasks ==> Reached(Have(c), c.requests, x, t.hash)
    ensures forall k :: k in NeededBy(h, cb, calling, n) ==> Reached(Have(c), c.requests, x, k)
  {
    hide ChildNodes, Grown, Trivial, Have, Reached;
    forall k | k in NeededBy(h, cb, calling, n) ensures Reached(Have(c), c.requests, x, k) {
      if k in HashesIn(ChildNodes(n)) {
        if k in Have(b) { ThereReached(b, x, k); GrownReached(b, c, x, NeededBy(h, cb, calling, n), k); }
      } else {
        GrownReached(b, c, x, NeededBy(h, cb, calling, n), k);
      }
    }
  }

  lemma ThereReached(b: Book, x: Hash, k: Hash)
    requires k in Have(b)
    ensures Reached(Have(b), b.requests, x, k)
  {
  }

  /** A request that reaches all that it needs is busy no more. */
  lemma SettleOk(h: Hasher, cb: Callback, b: Book, x: Hash, data: seq<byte>, n: Node, stuck: set<Hash>)
    requires Steady(h, cb, b, multiset{}, {x}) && Live(b.requests, {x}, stuck) && x in b.requests
    requires b.requests[x].data == Some(data) && !b.requests[x].raw && !b.requests[x].cut && b.requests[x].deps > 0
    requires DecodeNode(Some(x), data, 0) == Ok(n)
    requires forall k :: k in NeededBy(h, cb, Calls(b, x), n) ==> Reached(Have(b), b.requests, x, k)
    ensures Steady(h, cb, b, multiset{}, {}) && Live(b.requests, {}, stuck)
  {
    hide Links, Ordered, Closed, Pending, Have, NeededBy, Reached, DecodeNode, ZeroHash, Needed;
    NodeNeeds(h, cb, b, {x}, x, data, n);
    assert Settled(h, cb, b.kinds, Have(b), b.requests, x);
  }

  lemma DrainedFinal(h: Hasher, cb: Callback, b: Book, c: Book, x: Hash, out: set<Hash>)
    requires Drained(b, c) && Caused(h, cb, b.requests)
    ensures Queued(b, out) ==> Queued(c, out)
    ensures Caused(h, cb, c.requests)
    ensures c.db == b.db &&
            (x in b.requests && x !in c.requests ==> x in c.batch && b.requests[x].data == Some(c.batch[x]))
  {
    hide InQueue, NeededAs, Caused;
    DrainedCaused(h, cb, b, c);
  }

  lemma NotCut(b: Book, out: set<Hash>, x: Hash)
    requires Queued(b, out) && x in b.requests && b.requests[x].data.None?
    ensures !b.requests[x].cut
  {
    hide InQueue;
  }

  /** Whether the callback is called for the leaves of x. */
  ghost predicate Calls(b: Book, x: Hash)
    requires x in b.requests
  {
    b.requests[x].callback && x != ZeroHash()
  }

  /** Request x has its data, and its callback has been called. */
  ghost predicate Half(h: Hasher, cb: Callback, b: Book, x: Hash, data: seq<byte>, n: Node, out: set<Hash>,
                       stuck: set<Hash>, tasks: seq<Task>)
  {
    && Steady(h, cb, b, multiset{}, {x}) && Live(b.requests, {x}, stuck) && Queued(b, out) && Caused(h, cb, b.requests)
    && x in b.requests && b.requests[x].data == Some(data) && !b.requests[x].raw && !b.requests[x].cut
    && DecodeNode(Some(x), data, 0) == Ok(n)
    && AllFound(h, cb, b, x, ChildNodes(n), Calls(b, x), tasks)
  }

  lemma HalfFinal(h: Hasher, cb: Callback, b: Book, c: Book, x: Hash, data: seq<byte>, n: Node, out: set<Hash>,
                  stuck: set<Hash>, tasks: seq<Task>)
    requires Good(h, cb, b, out, stuck) && x in b.requests && b.requests[x].data.None?
    requires !b.requests[x].raw && !b.requests[x].cut && DecodeNode(Some(x), data, 0) == Ok(n)
    requires Steady(h, cb, c, multiset{}, {x}) && Grown(Filled(b, x, data), c, x, NeededBy(h, cb, Calls(b, x), n))
    requires AllFound(h, cb, c, x, ChildNodes(n), Calls(b, x), tasks)
    ensures Half(h, cb, c, x, data, n, out - {x}, stuck, tasks) && c.db == b.db
  {
    hide Steady, Live, Caused, Queued, Needed, NeededBy, DecodeNode, Filled, Grown, AllFound, ZeroHash, ChildNodes,
         KidsOf;
    var filled := Filled(b, x, data);
    GrownFinal(b, filled, c, x, data, NeededBy(h, cb, Calls(b, x), n), out, stuck);
    FilledCaused(h, cb, b, x, data);
    FilledIs(b, x, data);
    KidsNeeded(h, cb, filled, x, data, n);
    FilledLinked(h, cb, b, x, data);
    GrownCaused(h, cb, filled, c, x, NeededBy(h, cb, Calls(b, x), n));
  }

  lemma HalfParts(h: Hasher, cb: Callback, b: Book, x: Hash, data: seq<byte>, n: Node, out: set<Hash>,
                  stuck: set<Hash>, tasks: seq<Task>)
    requires Half(h, cb, b, x, data, n, out, stuck, tasks)
    ensures Steady(h, cb, b, multiset{}, {x}) && Live(b.requests, {x}, stuck) && x in b.requests &&
            b.requests[x].data == Some(data)
    ensures forall t :: t in tasks ==> t.hash in NeededBy(h, cb, Calls(b, x), n) && t.hash !in Have(b)
  {
    hide Steady, Live, Queued, Caused, DecodeNode, AllFound, NeededBy, Have, ChildNodes, Calls;
    TasksFound(h, cb, b, x, n, Calls(b, x), tasks);
  }

  lemma HalfStore(h: Hasher, cb: Callback, b: Book, x: Hash, data: seq<byte>, n: Node, out: set<Hash>, stuck: set<Hash>)
    requires Half(h, cb, b, x, data, n, out, stuck, []) && b.requests[x].deps == 0
    ensures Needed(h, cb, b.kinds, x, data) <= Have(b)
  {
    hide Steady, Live, Queued, Caused, Needed, DecodeNode, AllFound, NeededBy, Have, ChildNodes, ZeroHash;
    NodeNeeds(h, cb, b, {x}, x, data, n);
    NothingMissing(h, cb, b, x, n, Calls(b, x));
  }

  lemma HalfStored(h: Hasher, cb: Callback, b: Book, c: Book, x: Hash, data: seq<byte>, n: Node, out: set<Hash>,
                   stuck: set<Hash>)
    requires Half(h, cb, b, x, data, n, out, stuck, [])
    requires Drained(b, c) && Steady(h, cb, c, multiset{}, {}) && Live(c.requests, {}, stuck) && x !in c.requests
    ensures Good(h, cb, c, out, stuck) && c.db == b.db && x in c.batch && c.batch[x] == data
  {
    hide Steady, Live, Queued, Needed, DecodeNode, AllFound, NeededBy, Have, ChildNodes, Drained, Caused;
    DrainedFinal(h, cb, b, c, x, out);
  }

  lemma HalfWaits(h: Hasher, cb: Callback, b: Book, c: Book, x: Hash, data: seq<byte>, n: Node, out: set<Hash>,
                  stuck: set<Hash>, tasks: seq<Task>)
    requires Half(h, cb, b, x, data, n, out, stuck, tasks)
    requires Steady(h, cb, c, multiset{}, {x}) && Grown(b, c, x, NeededBy(h, cb, Calls(b, x), n)) && x in c.requests &&
             c.requests[x].deps > 0
    requires forall t :: t in tasks ==> Reached(Have(c), c.requests, x, t.hash)
    ensures Good(h, cb, c, out, stuck) && c.db == b.db && c.requests[x].data == Some(data)
  {
    hide Steady, Live, Queued, Needed, DecodeNode, AllFound, NeededBy, Have, ChildNodes, Grown, Reached, Caused,
         ZeroHash, KidsOf;
    GrownLater(b, c, x, NeededBy(h, cb, Calls(b, x), n), out, stuck);
    KidsNeeded(h, cb, b, x, data, n);
    SteadyLinked(h, cb, b, {x});
    GrownCaused(h, cb, b, c, x, NeededBy(h, cb, Calls(b, x), n));
    AllReached(h, cb, b, c, x, n, Calls(b, x), tasks);
    SettleOk(h, cb, c, x, data, n, stuck);
  }

  // ----- handing out -----

  ghost predicate Descending(ts: seq<Task>) { forall i, j :: 0 <= i < j < |ts| ==> ts[j].depth <= ts[i].depth }

  /** The position of a task with the greatest depth. */
  method Deepest(queue: seq<Task>) returns (i: nat)
    requires queue != []
    ensures i < |queue| && forall t :: t in queue ==> t.depth <= queue[i].depth
  {
    i := 0;
    for j := 0 to |queue|
      invariant i < |queue| && forall k :: 0 <= k < j ==> queue[k].depth <= queue[i].depth
    {
      if queue[j].depth > queue[i].depth { i := j; }
    }
  }

  /** The tasks handed out are the deepest ones, in order, and the others remain. */
  ghost predicate Handed(was: seq<Task>, tasks: seq<Task>, queue: seq<Task>, hashes: seq<Hash>)
  {
    && |hashes| == |tasks| && (forall i :: 0 <= i < |tasks| ==> hashes[i] == tasks[i].hash)
    && multiset(was) == multiset(tasks) + multiset(queue)
    && Descending(tasks) && (forall t, u :: t in tasks && u in queue ==> u.depth <= t.depth)
  }

  lemma NoneHanded(queue: seq<Task>, out: set<Hash>)
    ensures Handed(queue, [], queue, []) && out + Elems([]) == out
  {
  }

  lemma HandOut(was: seq<Task>, tasks: seq<Task>, queue: seq<Task>, hashes: seq<Hash>, i: nat, out: set<Hash>)
    requires Handed(was, tasks, queue, hashes) && i < |queue| && forall t :: t in queue ==> t.depth <= queue[i].depth
    ensures Handed(was, tasks + [queue[i]], queue[..i] + queue[i + 1..], hashes + [queue[i].hash])
    ensures out + Elems(hashes) + {queue[i].hash} == out + Elems(hashes + [queue[i].hash])
  {
    var rest, more := queue[..i] + queue[i + 1..], tasks + [queue[i]];
    TakenOut(queue, i);
    assert queue[i] in queue;
    StillDescending(tasks, queue[i]);
    forall t, u | t in more && u in rest ensures u.depth <= t.depth {
      assert u in queue;
      assert t in tasks || t == queue[i];
    }
    OneMoreHash(out, hashes, queue[i].hash);
  }

  lemma TakenOut(queue: seq<Task>, i: nat)
    requires i < |queue|
    ensures multiset(queue) == multiset(queue[..i] + queue[i + 1..]) + multiset{queue[i]}
    ensures forall u :: u in queue[..i] + queue[i + 1..] ==> u in queue
  {
    assert queue == queue[..i] + [queue[i]] + queue[i + 1..];
  }

  lemma StillDescending(tasks: seq<Task>, t: Task)
    requires Descending(tasks) && forall u :: u in tasks ==> t.depth <= u.depth
    ensures Descending(tasks + [t])
  {
  }

  lemma OneMoreHash(out: set<Hash>, hashes: seq<Hash>, x: Hash)
    ensures out + Elems(hashes) + {x} == out + Elems(hashes + [x])
  {
  }

  lemma PopGood(h: Hasher, cb: Callback, b: Book, out: set<Hash>, stuck: set<Hash>, i: nat)
    requires Good(h, cb, b, out, stuck) && i < |b.queue|
    ensures Good(h, cb, b.(queue := b.queue[..i] + b.queue[i + 1..]), out + {b.queue[i].hash}, stuck)
  {
    hide *;
    var c := b.(queue := b.queue[..i] + b.queue[i + 1..]);
    GoodParts(h, cb, b, out, stuck);
    SteadyParts(h, cb, b, multiset{}, {});
    HaveSame(b, c);
    PopQueued(b, out, i);
    SteadyFrom(h, cb, c, multiset{}, {});
    GoodFrom(h, cb, c, out + {b.queue[i].hash}, stuck);
  }

  lemma PopQueued(b: Book, out: set<Hash>, i: nat)
    requires Queued(b, out) && i < |b.queue|
    ensures Queued(b.(queue := b.queue[..i] + b.queue[i + 1..]), out + {b.queue[i].hash})
  {
    var rest := b.queue[..i] + b.queue[i + 1..];
    forall p | InQueue(b.queue, p) ensures p == b.queue[i].hash || InQueue(rest, p) {
      var t :| t in b.queue && t.hash == p;
      var j :| 0 <= j < |b.queue| && b.queue[j] == t;
      if j < i { assert rest[j] == t; } else if j > i { assert rest[j - 1] == t; }
    }
  }

  // ----- the root -----

  lemma RootThere(b: Book, root: Hash)
    ensures root in b.batch || root in b.db ==> root in Have(b)
  {
  }

  lemma RootGood(h: Hasher, cb: Callback, b: Book, out: set<Hash>, stuck: set<Hash>, root: Hash, depth: nat,
                 callback: bool)
    requires Good(h, cb, b, out, stuck) && root !in b.batch &&
             (root in b.db ==> DecodeNode(Some(root), b.db[root], 0).Err?)
    ensures var c := Schedule(b, root, Request(None, false, [], depth, 0, callback, false));
            Good(h, cb, c, out, stuck) && c.db == b.db && root in c.requests
  {
    hide *;
    var r := Request(None, false, [], depth, 0, callback, false);
    GoodParts(h, cb, b, out, stuck);
    NoTime(r.parents, multiset{});
    NewRoot(b, root);
    ScheduleSteady(h, cb, b, multiset{}, {}, root, r);
    SteadyLinked(h, cb, b, {});
    ScheduleRoot(h, cb, b, root, r, out, stuck);
    GoodFrom(h, cb, Schedule(b, root, r), out, stuck);
  }

  lemma NewRoot(b: Book, root: Hash)
    requires root !in b.batch && (root in b.db ==> DecodeNode(Some(root), b.db[root], 0).Err?)
    ensures Absent(b, root)
  {
    hide DecodeNode;
  }

  lemma ScheduleRoot(h: Hasher, cb: Callback, b: Book, x: Hash, r: Request, out: set<Hash>, stuck: set<Hash>)
    requires r.data.None? && !r.cut && r.parents == [] && Live(b.requests, {}, stuck) && Caused(h, cb, b.requests) &&
             Queued(b, out)
    requires Linked(b.requests, multiset{})
    ensures var c := Schedule(b, x, r);
            c.db == b.db && x in c.requests && Live(c.requests, {}, stuck) && Caused(h, cb, c.requests) && Queued(c, out)
  {
    hide *;
    RootCaused(h, cb, b, x, r);
    RootRest(b, x, r, out, stuck);
  }

  lemma RootRest(b: Book, x: Hash, r: Request, out: set<Hash>, stuck: set<Hash>)
    requires r.data.None? && !r.cut && r.parents == [] && Live(b.requests, {}, stuck) && Queued(b, out)
    ensures var c := Schedule(b, x, r);
            c.db == b.db && x in c.requests && Live(c.requests, {}, stuck) && Queued(c, out)
  {
    hide InQueue;
    ScheduleGrown(b, x, x, r);
  }

  lemma RootCaused(h: Hasher, cb: Callback, b: Book, x: Hash, r: Request)
    requires r.parents == [] && Caused(h, cb, b.requests) && Linked(b.requests, multiset{})
    ensures Caused(h, cb, Schedule(b, x, r).requests)
  {
    hide *;
    var rs := Schedule(b, x, r).requests;
    forall k, p | k in rs && p in rs[k].parents && p in rs ensures k in KidsOf(h, cb, p, rs[p]) {
      RootLink(b, x, r, k, p);
      CausedAt(h, cb, b.requests, k, p);
      SameKids(h, cb, p, b.requests[p], rs[p]);
    }
    CausedFrom(h, cb, rs);
  }

  lemma RootLink(b: Book, x: Hash, r: Request, k: Hash, p: Hash)
    requires r.parents == [] && Linked(b.requests, multiset{})
    requires var rs := Schedule(b, x, r).requests; k in rs && p in rs[k].parents && p in rs
    ensures k in b.requests && p in b.requests[k].parents && p in b.requests
    ensures var rs := Schedule(b, x, r).requests; rs[p] == b.requests[p]
  {
  }

  lemma CausedAt(h: Hasher, cb: Callback, rs: Requests, k: Hash, p: Hash)
    requires Caused(h, cb, rs) && k in rs && p in rs[k].parents && p in rs
    ensures k in KidsOf(h, cb, p, rs[p])
  {
    hide KidsOf;
  }

  lemma SameKids(h: Hasher, cb: Callback, p: Hash, r: Request, s: Request)
    requires s.data == r.data && s.callback == r.callback
    ensures KidsOf(h, cb, p, s) == KidsOf(h, cb, p, r)
  {
    hide NeededAs;
  }

  lemma StartGood(h: Hasher, cb: Callback, db: Blobs, kinds: Kinds)
    requires Closed(h, cb, kinds, db)
    ensures Good(h, cb, Book(db, map[], [], map[], [], kinds), {}, {})
  {
    hide *;
    var b := Book(db, map[], [], map[], [], kinds);
    NothingOrdered(h, cb, kinds, db.Keys, b.batch, b.order);
    NothingAsked(h, cb, b);
    SteadyFrom(h, cb, b, multiset{}, {});
    GoodFrom(h, cb, b, {}, {});
  }

  lemma NothingOrdered(h: Hasher, cb: Callback, kinds: Kinds, keys: set<Hash>, batch: Blobs, order: seq<Hash>)
    requires batch == map[] && order == []
    ensures Ordered(h, cb, kinds, keys, batch, order)
  {
  }

  lemma NothingAsked(h: Hasher, cb: Callback, b: Book)
    requires b.requests == map[]
    ensures Links(b.requests, multiset{}) && Waits(h, cb, b.kinds, Have(b), b.requests, {}) &&
            Pending(b.kinds, b.batch, b.requests)
    ensures Live(b.requests, {}, {}) && Caused(h, cb, b.requests) && Queued(b, {})
  {
  }

  lemma SteadyFrom(h: Hasher, cb: Callback, b: Book, flight: multiset<Hash>, busy: set<Hash>)
    requires Closed(h, cb, b.kinds, b.db) && Ordered(h, cb, b.kinds, b.db.Keys, b.batch, b.order)
    requires Links(b.requests, flight) && Waits(h, cb, b.kinds, Have(b), b.requests, busy) &&
             Pending(b.kinds, b.batch, b.requests)
    ensures Steady(h, cb, b, flight, busy)
  {
    hide Closed, Ordered, Links, Waits, Pending, Have;
  }

  lemma SteadyParts(h: Hasher, cb: Callback, b: Book, flight: multiset<Hash>, busy: set<Hash>)
    requires Steady(h, cb, b, flight, busy)
    ensures Closed(h, cb, b.kinds, b.db) && Ordered(h, cb, b.kinds, b.db.Keys, b.batch, b.order)
    ensures Links(b.requests, flight) && Waits(h, cb, b.kinds, Have(b), b.requests, busy) &&
            Pending(b.kinds, b.batch, b.requests)
  {
    hide Closed, Ordered, Links, Waits, Pending, Have;
  }

  // ----- writing -----

  /** The database after writing some entries of the batch. */
  function Written(db: Blobs, batch: Blobs, order: seq<Hash>): Blobs
  {
    if order == [] then db
    else
      var x := order[|order| - 1];
      Written(db, batch, order[..|order| - 1])[x := if x in batch then batch[x] else []]
  }

  /** The first i entries have been written. */
  ghost predicate Flushed(db: Blobs, b: Book, i: nat)
  {
    && i <= |b.order| && b.db == Written(db, b.batch, b.order[..i])
    && (forall j :: 0 <= j < i ==> b.order[j] in b.db)
  }

  lemma FlushStart(b: Book)
    ensures Flushed(b.db, b, 0)
  {
  }

  lemma FlushedClosed(h: Hasher, cb: Callback, db: Blobs, b: Book, i: nat, out: set<Hash>, stuck: set<Hash>)
    requires Good(h, cb, b, out, stuck) && Flushed(db, b, i)
    ensures Closed(h, cb, b.kinds, b.db) && b.db == Written(db, b.batch, b.order[..i])
  {
    hide Closed, Ordered, Links, Waits, Pending, Live, Caused, Queued, Written;
  }

  lemma FlushStep(h: Hasher, cb: Callback, db: Blobs, b: Book, i: nat, out: set<Hash>, stuck: set<Hash>)
    requires Good(h, cb, b, out, stuck) && Flushed(db, b, i) && i < |b.order|
    ensures b.order[i] in b.batch
    ensures var c := b.(db := b.db[b.order[i] := b.batch[b.order[i]]]);
            Good(h, cb, c, out, stuck) && Flushed(db, c, i + 1)
  {
    hide *;
    GoodParts(h, cb, b, out, stuck);
    SteadyParts(h, cb, b, multiset{}, {});
    OrderedAt(h, cb, b.kinds, b.db.Keys, b.batch, b.order, i);
    var x, data := b.order[i], b.batch[b.order[i]];
    var c := b.(db := b.db[x := data]);
    FlushedBefore(db, b, i);
    WriteClosed(h, cb, b.kinds, b.db, b.batch, b.order, i);
    MoreHave(b, x, data);
    MoreKeys(h, cb, b.kinds, b.db.Keys, c.db.Keys, b.batch, b.order);
    MoreWaits(h, cb, b.kinds, Have(b), Have(c), b.requests);
    WriteNext(db, b, i);
    QueuedSame(b, c, out);
    SteadyFrom(h, cb, c, multiset{}, {});
    GoodFrom(h, cb, c, out, stuck);
  }

  lemma FlushedBefore(db: Blobs, b: Book, i: nat)
    requires Flushed(db, b, i)
    ensures forall j :: 0 <= j < i ==> j < |b.order| && b.order[j] in b.db
  {
    hide Written;
  }

  lemma MoreWaits(h: Hasher, cb: Callback, kinds: Kinds, have: set<Hash>, more: set<Hash>, rs: Requests)
    requires Waits(h, cb, kinds, have, rs, {}) && have <= more
    ensures Waits(h, cb, kinds, more, rs, {})
  {
    hide *;
    SameKeeps(rs, have, more);
    WaitsKeep(h, cb, kinds, have, rs, {}, more, rs, {});
  }

  lemma QueuedSame(b: Book, c: Book, out: set<Hash>)
    requires c.requests == b.requests && c.queue == b.queue && Queued(b, out)
    ensures Queued(c, out)
  {
    hide InQueue;
  }

  lemma OrderedAt(h: Hasher, cb: Callback, kinds: Kinds, keys: set<Hash>, batch: Blobs, order: seq<Hash>, i: nat)
    requires Ordered(h, cb, kinds, keys, batch, order) && i < |order|
    ensures order[i] in batch
  {
    hide Needed;
    assert Follows(h, cb, kinds, keys, batch, order, i);
  }

  /** Writing the next entry leaves the database closed. */
  lemma WriteClosed(h: Hasher, cb: Callback, kinds: Kinds, db: Blobs, batch: Blobs, order: seq<Hash>, i: nat)
    requires Closed(h, cb, kinds, db) && Ordered(h, cb, kinds, db.Keys, batch, order) && i < |order| &&
             order[i] in batch
    requires forall j :: 0 <= j < i ==> order[j] in db
    ensures Closed(h, cb, kinds, db[order[i] := batch[order[i]]])
  {
    hide Needed;
    assert Follows(h, cb, kinds, db.Keys, batch, order, i);
    assert Elems(order[..i]) <= db.Keys;
  }

  lemma MoreKeys(h: Hasher, cb: Callback, kinds: Kinds, keys: set<Hash>, more: set<Hash>, batch: Blobs,
                 order: seq<Hash>)
    requires Ordered(h, cb, kinds, keys, batch, order) && keys <= more
    ensures Ordered(h, cb, kinds, more, batch, order)
  {
    hide Needed;
    forall i | 0 <= i < |order| ensures Follows(h, cb, kinds, more, batch, order, i) {
      assert Follows(h, cb, kinds, keys, batch, order, i);
    }
  }

  lemma MoreHave(b: Book, x: Hash, data: seq<byte>)
    ensures b.db.Keys <= b.db[x := data].Keys && Have(b) <= Have(b.(db := b.db[x := data]))
  {
  }

  lemma SameKeeps(rs: Requests, have: set<Hash>, more: set<Hash>)
    requires have <= more
    ensures Keeps(have, rs, more, rs)
  {
  }

  lemma WriteNext(db: Blobs, b: Book, i: nat)
    requires Flushed(db, b, i) && i < |b.order| && b.order[i] in b.batch
    ensures Flushed(db, b.(db := b.db[b.order[i] := b.batch[b.order[i]]]), i + 1)
  {
    assert b.order[..i + 1][..i] == b.order[..i];
  }

  lemma FlushEnd(h: Hasher, cb: Callback, db: Blobs, b: Book, out: set<Hash>, stuck: set<Hash>)
    requires Good(h, cb, b, out, stuck) && Flushed(db, b, |b.order|)
    ensures Good(h, cb, b.(batch := map[], order := []), out, stuck)
    ensures Closed(h, cb, b.kinds, b.db) && b.db == Written(db, b.batch, b.order[..|b.order|])
  {
    hide *;
    GoodParts(h, cb, b, out, stuck);
    SteadyParts(h, cb, b, multiset{}, {});
    FlushedClosed(h, cb, db, b, |b.order|, out, stuck);
    FlushedBefore(db, b, |b.order|);
    var c := b.(batch := map[], order := []);
    NothingOrdered(h, cb, c.kinds, c.db.Keys, c.batch, c.order);
    OrderedKeys(h, cb, b.kinds, b.db.Keys, b.batch, b.order);
    AllWritten(b, c);
    MoreWaits(h, cb, b.kinds, Have(b), Have(c), b.requests);
    FewerPending(b.kinds, b.batch, c.batch, b.requests);
    QueuedSame(b, c, out);
    SteadyFrom(h, cb, c, multiset{}, {});
    GoodFrom(h, cb, c, out, stuck);
  }

  lemma OrderedKeys(h: Hasher, cb: Callback, kinds: Kinds, keys: set<Hash>, batch: Blobs, order: seq<Hash>)
    requires Ordered(h, cb, kinds, keys, batch, order)
    ensures batch.Keys == Elems(order)
  {
    hide Follows;
  }

  lemma FewerPending(kinds: Kinds, batch: Blobs, fewer: Blobs, rs: Requests)
    requires Pending(kinds, batch, rs) && fewer == map[]
    ensures Pending(kinds, fewer, rs)
  {
  }

  lemma AllWritten(b: Book, c: Book)
    requires b.batch.Keys == Elems(b.order) && (forall j :: 0 <= j < |b.order| ==> b.order[j] in b.db) && c.db == b.db
    ensures Have(b) <= Have(c)
  {
  }

  // ----- the end -----

  lemma SteadyLinks(h: Hasher, cb: Callback, b: Book)
    requires Steady(h, cb, b, multiset{}, {})
    ensures Links(b.requests, multiset{})
  {
    hide Closed, Ordered, Links, Waits, Pending;
  }

  /** Who waits for whom. */
  ghost function WaitGraph(rs: Requests): Graph<Hash>
  {
    map p | p in rs :: set c | c in rs && p in rs[c].parents
  }

  /** If every request waits for something, some of them wait for each other in a circle. */
  lemma NoEnd(rs: Requests, p: Hash)
    requires Links(rs, multiset{}) && p in rs && forall q :: q in rs ==> rs[q].deps > 0
    ensures HasCycle(WaitGraph(rs))
  {
    hide HasCycle, Linked;
    var g := WaitGraph(rs);
    forall q | q in g ensures Leads(g, q) {
      if forall c :: c in rs ==> q !in rs[c].parents { OccNone(rs, rs.Keys, q); }
      var c :| c in rs && q in rs[c].parents;
      assert c in g[q];
    }
    EndlessCycle(g, p);
  }

  /** With nothing left to arrive, something is pending exactly if there is such a circle. */
  lemma PendingCycle(h: Hasher, cb: Callback, b: Book)
    requires Good(h, cb, b, {}, {}) && b.queue == []
    ensures b.requests == map[] <==> !HasCycle(WaitGraph(b.requests))
  {
    hide Steady, Links, HasCycle, WaitGraph, Caused;
    SteadyLinks(h, cb, b);
    if b.requests == map[] {
      NoGraph();
    } else {
      var p :| p in b.requests;
      NoEnd(b.requests, p);
    }
  }

  lemma NoGraph()
    ensures !HasCycle(WaitGraph(map[]))
  {
    forall path ensures !IsCycle(WaitGraph(map[]), path) {
      if |path| >= 2 { assert !Step(WaitGraph(map[]), path, 0); }
    }
  }
}
