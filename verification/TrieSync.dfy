/**
 The trie sync scheduler (trie/sync.go): requests that wait for their children are
 committed bottom-up, so that at every moment each entry of the database has there what
 it was first asked for. Every node has its children there if no hash is asked for both
 as raw data and as a node and no callback fails.
 */
module TrieSync {
  import opened Bytes
  import opened TrieNode
  import opened SyncBook
  import opened SyncSteps
  import opened SyncRound
  import opened SyncUses
  import opened Cycles

  datatype SyncResult = SyncResult(hash: Hash, data: seq<byte>)

  ghost function Hashes(rs: seq<SyncResult>): set<Hash> { set r | r in rs :: r.hash }

  class Sync {
    const h: Hasher
    const cb: Callback
    var book: Book
    /** Hashes handed out by Missing and not yet processed. */
    ghost var out: set<Hash>
    /** Requests whose callback failed, and among them those that had nothing to wait for. */
    ghost var failed: set<Hash>
    ghost var stuck: set<Hash>
    /** Every reference made so far, and those made before. */
    ghost var uses: set<Use>
    ghost const start: set<Use>

    ghost predicate Valid()
      reads this
    {
      Good(h, cb, book, out, stuck) && Noted(h, cb, book, uses, failed) && Sourced(cb, start, uses)
    }

    /** commit: the request goes to the batch, and so do those that waited for it alone. */
    method CommitRequest(x: Hash, ghost flight: multiset<Hash>)
      requires Steady(h, cb, book, flight, {x}) && Live(book.requests, {x}, stuck)
      requires x in book.requests && book.requests[x].data.Some? && book.requests[x].deps == 0
      requires Needed(h, cb, book.kinds, x, book.requests[x].data.value) <= Have(book)
      modifies this`book
      ensures Steady(h, cb, book, flight, {}) && Live(book.requests, {}, stuck)
      ensures Drained(old(book), book) && x !in book.requests && x in book.batch
      decreases |book.requests|, 0
    {
      hide *;
      var req := book.requests[x];
      NotInBatch(h, cb, book, flight, {x}, x);
      MoveSteady(h, cb, book, flight, x);
      MoveDrained(book, x);
      MoveLive(book, x, stuck);
      book := Moved(book, x);
      ghost var moved := book;
      DrainedSelf(book);
      AllParents(req.parents, flight);
      for i := 0 to |req.parents|
        invariant Steady(h, cb, book, flight + multiset(req.parents[i..]), {}) && Live(book.requests, {}, stuck)
        invariant Drained(moved, book)
      {
        ghost var more, was := flight + multiset(req.parents[i + 1..]), book;
        NextParent(req.parents, i, flight);
        DrainedSize(moved, book);
        Release(req.parents[i], more);
        DrainedTwice(moved, was, book);
      }
      NoParents(req.parents, flight);
      DrainedTwice(old(book), moved, book);
      DrainedKeeps(moved, book, x);
    }

    /** The body of commit's loop: a parent has one thing less to wait for. */
    method Release(p: Hash, ghost flight: multiset<Hash>)
      requires Steady(h, cb, book, flight + multiset{p}, {}) && Live(book.requests, {}, stuck)
      modifies this`book
      ensures Steady(h, cb, book, flight, {}) && Live(book.requests, {}, stuck)
      ensures Drained(old(book), book)
      decreases |book.requests|, 1
    {
      hide Steady, Needed, Have, Drained, Live;
      LowerSteady(h, cb, book, flight, p);
      LowerDrained(book, p);
      LowerLive(book, p, stuck);
      book := book.(requests := book.requests[p := book.requests[p].(deps := book.requests[p].deps - 1)]);
      ghost var lowered := book;
      if book.requests[p].deps == 0 {
        SteadyBusy(h, cb, book, flight, p);
        LowerHave(old(book), book);
        CommitRequest(p, flight);
        DrainedTwice(old(book), lowered, book);
      }
    }

    /** One call of the callback: AddSubTrie or AddRawEntry with x as parent. */
    method AddSub(s: Sub, x: Hash)
      requires Steady(h, cb, book, multiset{}, {x}) && x in book.requests
      modifies this`book
      ensures Steady(h, cb, book, multiset{}, {x}) && Grown(old(book), book, x, SubKid(h, s, x)) && x in book.requests
      ensures !Trivial(h, s) && x != ZeroHash() ==> Reached(Have(book), book.requests, x, s.hash)
      ensures book == AddedSub(h, old(book), s, x)
    {
      hide Steady, Grown, ZeroHash, DecodeNode, Trivial, WithSub, Have, Reached;
      GrownSelf(book, x, SubKid(h, s, x));
      SubThere(book, x, s.hash);
      if Trivial(h, s) || s.hash in book.batch { return; }
      if s.hash in book.db && (s.raw || DecodeNode(Some(s.hash), book.db[s.hash], 0).Ok?) { return; }
      WithSubOk(h, cb, book, s, x);
      book := WithSub(book, s, x);
    }

    /** All calls that the callback makes for one leaf. */
    method AddSubs(subs: seq<Sub>, x: Hash, ghost kids: set<Hash>)
      requires Steady(h, cb, book, multiset{}, {x}) && x in book.requests
      requires forall s :: s in subs ==> SubKid(h, s, x) <= kids
      modifies this`book
      ensures Steady(h, cb, book, multiset{}, {x}) && Grown(old(book), book, x, kids) && x in book.requests
      ensures x != ZeroHash() ==>
                forall s :: s in subs && !Trivial(h, s) ==> Reached(Have(book), book.requests, x, s.hash)
      ensures book == Announced(h, old(book), subs, x)
    {
      hide Steady, Grown, ZeroHash, Trivial, Have, Reached, SubKid, SubsReached, AddedSub;
      GrownSelf(book, x, kids);
      NoneReached(h, book, x, subs);
      for i := 0 to |subs|
        invariant Steady(h, cb, book, multiset{}, {x}) && Grown(old(book), book, x, kids) && x in book.requests
        invariant x != ZeroHash() ==> SubsReached(h, book, x, subs, i)
        invariant book == Announced(h, old(book), subs[..i], x)
      {
        ghost var was := book;
        AnnouncedStep(h, old(book), subs, i, x);
        AddSub(subs[i], x);
        GrownMore(was, book, x, SubKid(h, subs[i], x), kids);
        GrownStep(old(book), was, book, x, kids);
        if x != ZeroHash() { NextReached(h, was, book, x, subs, i, kids); }
      }
      assert subs[..|subs|] == subs;
      if x != ZeroHash() { LastReached(h, book, x, subs); }
    }

    /** The callback, if there is one, on one child, if that is a leaf. It may fail after some calls. */
    method CallBack(x: Hash, child: Node, callback: bool, ghost kids: set<Hash>) returns (ok: bool)
      requires Steady(h, cb, book, multiset{}, {x}) && x in book.requests && book.requests[x].callback == callback
      requires callback && child.Value? ==> forall s :: s in cb(child.value).subs ==> SubKid(h, s, x) <= kids
      modifies this`book
      ensures Steady(h, cb, book, multiset{}, {x}) && Grown(old(book), book, x, kids) && x in book.requests
      ensures ok == !Fails(cb, old(book).requests[x], ValuesIn([child]))
      ensures callback && x != ZeroHash() ==> SubsFound(h, cb, Have(book), book.requests, x, ValuesIn([child]))
      ensures book == Opened(h, cb, old(book), x, ValuesIn([child]))
    {
      hide Steady, Grown, ZeroHash, Have, Reached, SubKid, Trivial, SubsOf, Announced;
      GrownSelf(book, x, kids);
      LeafSubs(cb, child);
      if callback && child.Value? {
        AddSubs(cb(child.value).subs, x, kids);
        return cb(child.value).ok;
      }
      return true;
    }

    /**
     children: calls the callback for leaves, and returns the children that are to be
     requested, or nothing if the callback fails.
     */
    method Children(x: Hash, n: Node, ghost data: seq<byte>) returns (r: Option<seq<Task>>)
      requires Steady(h, cb, book, multiset{}, {x}) && x in book.requests && DecodeNode(Some(x), data, 0) == Ok(n)
      modifies this`book
      ensures Steady(h, cb, book, multiset{}, {x}) && x in book.requests
      ensures Grown(old(book), book, x, NeededBy(h, cb, Calls(old(book), x), n))
      ensures book == Opened(h, cb, old(book), x, Leaf(n)) && (r.None? <==> Fails(cb, old(book).requests[x], Leaf(n)))
      ensures r.None? ==> (x != ZeroHash() ==> SubsFound(h, cb, Have(book), book.requests, x, ValuesIn(ChildNodes(n))))
      ensures r.Some? ==> AllFound(h, cb, book, x, ChildNodes(n), Calls(old(book), x), r.value)
      ensures r.Some? ==> r.value == Gather(old(book), ChildNodes(n), KidDepth(old(book).requests[x], n))
    {
      hide *;
      var req, cs := book.requests[x], ChildNodes(n);
      var depth := KidDepth(req, n);
      ghost var calling := Calls(book, x);
      ghost var kids := NeededBy(h, cb, calling, n);
      ghost var b := book;
      var tasks: seq<Task> := [];
      GrownSelf(book, x, kids);
      FoundNone(h, cb, book, x, calling);
      NoChild(h, cb, b, x, cs, depth);
      CallsIs(b, x);
      LeafIs(n);
      for i := 0 to |cs|
        invariant Steady(h, cb, book, multiset{}, {x}) && Grown(b, book, x, kids) && x in book.requests
        invariant AllFound(h, cb, book, x, cs[..i], calling, tasks)
        invariant book == Opened(h, cb, b, x, ValuesIn(cs[..i])) && !Fails(cb, b.requests[x], ValuesIn(cs[..i]))
        invariant tasks == Gather(b, cs[..i], depth)
      {
        ghost var was, seen := book, tasks;
        SameCallback(b, book, x, kids);
        SubsNeeded(h, cb, n, i, calling, x);
        var ok := CallBack(x, cs[i], req.callback, kids);
        GrownStep(b, was, book, x, kids);
        if !ok {
          FailedChild(h, cb, b, was, book, x, data, n, i);
          return None;
        }
        PassedChild(h, cb, b, was, book, x, data, n, i);
        GrownParts(b, book, x, kids);
        CollectSame(b, book, cs[i], depth, tasks);
        GatherStep(b, cs, i, depth);
        tasks := Collect(book, cs[i], depth, tasks);
        FoundNext(h, cb, was, book, x, cs, i, calling, seen, tasks, kids);
      }
      assert cs[..|cs|] == cs;
      return Some(tasks);
    }

    /** Requests for the children of x are scheduled, and x waits for them. */
    method Expect(x: Hash, tasks: seq<Task>, ghost kids: set<Hash>)
      requires Steady(h, cb, book, multiset{}, {x}) && x in book.requests
      requires forall t :: t in tasks ==> t.hash in kids && t.hash !in Have(book)
      modifies this`book
      ensures Steady(h, cb, book, multiset{}, {x}) && Grown(old(book), book, x, kids) && x in book.requests
      ensures book.requests[x].deps == old(book).requests[x].deps + |tasks|
      ensures forall t :: t in tasks ==> Reached(Have(book), book.requests, x, t.hash)
      ensures book == Branched(old(book), x, tasks)
    {
      hide *;
      var callback := book.requests[x].callback;
      SpreadStart(h, cb, book, x, tasks, kids);
      book := Raised(book, x, |tasks|);
      for i := 0 to |tasks|
        invariant Spreading(h, cb, old(book), book, x, tasks, i, kids)
      {
        SpreadNext(h, cb, old(book), book, x, tasks, i, kids);
        book := Expected(book, x, tasks[i], callback);
      }
      SpreadEnd(h, cb, old(book), book, x, tasks, kids);
    }

    /** One result of Process. */
    method ProcessOne(x: Hash, data: seq<byte>) returns (o: Outcome)
      requires Valid()
      modifies this
      ensures Valid() && Processed(h, cb, old(book), x, data, book, o)
      ensures out == if Taken(o) then old(out) - {x} else old(out)
      ensures failed == if o.CallbackFailed? then old(failed) + {x} else old(failed)
      ensures stuck == if o.CallbackFailed? then Stuck(book, x, old(stuck)) else old(stuck)
      ensures uses == if Taken(o) then old(uses) + UsesOf(h, cb, old(book), x, data) else old(uses)
    {
      hide *;
      ValidIs(this);
      ghost var b, was := book, failed;
      GoodFacts(h, cb, b, out, stuck, x);
      o := Handle(x, data);
      GoodFacts(h, cb, book, out, stuck, x);
      ProcessedNoted(h, cb, b, uses, was, x, data, book, o);
      SourcedMore(h, cb, start, uses, b, x, data);
      TakenIs(o);
      if Taken(o) { uses := uses + UsesOf(h, cb, b, x, data); }
      ValidIs(this);
    }

    /** The body of the loop of Process. */
    method Handle(x: Hash, data: seq<byte>) returns (o: Outcome)
      requires Good(h, cb, book, out, stuck)
      modifies this`book, this`out, this`failed, this`stuck
      ensures Good(h, cb, book, out, stuck) && Processed(h, cb, old(book), x, data, book, o)
      ensures out == if o.Stored? || o.Waiting? || o.CallbackFailed? then old(out) - {x} else old(out)
      ensures failed == if o.CallbackFailed? then old(failed) + {x} else old(failed)
      ensures stuck == if o.CallbackFailed? then Stuck(book, x, old(stuck)) else old(stuck)
    {
      hide *;
      ghost var b := book;
      ProcessedNot(h, cb, b, x, data);
      if x !in book.requests { return NotRequested; }
      if book.requests[x].data.Some? { return AlreadyProcessed; }
      if book.requests[x].raw {
        o := ProcessRaw(x, data);
        ProcessedRaw(h, cb, b, x, data, book);
        return;
      }
      match DecodeNode(Some(x), data, 0)
      case Err(e) =>
        ProcessedBad(h, cb, b, x, data, e);
        return BadNode(e);
      case Ok(n) =>
        o := ProcessNode(x, data, n);
        ProcessedNode(h, cb, b, x, data, n, book, o);
    }

    /** A raw entry needs nothing. */
    method ProcessRaw(x: Hash, data: seq<byte>) returns (o: Outcome)
      requires Good(h, cb, book, out, stuck) && x in book.requests && book.requests[x].data.None? &&
               book.requests[x].raw
      modifies this`book, this`out
      ensures Good(h, cb, book, out, stuck) && o == Stored && out == old(out) - {x}
      ensures Drained(Filled(old(book), x, data), book) && x !in book.requests
    {
      hide *;
      GoodParts(h, cb, book, out, stuck);
      RawNeeds(h, cb, book, x, data);
      FillOk(h, cb, book, x, data, stuck);
      book := Filled(book, x, data);
      ghost var filled := book;
      CommitRequest(x, multiset{});
      RawFinal(h, cb, old(book), filled, book, x, data, out, stuck);
      out := out - {x};
      return Stored;
    }

    /**
     A node is stored if nothing is missing below it, and waits otherwise. If the
     callback fails, the children gathered so far are forgotten; the node waits for
     what the callback announced before, and for nothing if there was nothing.
     */
    method ProcessNode(x: Hash, data: seq<byte>, n: Node) returns (o: Outcome)
      requires Good(h, cb, book, out, stuck) && x in book.requests && book.requests[x].data.None? &&
               !book.requests[x].raw
      requires DecodeNode(Some(x), data, 0) == Ok(n)
      modifies this`book, this`out, this`failed, this`stuck
      ensures Good(h, cb, book, out, stuck) && Unfolded(h, cb, Filled(old(book), x, data), x, n, book, o) &&
              (o.Stored? || o.Waiting? || o.CallbackFailed?)
      ensures out == old(out) - {x}
      ensures failed == if o.CallbackFailed? then old(failed) + {x} else old(failed)
      ensures stuck == if o.CallbackFailed? then Stuck(book, x, old(stuck)) else old(stuck)
    {
      hide *;
      ghost var b := book;
      GoodParts(h, cb, b, out, stuck);
      NotCut(b, out, x);
      FillOk(h, cb, b, x, data, stuck);
      book := Filled(book, x, data);
      ghost var filled := book;
      FilledIs(b, x, data);
      var r := Children(x, n, data);
      ghost var m := book;
      if r.None? {
        FailsIs(cb, filled.requests[x], Leaf(n));
        CutFinal(h, cb, b, book, x, data, n, out, stuck);
        book := CutOff(book, x);
        UnfoldedCut(h, cb, filled, x, n, book);
        CutStuck(m, x, stuck);
        stuck := Stuck(m, x, stuck);
        out, failed := out - {x}, failed + {x};
        return CallbackFailed;
      }
      HalfFinal(h, cb, b, book, x, data, n, out, stuck, r.value);
      out := out - {x};
      o := Settle(x, data, n, r.value);
      UnfoldedRest(h, cb, filled, x, n, book, o);
    }

    /** Once the callback has been called: commit at once, or wait for the children. */
    method Settle(x: Hash, data: seq<byte>, n: Node, tasks: seq<Task>) returns (o: Outcome)
      requires Half(h, cb, book, x, data, n, out, stuck, tasks)
      modifies this`book
      ensures Good(h, cb, book, out, stuck) && x in old(book).requests
      ensures if tasks == [] && old(book).requests[x].deps == 0
              then o == Stored && Drained(old(book), book) && x !in book.requests
              else o == Waiting && book == Branched(old(book), x, tasks)
    {
      hide *;
      ghost var was := book;
      HalfParts(h, cb, book, x, data, n, out, stuck, tasks);
      if |tasks| == 0 && book.requests[x].deps == 0 {
        HalfStore(h, cb, book, x, data, n, out, stuck);
        CommitRequest(x, multiset{});
        HalfStored(h, cb, was, book, x, data, n, out, stuck);
        return Stored;
      }
      Expect(x, tasks, NeededBy(h, cb, Calls(book, x), n));
      HalfWaits(h, cb, was, book, x, data, n, out, stuck, tasks);
      return Waiting;
    }

    /** Process: the results one by one, up to the first that is refused. */
    method Process(results: seq<SyncResult>)
      returns (committed: bool, index: nat, failure: Option<Outcome>, ghost books: seq<Book>)
      requires Valid()
      modifies this
      ensures Valid() && Delivered(old(book), book, results) && out <= old(out) && old(uses) <= uses
      ensures AllHold(book, results, if failure.Some? then index else |results|)
      ensures failure.None? ==> out == old(out) - Hashes(results) && failed == old(failed) && stuck == old(stuck)
      ensures failure.Some? ==> index < |results| && !failure.value.Stored? && !failure.value.Waiting?
      ensures InTurn(h, cb, books, results) && books[0] == old(book)
      ensures failure.None? ==> |books| == |results| + 1 && books[|results|] == book
      ensures failure.Some? ==>
                && |books| == index + 1
                && Processed(h, cb, books[index], results[index].hash, results[index].data, book, failure.value)
    {
      hide *;
      committed := false;
      DeliveredSelf(book, results);
      NoneHold(book, results, out);
      books := [book];
      TurnStart(h, cb, book, results);
      for i := 0 to |results|
        invariant Valid() && Delivered(old(book), book, results) && AllHold(book, results, i) && old(uses) <= uses
        invariant out == old(out) - Hashes(results[..i]) && failed == old(failed) && stuck == old(stuck)
        invariant InTurn(h, cb, books, results) && |books| == i + 1 && books[0] == old(book) && books[i] == book
      {
        ghost var was := book;
        var x, data := results[i].hash, results[i].data;
        var o := ProcessOne(x, data);
        ValidIs(this);
        GoodFacts(h, cb, book, out, stuck, x);
        ProcessedArrived(h, cb, was, x, data, book, o);
        TakenIs(o);
        DeliveredStep(old(book), was, book, results, i, o);
        HashesStep(results, i, old(out));
        if !o.Stored? && !o.Waiting? { return committed, i, Some(o), books; }
        committed := committed || o.Stored?;
        TurnNext(h, cb, books, results, i, book, o);
        books := books + [book];
      }
      assert results[..|results|] == results;
      return committed, 0, None, books;
    }

    /** Missing: hands out queued hashes, the deepest first. */
    method Missing(max: nat) returns (hashes: seq<Hash>, ghost tasks: seq<Task>)
      requires Valid()
      modifies this`book, this`out
      ensures Valid() && book == old(book).(queue := book.queue) && out == old(out) + Elems(hashes)
      ensures Handed(old(book).queue, tasks, book.queue, hashes)
      ensures if max != 0 && |hashes| == max then true else book.queue == []
      ensures max != 0 ==> |hashes| <= max
    {
      hide *;
      ValidIs(this);
      hashes, tasks := [], [];
      NoneHanded(book.queue, out);
      while book.queue != [] && (max == 0 || |hashes| < max)
        invariant Good(h, cb, book, out, stuck) && book == old(book).(queue := book.queue)
        invariant Handed(old(book).queue, tasks, book.queue, hashes)
        invariant out == old(out) + Elems(hashes) && (max != 0 ==> |hashes| <= max)
        decreases |book.queue|
      {
        var i := Deepest(book.queue);
        var t := book.queue[i];
        PopGood(h, cb, book, out, stuck, i);
        HandOut(old(book).queue, tasks, book.queue, hashes, i, old(out));
        hashes, tasks := hashes + [t.hash], tasks + [t];
        out := out + {t.hash};
        book := book.(queue := book.queue[..i] + book.queue[i + 1..]);
      }
      NotedQueue(h, cb, old(book), book, uses, failed);
      ValidIs(this);
    }

    /** AddSubTrie without a parent, as NewSync calls it. */
    method AddSubTrie(root: Hash, depth: nat, callback: bool)
      requires Valid()
      modifies this`book, this`uses
      ensures Valid() && AskedFor(old(book)) <= AskedFor(book)
      ensures root == h([0x80]) || root in AskedFor(book)
      ensures uses == old(uses) + if root == h([0x80]) then {} else {Use(root, if callback then Calling else Plain)}
      ensures if root == h([0x80]) || root in old(book).batch ||
                 (root in old(book).db && DecodeNode(Some(root), old(book).db[root], 0).Ok?) then book == old(book)
              else book == Schedule(old(book), root, Request(None, false, [], depth, 0, callback, false))
    {
      hide *;
      ValidIs(this);
      if root == h([0x80]) { return; }
      var r := Request(None, false, [], depth, 0, callback, false);
      RootUse(h, cb, start, uses, root, callback);
      KindIs(r);
      NotedMore(h, cb, book, uses, uses + {Use(root, KindOf(r))}, failed);
      RootThere(book, root);
      AskedIs(book);
      if root in book.batch || (root in book.db && DecodeNode(Some(root), book.db[root], 0).Ok?) {
        uses := uses + {Use(root, if callback then Calling else Plain)};
        ValidIs(this);
        return;
      }
      RootGood(h, cb, book, out, stuck, root, depth, callback);
      NewRoot(book, root);
      NotedRoot(h, cb, book, uses, failed, root, r);
      RootAsked(book, root, r);
      book := Schedule(book, root, r);
      uses := uses + {Use(root, if callback then Calling else Plain)};
      ValidIs(this);
    }

    /** NewSync on a database that is closed under what its entries were asked for. */
    constructor (h: Hasher, cb: Callback, db: Blobs, kinds: Kinds, root: Hash, callback: bool, ghost start: set<Use>)
      requires Closed(h, cb, kinds, db) && Noted(h, cb, Book(db, map[], [], map[], [], kinds), start, {})
      ensures Valid() && book.db == db && this.h == h && this.cb == cb && this.start == start
      ensures failed == {} && stuck == {} && out == {}
      ensures root == h([0x80]) || root in AskedFor(book)
      ensures uses == start + if root == h([0x80]) then {} else {Use(root, if callback then Calling else Plain)}
      ensures var b := Book(db, map[], [], map[], [], kinds);
              if root == h([0x80]) || (root in db && DecodeNode(Some(root), db[root], 0).Ok?) then book == b
              else book == Schedule(b, root, Request(None, false, [], 0, 0, callback, false))
    {
      hide *;
      this.h, this.cb, this.start := h, cb, start;
      book := Book(db, map[], [], map[], [], kinds);
      out, failed, stuck, uses := {}, {}, {}, start;
      new;
      StartGood(h, cb, db, kinds);
      SourcedStart(cb, start);
      ValidIs(this);
      AddSubTrie(root, 0, callback);
      ScheduleDb(book, root, Request(None, false, [], 0, 0, callback, false), db, kinds);
    }

    /**
     Commit: writes the batch in order; writing entry number fail fails. Whatever the
     number, the database is at that moment closed under what its entries were first
     asked for, and under the children of all nodes if nothing is both raw data and a
     node and no callback has failed.
     */
    method Commit(fail: nat) returns (written: nat, ok: bool)
      requires Valid()
      modifies this`book
      ensures Valid() && Closed(h, cb, book.kinds, book.db)
      ensures RawApart(uses) && failed == {} ==> NodeClosed(h, cb, uses, book.db)
      ensures OneKind(uses) && failed == {} ==> UseClosed(h, cb, uses, book.db)
      ensures ok == (|old(book).order| <= fail) && written == Min(fail, |old(book).order|)
      ensures book.db == Written(old(book).db, old(book).batch, old(book).order[..written])
      ensures ok ==> book == old(book).(db := book.db, batch := map[], order := [])
      ensures !ok ==> book == old(book).(db := book.db)
      ensures Have(book) == Have(old(book)) && forall x, data :: Present(book, x, data) ==> Present(old(book), x, data)
    {
      hide *;
      ValidIs(this);
      ghost var b := book;
      book, written := Flush(h, cb, book, fail, out, stuck);
      MinIs(fail, |b.order|);
      FlushedClosed(h, cb, b.db, book, written, out, stuck);
      GoodOrdered(h, cb, b, out, stuck);
      if written < |book.order| {
        WrittenSame(b, book, written);
        ok := false;
      } else {
        FlushEnd(h, cb, b.db, book, out, stuck);
        book := book.(batch := map[], order := []);
        WrittenAll(b, book);
        ok := true;
      }
      NotedSame(h, cb, b, book, uses, failed);
      ValidIs(this);
      if failed == {} { NodeClosedWhen(h, cb, book, uses); }
    }
  }

  /** The loop of Commit: writes the entries in order, up to the one that fails. */
  method Flush(h: Hasher, cb: Callback, b: Book, fail: nat, ghost out: set<Hash>, ghost stuck: set<Hash>)
    returns (c: Book, written: nat)
    requires Good(h, cb, b, out, stuck)
    ensures written == Min(fail, |b.order|) && c == b.(db := c.db)
    ensures Good(h, cb, c, out, stuck) && Flushed(b.db, c, written)
  {
    hide *;
    MinIs(fail, |b.order|);
    FlushStart(b);
    c, written := b, 0;
    while written < |c.order| && written != fail
      invariant 0 <= written <= |b.order| && written <= fail && c == b.(db := c.db)
      invariant Good(h, cb, c, out, stuck) && Flushed(b.db, c, written)
    {
      FlushStep(h, cb, b.db, c, written, out, stuck);
      var x := c.order[written];
      c := c.(db := c.db[x := c.batch[x]]);
      written := written + 1;
    }
  }

  /** Result number i has been taken. */
  ghost predicate Took(h: Hasher, cb: Callback, books: seq<Book>, rs: seq<SyncResult>, i: nat)
    requires i < |rs| && i + 1 < |books|
  {
    exists o :: Processed(h, cb, books[i], rs[i].hash, rs[i].data, books[i + 1], o) && (o.Stored? || o.Waiting?)
  }

  /** The states between results that were taken one after the other. */
  ghost predicate InTurn(h: Hasher, cb: Callback, books: seq<Book>, rs: seq<SyncResult>)
  {
    0 < |books| <= |rs| + 1 && forall i :: 0 <= i < |books| - 1 ==> Took(h, cb, books, rs, i)
  }

  lemma TurnStart(h: Hasher, cb: Callback, b: Book, rs: seq<SyncResult>)
    ensures InTurn(h, cb, [b], rs)
  {
  }

  lemma TurnNext(h: Hasher, cb: Callback, books: seq<Book>, rs: seq<SyncResult>, k: nat, c: Book, o: Outcome)
    requires InTurn(h, cb, books, rs) && |books| == k + 1 && k < |rs| && (o.Stored? || o.Waiting?)
    requires Processed(h, cb, books[k], rs[k].hash, rs[k].data, c, o)
    ensures InTurn(h, cb, books + [c], rs)
  {
    hide Processed;
    var more := books + [c];
    forall i | 0 <= i < |more| - 1 ensures Took(h, cb, more, rs, i) {
      if i < k {
        assert Took(h, cb, books, rs, i);
        assert more[i] == books[i] && more[i + 1] == books[i + 1];
      } else {
        assert more[i] == books[k] && more[i + 1] == c;
      }
    }
  }

  /** What the first k results delivered is in the batch or with its request. */
  ghost predicate AllHold(b: Book, rs: seq<SyncResult>, k: nat)
  {
    forall i :: 0 <= i < k && i < |rs| ==> Holds(b, rs[i].hash, rs[i].data)
  }

  lemma NoneHold(b: Book, rs: seq<SyncResult>, out: set<Hash>)
    ensures AllHold(b, rs, 0) && out == out - Hashes(rs[..0])
  {
  }

  /**
   The results have been delivered, or some of them: no data is lost, none is there but
   from them, and nothing asked for is forgotten.
   */
  ghost predicate Delivered(b: Book, c: Book, rs: seq<SyncResult>)
  {
    && c.db == b.db && AskedFor(b) <= AskedFor(c) && Carries(b, c)
    && forall x, data :: Holds(c, x, data) ==> Holds(b, x, data) || SyncResult(x, data) in rs
  }

  lemma DeliveredSelf(b: Book, rs: seq<SyncResult>)
    ensures Delivered(b, b, rs)
  {
    hide Holds, AskedFor;
  }

  lemma DeliveredStep(a: Book, b: Book, c: Book, rs: seq<SyncResult>, k: nat, o: Outcome)
    requires Delivered(a, b, rs) && AllHold(b, rs, k) && k < |rs|
    requires if Taken(o) then Arrived(b, c, rs[k].hash, rs[k].data) else c == b
    ensures Delivered(a, c, rs) && AllHold(c, rs, k) && (Taken(o) ==> AllHold(c, rs, k + 1))
  {
    hide Holds, AskedFor;
    assert rs[k] in rs && rs[k] == SyncResult(rs[k].hash, rs[k].data);
  }

  lemma HashesStep(rs: seq<SyncResult>, k: nat, out: set<Hash>)
    requires k < |rs|
    ensures out - Hashes(rs[..k + 1]) == out - Hashes(rs[..k]) - {rs[k].hash}
  {
    assert rs[..k + 1] == rs[..k] + [rs[k]];
  }

  lemma MinIs(a: nat, b: nat)
    ensures Min(a, b) == if a < b then a else b
  {
  }

  lemma ValidIs(s: Sync)
    ensures s.Valid() <==>
            && Good(s.h, s.cb, s.book, s.out, s.stuck) && Noted(s.h, s.cb, s.book, s.uses, s.failed)
            && Sourced(s.cb, s.start, s.uses)
  {
    hide Good, Noted, Sourced;
  }

  /** Some leaf makes the callback ask for x as raw data. */
  ghost predicate Announces(cb: Callback, x: Hash) { exists v, s :: s in cb(v).subs && s.raw && s.hash == x }

  /** References to raw data are those from before and those that the callback makes. */
  ghost predicate Sourced(cb: Callback, start: set<Use>, uses: set<Use>)
  {
    forall r :: r in uses && r.kind.Raw? ==> r in start || Announces(cb, r.hash)
  }

  lemma SourcedStart(cb: Callback, start: set<Use>)
    ensures Sourced(cb, start, start)
  {
  }

  lemma SourcedMore(h: Hasher, cb: Callback, start: set<Use>, uses: set<Use>, b: Book, x: Hash, data: seq<byte>)
    requires Sourced(cb, start, uses)
    ensures Sourced(cb, start, uses + UsesOf(h, cb, b, x, data))
  {
    hide DecodeNode, Trivial, Leaf, Announces;
    forall r | r in UsesOf(h, cb, b, x, data) && r.kind.Raw? ensures Announces(cb, r.hash) {
      var n := DecodeNode(Some(x), data, 0).value;
      var s :| s in SubsOf(cb, Leaf(n)) && s.raw && s.hash == r.hash;
      Announcer(cb, Leaf(n), s);
    }
  }

  lemma {:induction false} Announcer(cb: Callback, leaves: seq<seq<byte>>, s: Sub)
    requires s in SubsOf(cb, leaves) && s.raw
    ensures Announces(cb, s.hash)
  {
    if s !in cb(leaves[0]).subs { Announcer(cb, leaves[1..], s); }
  }

  lemma RootUse(h: Hasher, cb: Callback, start: set<Use>, uses: set<Use>, root: Hash, callback: bool)
    requires Sourced(cb, start, uses)
    ensures Sourced(cb, start, uses + {Use(root, if callback then Calling else Plain)})
  {
    hide Announces;
  }

  lemma AskedIs(b: Book)
    ensures AskedFor(b) == Have(b) + b.requests.Keys
  {
  }

  lemma RootAsked(b: Book, root: Hash, r: Request)
    ensures AskedFor(b) <= AskedFor(Schedule(b, root, r)) && root in AskedFor(Schedule(b, root, r))
  {
  }

  lemma ScheduleDb(c: Book, root: Hash, r: Request, db: Blobs, kinds: Kinds)
    ensures Schedule(Book(db, map[], [], map[], [], kinds), root, r).db == db
  {
  }

  lemma GoodFacts(h: Hasher, cb: Callback, b: Book, out: set<Hash>, stuck: set<Hash>, x: Hash)
    requires Good(h, cb, b, out, stuck)
    ensures Apart(b) && (x in b.requests ==> x in b.kinds && b.kinds[x] == KindOf(b.requests[x]))
    ensures x in b.requests && b.requests[x].data.None? ==> !b.requests[x].cut
  {
    hide Closed, Ordered, Links, Waits, Live, Caused, InQueue;
  }

  lemma GoodOrdered(h: Hasher, cb: Callback, b: Book, out: set<Hash>, stuck: set<Hash>)
    requires Good(h, cb, b, out, stuck)
    ensures b.batch.Keys == Elems(b.order)
  {
    hide Closed, Links, Waits, Live, Caused, Queued, Pending, Follows;
  }

  lemma CutStuck(b: Book, x: Hash, stuck: set<Hash>)
    requires x in b.requests
    ensures Stuck(CutOff(b, x), x, stuck) == Stuck(b, x, stuck)
  {
  }

  lemma NotedQueue(h: Hasher, cb: Callback, b: Book, c: Book, uses: set<Use>, failed: set<Hash>)
    requires Noted(h, cb, b, uses, failed) && c == b.(queue := c.queue)
    ensures Noted(h, cb, c, uses, failed)
  {
    hide *;
    forall x, data | Present(c, x, data) ensures Present(b, x, data) {
      SamePresent(b, c, x, data);
    }
    NotedSame(h, cb, b, c, uses, failed);
  }

  lemma SamePresent(b: Book, c: Book, x: Hash, data: seq<byte>)
    requires c == b.(queue := c.queue)
    ensures Present(c, x, data) <==> Present(b, x, data)
  {
  }

  // ----- requests for children, one at a time -----

  /** The first i requests have been scheduled. */
  ghost predicate Spreading(h: Hasher, cb: Callback, b: Book, c: Book, x: Hash, tasks: seq<Task>, i: nat,
                            kids: set<Hash>)
  {
    && i <= |tasks| && x in b.requests && x in c.requests
    && Steady(h, cb, c, Times(x, |tasks| - i), {x}) && Grown(b, c, x, kids)
    && c.requests[x].deps == b.requests[x].deps + |tasks| && Have(c) == Have(b)
    && TasksReached(c, x, tasks, i)
    && c == Spread(Raised(b, x, |tasks|), x, tasks[..i], b.requests[x].callback)
  }

  lemma SpreadStart(h: Hasher, cb: Callback, b: Book, x: Hash, tasks: seq<Task>, kids: set<Hash>)
    requires Steady(h, cb, b, multiset{}, {x}) && x in b.requests
    ensures Spreading(h, cb, b, Raised(b, x, |tasks|), x, tasks, 0, kids)
  {
    hide Steady, Times, Grown, Have, TasksReached, Spread, Raised;
    RaiseOk(h, cb, b, x, |tasks|, kids);
    NoTaskReached(Raised(b, x, |tasks|), x, tasks);
    BranchedIs(b, x, tasks);
  }

  lemma SpreadNext(h: Hasher, cb: Callback, b: Book, c: Book, x: Hash, tasks: seq<Task>, i: nat, kids: set<Hash>)
    requires Spreading(h, cb, b, c, x, tasks, i, kids) && i < |tasks|
    requires tasks[i].hash in kids && tasks[i].hash !in Have(b)
    ensures x in b.requests
    ensures Spreading(h, cb, b, Expected(c, x, tasks[i], b.requests[x].callback), x, tasks, i + 1, kids)
  {
    hide Steady, Times, Grown, Have, TasksReached, Spread, Raised, Expected, Reached;
    var callback := b.requests[x].callback;
    ExpectOk(h, cb, c, x, tasks[i], callback, |tasks| - i, kids);
    SpreadStep(Raised(b, x, |tasks|), x, tasks, i, callback);
    var d := Expected(c, x, tasks[i], callback);
    GrownStep(b, c, d, x, kids);
    NextTaskReached(c, d, x, tasks, i, kids);
  }

  lemma SpreadEnd(h: Hasher, cb: Callback, b: Book, c: Book, x: Hash, tasks: seq<Task>, kids: set<Hash>)
    requires Spreading(h, cb, b, c, x, tasks, |tasks|, kids)
    ensures x in b.requests && x in c.requests && c.requests[x].deps == b.requests[x].deps + |tasks|
    ensures Steady(h, cb, c, multiset{}, {x}) && Grown(b, c, x, kids) && c == Branched(b, x, tasks)
    ensures forall t :: t in tasks ==> Reached(Have(c), c.requests, x, t.hash)
  {
    hide Steady, Times, Grown, Have, TasksReached, Spread, Raised, Branched, Reached;
    assert tasks[..|tasks|] == tasks;
    NoTimes(x);
    BranchedIs(b, x, tasks);
    LastTaskReached(c, x, tasks);
  }

  // ----- writing -----

  lemma {:induction false} WrittenAt(db: Blobs, batch: Blobs, order: seq<Hash>)
    requires forall x :: x in order ==> x in batch
    ensures Written(db, batch, order).Keys == db.Keys + Elems(order)
    ensures forall x :: x in Written(db, batch, order) ==>
                          Written(db, batch, order)[x] == if x in order then batch[x] else db[x]
    decreases |order|
  {
    if order != [] {
      var rest, x := order[..|order| - 1], order[|order| - 1];
      assert order == rest + [x];
      assert forall y :: y in rest ==> y in order;
      WrittenAt(db, batch, rest);
    }
  }

  /** A part of the batch has been written. */
  lemma WrittenSame(b: Book, c: Book, k: nat)
    requires k <= |b.order| && b.batch.Keys == Elems(b.order)
    requires c == b.(db := c.db) && c.db == Written(b.db, b.batch, b.order[..k])
    ensures Have(c) == Have(b) && forall x, data :: Present(c, x, data) ==> Present(b, x, data)
  {
    hide Written;
    forall x | x in b.order[..k] ensures x in b.batch { assert x in Elems(b.order); }
    WrittenAt(b.db, b.batch, b.order[..k]);
  }

  /** The whole batch has been written. */
  lemma WrittenAll(b: Book, c: Book)
    requires b.batch.Keys == Elems(b.order)
    requires c == b.(db := c.db, batch := map[], order := []) && c.db == Written(b.db, b.batch, b.order[..|b.order|])
    ensures Have(c) == Have(b) && forall x, data :: Present(c, x, data) ==> Present(b, x, data)
  {
    hide Written;
    assert b.order[..|b.order|] == b.order;
    forall x | x in b.order ensures x in b.batch { assert x in Elems(b.order); }
    WrittenAt(b.db, b.batch, b.order);
  }

  /**
   When nothing is queued, all that was handed out has been processed and no callback has
   failed without announcing anything, nothing is pending exactly if no requests wait for
   each other in a circle.
   */
  lemma NothingPending(s: Sync)
    requires s.Valid() && s.stuck == {} && s.out == {} && s.book.queue == []
    ensures s.book.requests == map[] <==> !HasCycle(WaitGraph(s.book.requests))
  {
    hide *;
    ValidIs(s);
    PendingCycle(s.h, s.cb, s.book);
  }
}
