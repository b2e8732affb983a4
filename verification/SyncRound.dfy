/**
 What one result does to the state of the scheduler (trie/sync.go), as functions: the
 callback announces, children are gathered and requested. Only the cascade of commits
 is left to a relation.
 */
module SyncRound {
  import opened Bytes
  import opened TrieNode
  import opened SyncBook
  import opened SyncSteps

  /** One call that the callback makes, AddSubTrie or AddRawEntry, with x as parent. */
  function AddedSub(h: Hasher, b: Book, s: Sub, x: Hash): (c: Book)
    requires x in b.requests
    ensures x in c.requests
  {
    if Trivial(h, s) || s.hash in b.batch then b
    else if s.hash in b.db && (s.raw || DecodeNode(Some(s.hash), b.db[s.hash], 0).Ok?) then b
    else
      WithSubHas(b, s, x);
      WithSub(b, s, x)
  }

  lemma WithSubHas(b: Book, s: Sub, x: Hash)
    requires x in b.requests
    ensures x in WithSub(b, s, x).requests
  {
    hide ZeroHash;
  }

  /** All calls for one leaf, in order. */
  function Announced(h: Hasher, b: Book, subs: seq<Sub>, x: Hash): (c: Book)
    requires x in b.requests
    ensures x in c.requests
  {
    if subs == [] then b
    else AddedSub(h, Announced(h, b, subs[..|subs| - 1], x), subs[|subs| - 1], x)
  }

  lemma AnnouncedStep(h: Hasher, b: Book, subs: seq<Sub>, i: nat, x: Hash)
    requires x in b.requests && i < |subs|
    ensures Announced(h, b, subs[..i + 1], x) == AddedSub(h, Announced(h, b, subs[..i], x), subs[i], x)
  {
    hide AddedSub;
    assert subs[..i + 1][..i] == subs[..i];
  }

  /** The values of a node; there is at most one. */
  function Leaf(n: Node): seq<seq<byte>> { ValuesIn(ChildNodes(n)) }

  /** The state after the callback has been called. */
  function Opened(h: Hasher, cb: Callback, b: Book, x: Hash, leaf: seq<seq<byte>>): (c: Book)
    requires x in b.requests
    ensures x in c.requests
  {
    if b.requests[x].callback && leaf != [] then Announced(h, b, cb(leaf[0]).subs, x) else b
  }

  predicate Fails(cb: Callback, r: Request, leaf: seq<seq<byte>>) { r.callback && leaf != [] && !cb(leaf[0]).ok }

  function KidDepth(r: Request, n: Node): nat { r.depth + if n.Short? then |n.key| else 1 }

  /** The children to be requested. */
  function Gather(b: Book, cs: seq<Node>, depth: nat): seq<Task>
  {
    if cs == [] then [] else Collect(b, cs[|cs| - 1], depth, Gather(b, cs[..|cs| - 1], depth))
  }

  lemma GatherStep(b: Book, cs: seq<Node>, i: nat, depth: nat)
    requires i < |cs|
    ensures Gather(b, cs[..i + 1], depth) == Collect(b, cs[i], depth, Gather(b, cs[..i], depth))
  {
    assert cs[..i + 1][..i] == cs[..i];
  }

  lemma CollectSame(b: Book, c: Book, child: Node, depth: nat, tasks: seq<Task>)
    requires c.db == b.db && c.batch == b.batch
    ensures Collect(c, child, depth, tasks) == Collect(b, child, depth, tasks)
  {
  }

  lemma {:induction false} GatherSame(b: Book, c: Book, cs: seq<Node>, depth: nat)
    requires c.db == b.db && c.batch == b.batch
    ensures Gather(c, cs, depth) == Gather(b, cs, depth)
  {
    if cs != [] { GatherSame(b, c, cs[..|cs| - 1], depth); }
  }

  /** Requests for them are scheduled. */
  function Spread(b: Book, x: Hash, tasks: seq<Task>, callback: bool): Book
  {
    if tasks == [] then b else Expected(Spread(b, x, tasks[..|tasks| - 1], callback), x, tasks[|tasks| - 1], callback)
  }

  lemma SpreadStep(b: Book, x: Hash, tasks: seq<Task>, i: nat, callback: bool)
    requires i < |tasks|
    ensures Spread(b, x, tasks[..i + 1], callback) ==
            Expected(Spread(b, x, tasks[..i], callback), x, tasks[i], callback)
  {
    hide Expected;
    assert tasks[..i + 1][..i] == tasks[..i];
  }

  /** Request x waits for its children. */
  function Branched(b: Book, x: Hash, tasks: seq<Task>): Book
    requires x in b.requests
  {
    Spread(Raised(b, x, |tasks|), x, tasks, b.requests[x].callback)
  }

  lemma BranchedIs(b: Book, x: Hash, tasks: seq<Task>)
    requires x in b.requests
    ensures var m := Raised(b, x, |tasks|);
            && Branched(b, x, tasks) == Spread(m, x, tasks, b.requests[x].callback)
            && m == Spread(m, x, tasks[..0], b.requests[x].callback)
  {
    hide Raised, Expected;
  }

  lemma NoTimes(x: Hash)
    ensures Times(x, 0) == multiset{}
  {
  }

  /** The data of x is a node: the outcome, and the state after it apart from the cascade of commits. */
  ghost predicate Unfolded(h: Hasher, cb: Callback, b: Book, x: Hash, n: Node, c: Book, o: Outcome)
    requires x in b.requests
  {
    var m := Opened(h, cb, b, x, Leaf(n));
    var tasks := Gather(b, ChildNodes(n), KidDepth(b.requests[x], n));
    if Fails(cb, b.requests[x], Leaf(n)) then o == CallbackFailed && c == CutOff(m, x)
    else if tasks == [] && m.requests[x].deps == 0 then o == Stored && Drained(m, c) && x !in c.requests
    else o == Waiting && c == Branched(m, x, tasks)
  }

  /** One result of Process. */
  ghost predicate Processed(h: Hasher, cb: Callback, b: Book, x: Hash, data: seq<byte>, c: Book, o: Outcome)
  {
    if x !in b.requests then o == NotRequested && c == b
    else if b.requests[x].data.Some? then o == AlreadyProcessed && c == b
    else if b.requests[x].raw then o == Stored && Drained(Filled(b, x, data), c) && x !in c.requests
    else
      match DecodeNode(Some(x), data, 0)
      case Err(e) => o == BadNode(e) && c == b
      case Ok(n) => Unfolded(h, cb, Filled(b, x, data), x, n, c, o)
  }

  lemma FailsIs(cb: Callback, r: Request, leaf: seq<seq<byte>>)
    ensures Fails(cb, r, leaf) ==> r.callback
  {
  }

  lemma UnfoldedCut(h: Hasher, cb: Callback, b: Book, x: Hash, n: Node, c: Book)
    requires x in b.requests && Fails(cb, b.requests[x], Leaf(n)) && c == CutOff(Opened(h, cb, b, x, Leaf(n)), x)
    ensures Unfolded(h, cb, b, x, n, c, CallbackFailed)
  {
    hide Opened, Gather, Fails, CutOff, Leaf;
  }

  lemma UnfoldedRest(h: Hasher, cb: Callback, b: Book, x: Hash, n: Node, c: Book, o: Outcome)
    requires x in b.requests && !Fails(cb, b.requests[x], Leaf(n))
    requires var m := Opened(h, cb, b, x, Leaf(n));
             var tasks := Gather(b, ChildNodes(n), KidDepth(b.requests[x], n));
             if tasks == [] && m.requests[x].deps == 0 then o == Stored && Drained(m, c) && x !in c.requests
             else o == Waiting && c == Branched(m, x, tasks)
    ensures Unfolded(h, cb, b, x, n, c, o)
  {
    hide Opened, Gather, Fails, Leaf, Drained, Branched;
  }

  lemma ProcessedNot(h: Hasher, cb: Callback, b: Book, x: Hash, data: seq<byte>)
    ensures x !in b.requests ==> Processed(h, cb, b, x, data, b, NotRequested)
    ensures x in b.requests && b.requests[x].data.Some? ==> Processed(h, cb, b, x, data, b, AlreadyProcessed)
  {
    hide Unfolded, DecodeNode;
  }

  lemma ProcessedRaw(h: Hasher, cb: Callback, b: Book, x: Hash, data: seq<byte>, c: Book)
    requires x in b.requests && b.requests[x].data.None? && b.requests[x].raw
    requires Drained(Filled(b, x, data), c) && x !in c.requests
    ensures Processed(h, cb, b, x, data, c, Stored)
  {
    hide Unfolded, DecodeNode, Drained;
  }

  lemma ProcessedBad(h: Hasher, cb: Callback, b: Book, x: Hash, data: seq<byte>, e: NodeError)
    requires x in b.requests && b.requests[x].data.None? && !b.requests[x].raw && DecodeNode(Some(x), data, 0) == Err(e)
    ensures Processed(h, cb, b, x, data, b, BadNode(e))
  {
    hide Unfolded, DecodeNode;
  }

  lemma ProcessedNode(h: Hasher, cb: Callback, b: Book, x: Hash, data: seq<byte>, n: Node, c: Book, o: Outcome)
    requires x in b.requests && b.requests[x].data.None? && !b.requests[x].raw && DecodeNode(Some(x), data, 0) == Ok(n)
    requires Unfolded(h, cb, Filled(b, x, data), x, n, c, o)
    ensures Processed(h, cb, b, x, data, c, o)
  {
    hide Unfolded, DecodeNode, Filled;
  }

  // ----- going through the children -----

  lemma NoChild(h: Hasher, cb: Callback, b: Book, x: Hash, cs: seq<Node>, depth: nat)
    requires x in b.requests
    ensures cs[..0] == [] && Opened(h, cb, b, x, ValuesIn(cs[..0])) == b && !Fails(cb, b.requests[x], ValuesIn(cs[..0]))
    ensures Gather(b, cs[..0], depth) == []
  {
  }

  lemma CallsIs(b: Book, x: Hash)
    requires x in b.requests
    ensures Calls(b, x) == (b.requests[x].callback && x != ZeroHash())
  {
    hide ZeroHash;
  }

  lemma LeafIs(n: Node)
    ensures Leaf(n) == ValuesIn(ChildNodes(n))
  {
    hide ValuesIn, ChildNodes;
  }

  lemma SameCallback(b: Book, c: Book, x: Hash, kids: set<Hash>)
    requires Grown(b, c, x, kids) && x in b.requests
    ensures x in c.requests && c.requests[x].callback == b.requests[x].callback
  {
    hide InQueue;
    assert GrownRequest(b.requests[x], c.requests[x], true);
  }

  /** The callback has failed on child number i, which is the only value. */
  lemma FailedChild(h: Hasher, cb: Callback, b: Book, m: Book, c: Book, x: Hash, data: seq<byte>, n: Node, i: nat)
    requires x in b.requests && x in m.requests && DecodeNode(Some(x), data, 0) == Ok(n) && i < |ChildNodes(n)|
    requires m == Opened(h, cb, b, x, ValuesIn(ChildNodes(n)[..i])) &&
             c == Opened(h, cb, m, x, ValuesIn([ChildNodes(n)[i]]))
    requires Fails(cb, m.requests[x], ValuesIn([ChildNodes(n)[i]]))
    ensures c == Opened(h, cb, b, x, ValuesIn(ChildNodes(n))) && Fails(cb, b.requests[x], ValuesIn(ChildNodes(n)))
    ensures ValuesIn(ChildNodes(n)) == ValuesIn([ChildNodes(n)[i]]) && m == b && b.requests[x].callback
  {
    hide DecodeNode, Announced, ChildNodes;
    OneValue(Some(x), data, 0, i);
  }

  lemma PassedChild(h: Hasher, cb: Callback, b: Book, m: Book, c: Book, x: Hash, data: seq<byte>, n: Node, i: nat)
    requires x in b.requests && x in m.requests && DecodeNode(Some(x), data, 0) == Ok(n) && i < |ChildNodes(n)|
    requires m == Opened(h, cb, b, x, ValuesIn(ChildNodes(n)[..i])) &&
             c == Opened(h, cb, m, x, ValuesIn([ChildNodes(n)[i]]))
    requires !Fails(cb, b.requests[x], ValuesIn(ChildNodes(n)[..i])) &&
             !Fails(cb, m.requests[x], ValuesIn([ChildNodes(n)[i]]))
    ensures c == Opened(h, cb, b, x, ValuesIn(ChildNodes(n)[..i + 1])) &&
            !Fails(cb, b.requests[x], ValuesIn(ChildNodes(n)[..i + 1]))
  {
    hide DecodeNode, Announced, ChildNodes;
    var cs := ChildNodes(n);
    assert cs[..i + 1] == cs[..i] + [cs[i]];
    ValuesSnoc(cs[..i], cs[i]);
    if cs[i].Value? { OneValue(Some(x), data, 0, i); }
  }
}
