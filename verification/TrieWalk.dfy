/**
 The node iterator itself (trie/iterator.go): a stack of nodes with the number of
 the child that was visited last, and the path to the current node.
 */
module TrieWalk {
  import opened Bytes
  import opened HexPrefix
  import opened TrieTree
  import opened TrieNode
  import opened TrieRep
  import opened PathOrder
  import opened TrieIterator
  import Ops = TrieOps

  /** nodeIteratorState */
  datatype Frame = Frame(hash: Hash, node: Node, index: int, pathlen: nat)

  datatype IterError = NoError | End | SeekFailed(start: seq<byte>, cause: TrieError) | Failed(error: TrieError)

  ghost predicate Standing(t: Tree, root: bool) { (Good(t) || (root && t.Empty?)) && Bounded(t) }

  /** A loaded node for the tree, with its hash or with no hash. */
  ghost predicate FrameOk(env: Env, f: Frame, t: Tree, root: bool)
  {
    && f.index >= -1 && !f.node.HashNode? && Rep(env, f.node, t, root) && Standing(t, root)
    && HashFits(env.h, f.hash, t)
  }

  /** No hash, or the hash of the node. */
  ghost predicate HashFits(h: Hasher, hash: Hash, t: Tree) { hash == ZeroHash() || (Inner(t) && hash == HashOf(h, t)) }

  ghost predicate FramesOk(env: Env, fs: seq<Frame>, ts: seq<Tree>)
  {
    |fs| == |ts| && forall i :: 0 <= i < |fs| ==> FrameOk(env, fs[i], ts[i], i == 0)
  }

  /** Each node on the stack knows how long the path to the node below it is. */
  ghost predicate Placed(fs: seq<Frame>, path: seq<byte>)
  {
    if fs == [] then path == []
    else
      var top := fs[|fs| - 1];
      top.index >= -1 && top.pathlen <= |path| && Placed(fs[..|fs| - 1], path[..top.pathlen])
  }

  /** What is still to be visited: the further children of the top node, then of those below it. */
  ghost function Rest(fs: seq<Frame>, ts: seq<Tree>, path: seq<byte>): seq<Visit>
    requires |fs| == |ts| && Placed(fs, path)
  {
    if fs == [] then []
    else
      var n := |fs| - 1;
      Kids(ts[n], path, fs[n].index + 1) + Rest(fs[..n], ts[..n], path[..fs[n].pathlen])
  }

  /** push: the parent has visited one more child. */
  function Pushed(fs: seq<Frame>, f: Frame): seq<Frame>
  {
    if fs == [] then [f]
    else fs[|fs| - 1 := fs[|fs| - 1].(index := fs[|fs| - 1].index + 1)] + [f]
  }

  /** cache: the hash that a node carries. */
  function NodeHash(n: Node): Hash
  {
    if (n.Short? || n.Full?) && n.flags.hash.Some? then n.flags.hash.value else ZeroHash()
  }

  /** nodeIteratorState.resolve */
  function ResolveFrame(env: Env, f: Frame, gen: nat): Result<Frame, TrieError>
  {
    if f.node.HashNode? then
      match ResolveHash(env, f.node.hash, gen)
      case Err(e) => Err(e)
      case Ok(n) => Ok(f.(node := n, hash := f.node.hash))
    else Ok(f)
  }

  lemma {:induction false} ResolveOk(env: Env, n: Node, hash: Hash, pathlen: nat, gen: nat, t: Tree, root: bool)
    requires Rep(env, n, t, root) && Standing(t, root)
    requires !n.HashNode? ==> HashFits(env.h, hash, t)
    ensures var r := ResolveFrame(env, Frame(hash, n, -1, pathlen), gen);
            if r.Ok? then FrameOk(env, r.value, t, root) && r.value.index == -1 && r.value.pathlen == pathlen
            else Ops.OnlyMissing(env, r.error)
  {
    hide Rep, Bounded, HashOf, Norm, ResolveHash, NodeOf;
    if n.HashNode? {
      HashNodeInner(env, n, t, root);
      Resolves(env, n.hash, t, root, gen);
      NodeOfLoaded(env.h, t, Some(n.hash), gen);
    }
  }

  lemma {:induction false} HashNodeInner(env: Env, n: Node, t: Tree, root: bool)
    requires n.HashNode? && Rep(env, n, t, root) && Standing(t, root)
    ensures Sound(t, false) && n.hash == HashOf(env.h, t) && Inner(t)
  {
    hide Bounded, Stored, HashOf;
  }

  lemma {:induction false} NodeOfLoaded(h: Hasher, t: Tree, hash: Option<Hash>, gen: nat)
    requires Inner(t)
    ensures !NodeOf(h, t, hash, gen).HashNode?
  {
  }

  // ----- moving on -----

  /** What nextChild finds: the number of the next child. */
  ghost predicate NextFound(t: Tree, i: nat)
  {
    (t.Ext? && i == 0) || (t.Branch? && i < |t.children| == 17 && !t.children[i].Empty?)
  }

  ghost function Child(t: Tree, i: nat): Tree
    requires NextFound(t, i)
  {
    if t.Ext? then t.child else t.children[i]
  }

  ghost function ChildPath(t: Tree, p: seq<byte>, i: nat): seq<byte>
    requires NextFound(t, i)
  {
    p + if t.Ext? then t.key else [i]
  }

  lemma {:induction false} KidsNext(t: Tree, p: seq<byte>, i: nat)
    requires NextFound(t, i) && !Child(t, i).Empty?
    ensures Kids(t, p, i) == [Visit(ChildPath(t, p, i), Child(t, i))] + Kids(Child(t, i), ChildPath(t, p, i),
                                                                             0) + Kids(t, p, i + 1)
  {
    if t.Ext? {
      assert Kids(t, p, 1) == [];
    }
  }

  lemma {:induction false} KidsSkip(t: Tree, p: seq<byte>, i: nat)
    requires t.Branch? && i < |t.children| && i < 17 && t.children[i].Empty?
    ensures Kids(t, p, i) == Kids(t, p, i + 1)
  {
  }

  lemma {:induction false} KidsNone(t: Tree, p: seq<byte>, i: nat)
    requires t.Val? || t.Empty? || (t.Ext? && i > 0) || (t.Branch? && i >= 17)
    ensures Kids(t, p, i) == []
  {
  }

  /** The child-finding loop of nextChild; -1 if there is none. */
  method NextChild(env: Env, n: Node, index: int, ghost t: Tree, ghost root: bool, ghost p: seq<byte>) returns (i: int)
    requires index >= -1 && !n.HashNode? && Rep(env, n, t, root) && Standing(t, root)
    ensures i == -1 ==> Kids(t, p, index + 1) == []
    ensures i != -1 ==> index < i && NextFound(t, i) && Kids(t, p, index + 1) == Kids(t, p, i)
    ensures i != -1 ==> n.Short? || (n.Full? && |n.children| == 17)
  {
    hide Bounded, Kids, Stored, FlagsOk;
    if n.Full? {
      i := index + 1;
      while i < |n.children|
        invariant index < i
        invariant Kids(t, p, index + 1) == Kids(t, p, i)
      {
        if !n.children[i].Nil? { ChildThere(env, n, t, root, i); return; }
        ChildThere(env, n, t, root, i);
        KidsSkip(t, p, i);
        i := i + 1;
      }
      KidsNone(t, p, i);
      i := -1;
    } else if n.Short? && index < 0 {
      i := 0;
    } else {
      KidsNone(t, p, index + 1);
      i := -1;
    }
  }

  lemma {:induction false} ChildThere(env: Env, n: Node, t: Tree, root: bool, i: nat)
    requires n.Full? && Rep(env, n, t, root) && Standing(t, root) && i < |n.children|
    ensures t.Branch? && |t.children| == 17 && (n.children[i].Nil? <==> t.children[i].Empty?)
  {
    assert Rep(env, n.children[i], t.children[i], false);
  }

  // ----- the iterator -----

  /** The path sought is the hex key without terminator. */
  function SeekKey(start: seq<byte>): seq<byte> { Nibbles(start) }

  /** The stack is in order. */
  ghost predicate Walking(env: Env, fs: seq<Frame>, ts: seq<Tree>, path: seq<byte>)
  {
    Placed(fs, path) && FramesOk(env, fs, ts) && Sorted(Rest(fs, ts, path))
  }

  /** What is ahead, before the first node and after it. */
  ghost function Left(tree: Tree, fs: seq<Frame>, ts: seq<Tree>, path: seq<byte>): seq<Visit>
    requires |fs| == |ts| && Placed(fs, path)
  {
    if fs == [] then All(tree) else Rest(fs, ts, path)
  }

  /** What is ahead if the current node's children are skipped. */
  ghost function Skipped(tree: Tree, fs: seq<Frame>, ts: seq<Tree>, path: seq<byte>): seq<Visit>
    requires |fs| == |ts| && Placed(fs, path)
  {
    if fs == [] then All(tree)
    else
      var n := |fs| - 1;
      Rest(fs[..n], ts[..n], path[..fs[n].pathlen])
  }

  class NodeIterator {
    const env: Env
    const gen: nat
    const root: Node
    const rootHash: Hash
    ghost const tree: Tree
    var stack: seq<Frame>
    var path: seq<byte>
    var err: IterError
    ghost var trees: seq<Tree>

    ghost predicate Valid()
      reads this
    {
      && Rep(env, root, tree, true) && Sound(tree, false)
      && HashFits(env.h, rootHash, tree)
      && Walking(env, stack, trees, path)
      && (err.End? ==> stack == [])
      && (err.SeekFailed? ==> stack == [] || Less(path, SeekKey(err.start)))
    }

    /** What Next(descend) has before it, in order. */
    ghost function Ahead(descend: bool): seq<Visit>
      requires Valid()
      reads this
    {
      if err.End? then [] else if descend then Left(tree, stack, trees, path) else Skipped(tree, stack, trees, path)
    }

    constructor Start(env: Env, gen: nat, root: Node, rootHash: Hash, ghost tree: Tree)
      requires Rep(env, root, tree, true) && Sound(tree, false)
      requires HashFits(env.h, rootHash, tree)
      ensures Valid() && this.env == env && this.tree == tree && stack == [] && err.NoError? && Ahead(true) == All(tree)
    {
      this.env, this.gen, this.root, this.rootHash, this.tree := env, gen, root, rootHash, tree;
      stack, path, err, trees := [], [], NoError, [];
    }

    /** peek: moves up as far as needed and prepares the next node. */
    method Peek(descend: bool) returns (r: Result<Frame, IterError>, next: seq<byte>, ghost t: Tree)
      requires Valid() && !err.End?
      modifies this`stack, this`path, this`trees
      ensures PeekOk(env, tree, r, next, t, stack, trees, path, old(Ahead(descend)))
      ensures path <= old(path) && (old(stack) == [] ==> stack == [])
    {
      hide Rep, Sound, FrameOk, HashFits, HashOf, PeekOk, Walking, Left, Skipped, Less;
      WalkingParts(env, stack, trees, path);
      stack, path, trees, r, next, t := PeekAt(env, gen, root, rootHash, tree, stack, path, trees, descend);
      PeekWalking(env, tree, r, next, t, stack, trees, path, old(Ahead(descend)));
    }

    /** push */
    method Push(f: Frame, next: seq<byte>, ghost t: Tree, ghost ahead: seq<Visit>)
      requires Valid() && !err.End? && Steps(env, stack, trees, path, f, next, t, ahead) && Sorted(ahead)
      requires err.SeekFailed? ==> Less(next, SeekKey(err.start))
      modifies this`stack, this`path, this`trees
      ensures Valid() && stack != [] && ahead == [Visit(next, t)] + Ahead(true)
      ensures path == next && trees == old(trees) + [t] && stack[|stack| - 1].index == -1
    {
      hide Rep, Sound, FrameOk, HashFits, HashOf, Rest, Placed, FramesOk, All, Norm, Sorted, Pushed, Steps, Walking;
      PushOk(env, stack, trees, path, f, next, t, ahead);
      stack, path, trees := Pushed(stack, f), next, trees + [t];
    }

    /** seek: moves to just before the first node whose path is not below the key. */
    method Seek(start: seq<byte>) returns (e: IterError)
      requires Valid() && !err.End? && (stack == [] || Less(path, SeekKey(start)))
      requires err.SeekFailed? ==> err.start == start
      modifies this`stack, this`path, this`trees
      ensures e.NoError? || e.End? || (e.SeekFailed? && e.start == start && Ops.OnlyMissing(env, e.cause))
      ensures Valid() && (e.SeekFailed? ==> stack == [] || Less(path, SeekKey(start))) && (e.End? ==> stack == [])
      ensures e.NoError? ==> Ahead(true) == Above(old(Ahead(true)), SeekKey(start))
      ensures e.End? ==> Above(old(Ahead(true)), SeekKey(start)) == []
      ensures e.SeekFailed? ==> Above(Ahead(true), SeekKey(start)) == Above(old(Ahead(true)), SeekKey(start))
    {
      hide Rep, Sound, FrameOk, HashFits, HashOf, Rest, Placed, FramesOk, All, Norm, Sorted, Pushed, Steps, Walking,
           Above, PeekOk, SeekKey, Left, Skipped;
      var key := SeekKey(start);
      ghost var ahead0 := Ahead(true);
      while true
        invariant Valid() && !err.End? && (stack == [] || Less(path, key))
        invariant Above(Ahead(true), key) == Above(ahead0, key)
        decreases |Ahead(true)|
      {
        var path0 := path;
        ghost var ahead := Ahead(path <= key);
        SeekSkip(env, tree, stack, trees, path, key);
        var r, next, t := Peek(path <= key);
        SeekPath(path, path0, key);
        PeekFacts(env, tree, r, next, t, stack, trees, path, ahead, key);
        if r.Err? {
          return if r.error.End? then End else SeekFailed(start, r.error.error);
        } else if Compare(next, key) >= 0 {
          return NoError;
        }
        Push(r.value, next, t, ahead);
        AboveNext(next, t, Ahead(true), key);
      }
    }

    /** Next: moves to the next node, or to the next one that is not below the current one. */
    method Next(descend: bool) returns (ok: bool)
      requires Valid()
      modifies this`stack, this`path, this`trees, this`err
      ensures Valid()
      ensures !old(err).SeekFailed? ==> NextOk(this, ok, old(Ahead(descend)))
      ensures old(err).SeekFailed? && descend && !err.SeekFailed? ==>
                NextOk(this, ok, Above(old(Ahead(true)), SeekKey(old(err).start)))
      ensures err.SeekFailed? ==> !ok && old(err).SeekFailed?
    {
      hide Rep, Sound, FrameOk, HashFits, HashOf, Rest, Placed, FramesOk, All, Norm, Sorted, Pushed, Steps, Walking,
           Above, PeekOk, SeekKey, Left, Skipped;
      if err.End? { return false; }
      if err.SeekFailed? {
        err := Seek(err.start);
        if !err.NoError? { return false; }
      }
      ghost var ahead := Ahead(descend);
      SortedAhead(env, tree, stack, trees, path);
      var r, next, t := Peek(descend);
      PeekFacts(env, tree, r, next, t, stack, trees, path, ahead, []);
      if r.Err? {
        err := r.error;
        return false;
      }
      err := NoError;
      Push(r.value, next, t, ahead);
      AtNode(env, tree, stack, trees, path);
      return true;
    }
  }

  /** The iterator stands at the first of the nodes that were ahead, or there were none. */
  ghost predicate NextOk(it: NodeIterator, ok: bool, ahead: seq<Visit>)
    requires it.Valid()
    reads it
  {
    if ok then
      && it.err.NoError? && it.stack != [] && |it.trees| == |it.stack|
      && ahead == [Visit(it.path, it.trees[|it.trees| - 1])] + it.Ahead(true)
      && it.Ahead(true) == Kids(it.trees[|it.trees| - 1], it.path, 0) + it.Ahead(false)
    else if it.err.End? then ahead == []
    else it.err.Failed? && Ops.OnlyMissing(it.env, it.err.error) && it.Ahead(true) == ahead
  }

  lemma {:induction false} EmptyStack(fs: seq<Frame>, ts: seq<Tree>, path: seq<byte>, env: Env)
    requires fs == [] && Walking(env, fs, ts, path)
    ensures ts == [] && path == []
  {
  }

  /** pop keeps the stack in order. */
  lemma {:induction false} PopOk(env: Env, fs: seq<Frame>, ts: seq<Tree>, path: seq<byte>)
    requires Walking(env, fs, ts, path) && fs != []
    ensures var n := |fs| - 1;
            && |fs| == |ts| && fs[n].pathlen <= |path| && Walking(env, fs[..n], ts[..n], path[..fs[n].pathlen])
            && Rest(fs, ts, path) == Kids(ts[n], path, fs[n].index + 1) + Rest(fs[..n], ts[..n], path[..fs[n].pathlen])
            && FrameOk(env, fs[n], ts[n], n == 0)
  {
    hide FrameOk, Kids, Sorted;
    var n := |fs| - 1;
    forall i | 0 <= i < n ensures FrameOk(env, fs[..n][i], ts[..n][i], i == 0) {
      assert FrameOk(env, fs[i], ts[i], i == 0);
    }
    SortedSuffix(Kids(ts[n], path, fs[n].index + 1), Rest(fs[..n], ts[..n], path[..fs[n].pathlen]));
  }

  /** What peek leaves: the next node prepared, or the end, or a node that is missing. */
  ghost predicate PeekOk(env: Env, tree: Tree, r: Result<Frame, IterError>, next: seq<byte>, t: Tree, fs: seq<Frame>,
                         ts: seq<Tree>, path: seq<byte>, ahead: seq<Visit>)
  {
    && Walking(env, fs, ts, path)
    && (r.Ok? ==> Steps(env, fs, ts, path, r.value, next, t, ahead))
    && (r.Err? ==> r.error.End? || (r.error.Failed? && Ops.OnlyMissing(env, r.error.error)))
    && (r.Err? && r.error.End? ==> fs == [] && ahead == [])
    && (r.Ok? || r.error.Failed? ==> ahead == Left(tree, fs, ts, path))
  }

  lemma {:induction false} PeekWalking(env: Env, tree: Tree, r: Result<Frame, IterError>, next: seq<byte>, t: Tree,
                                       fs: seq<Frame>, ts: seq<Tree>, path: seq<byte>, ahead: seq<Visit>)
    requires PeekOk(env, tree, r, next, t, fs, ts, path, ahead)
    ensures Walking(env, fs, ts, path)
  {
    hide Walking, Steps;
  }

  /** peek on values: at the start the root, else the next child of a node on the stack. */
  method PeekAt(env: Env, gen: nat, root: Node, rootHash: Hash, ghost tree: Tree, fs0: seq<Frame>, path0: seq<byte>,
                ghost ts0: seq<Tree>, descend: bool)
    returns (fs: seq<Frame>, path: seq<byte>, ghost ts: seq<Tree>, r: Result<Frame, IterError>, next: seq<byte>,
             ghost t: Tree)
    requires Rep(env, root, tree, true) && Sound(tree, false) && HashFits(env.h, rootHash, tree)
    requires |fs0| == |ts0| && Placed(fs0, path0) && Walking(env, fs0, ts0, path0)
    ensures PeekOk(env, tree, r, next, t, fs, ts, path,
                   if descend then Left(tree, fs0, ts0, path0) else Skipped(tree, fs0, ts0, path0))
    ensures path <= path0 && (fs0 == [] ==> fs == [])
  {
    hide Rep, Sound, FrameOk, ResolveFrame, HashFits, PeekOk, Rest, Placed, FramesOk, All, Norm, Sorted, Walking;
    fs, path, ts := fs0, path0, ts0;
    if fs == [] {
      var first := ResolveFrame(env, Frame(rootHash, root, -1, 0), gen);
      StartStep(env, root, rootHash, gen, tree);
      EmptyStack(fs, ts, path, env);
      r := if first.Ok? then Ok(first.value) else Err(Failed(first.error));
      next, t := [], tree;
    } else {
      if !descend {
        PopOk(env, fs, ts, path);
        var n := |fs| - 1;
        path := path[..fs[n].pathlen];
        fs, ts := fs[..n], ts[..n];
      }
      fs, path, ts, r, next, t := MoveUp(env, tree, fs, path, gen, ts);
    }
  }

  /** The loop of peek: up the stack until there is a further child. */
  method MoveUp(env: Env, ghost tree: Tree, fs0: seq<Frame>, path0: seq<byte>, gen: nat, ghost ts0: seq<Tree>)
    returns (fs: seq<Frame>, path: seq<byte>, ghost ts: seq<Tree>, r: Result<Frame, IterError>, next: seq<byte>,
             ghost t: Tree)
    requires Walking(env, fs0, ts0, path0)
    ensures PeekOk(env, tree, r, next, t, fs, ts, path, Rest(fs0, ts0, path0))
    ensures path <= path0
  {
    hide *;
    WalkingParts(env, fs0, ts0, path0);
    fs, path, ts := fs0, path0, ts0;
    while fs != []
      invariant Walking(env, fs, ts, path) && path <= path0
      invariant |fs| == |ts| && Placed(fs, path) && Rest(fs0, ts0, path0) == Rest(fs, ts, path)
      decreases |fs|
    {
      var n := |fs| - 1;
      var parent := fs[n];
      PopOk(env, fs, ts, path);
      FrameParts(env, parent, ts[n], n == 0);
      var i := NextChild(env, parent.node, parent.index, ts[n], n == 0, path);
      if i != -1 {
        SetIndex(env, fs, ts, path, i);
        fs := fs[n := parent.(index := i - 1)];
        NextStep(env, tree, fs, ts, path, i, gen);
        var child := if parent.node.Short? then parent.node.val else parent.node.children[i];
        next, t := path + (if parent.node.Short? then parent.node.key else [i]), Child(ts[n], i);
        var f := ResolveFrame(env, Frame(NodeHash(child), child, -1, |path|), gen);
        r := if f.Ok? then Ok(f.value) else Err(Failed(f.error));
        return;
      }
      path := path[..parent.pathlen];
      fs, ts := fs[..n], ts[..n];
      WalkingParts(env, fs, ts, path);
    }
    r, next, t := Err(End), [], tree;
    PeekEnd(env, tree, fs, ts, path, next, t);
  }

  lemma {:induction false} WalkingParts(env: Env, fs: seq<Frame>, ts: seq<Tree>, path: seq<byte>)
    requires Walking(env, fs, ts, path)
    ensures |fs| == |ts| && Placed(fs, path)
  {
  }

  lemma {:induction false} PeekEnd(env: Env, tree: Tree, fs: seq<Frame>, ts: seq<Tree>, path: seq<byte>,
                                   next: seq<byte>, t: Tree)
    requires Walking(env, fs, ts, path) && fs == []
    ensures |fs| == |ts| && Placed(fs, path) && PeekOk(env, tree, Err(End), next, t, fs, ts, path, Rest(fs, ts, path))
  {
  }

  /** A prepared node is the first of those ahead, and pushing it leaves the others. */
  ghost predicate Steps(env: Env, fs: seq<Frame>, ts: seq<Tree>, path: seq<byte>, f: Frame, next: seq<byte>, t: Tree,
                        ahead: seq<Visit>)
  {
    && |fs| == |ts| && FrameOk(env, f, t, fs == [])
    && Placed(Pushed(fs, f), next)
    && ahead == [Visit(next, t)] + Rest(Pushed(fs, f), ts + [t], next)
    && f.index == -1
  }

  lemma {:induction false} FrameParts(env: Env, f: Frame, t: Tree, root: bool)
    requires FrameOk(env, f, t, root)
    ensures f.index >= -1 && !f.node.HashNode? && Rep(env, f.node, t, root) && Standing(t, root)
  {
  }

  lemma {:induction false} StartStep(env: Env, root: Node, rootHash: Hash, gen: nat, tree: Tree)
    requires Rep(env, root, tree, true) && Sound(tree, false) && HashFits(env.h, rootHash, tree)
    ensures var r := ResolveFrame(env, Frame(rootHash, root, -1, 0), gen);
            PeekOk(env, tree, if r.Ok? then Ok(r.value) else Err(Failed(r.error)), [], tree, [], [], [], All(tree))
  {
    hide Rep, Bounded, Norm, ResolveFrame, HashOf, Kids;
    ResolveOk(env, root, rootHash, 0, gen, tree, true);
    var r := ResolveFrame(env, Frame(rootHash, root, -1, 0), gen);
    if r.Ok? { StartRest(r.value, tree); }
  }

  lemma {:induction false} StartRest(f: Frame, t: Tree)
    requires f.index == -1 && f.pathlen == 0
    ensures Placed(Pushed([], f), []) && Rest(Pushed([], f), [] + [t], []) == Kids(t, [], 0)
  {
    hide Kids;
    var path: seq<byte> := [];
    assert path[..0] == [] && [f][..0] == [];
  }

  /** Skipping nil children leaves what is ahead. */
  lemma {:induction false} SetIndex(env: Env, fs: seq<Frame>, ts: seq<Tree>, path: seq<byte>, i: nat)
    requires Walking(env, fs, ts, path) && fs != []
    requires Kids(ts[|fs| - 1], path, fs[|fs| - 1].index + 1) == Kids(ts[|fs| - 1], path, i)
    ensures var gs := fs[|fs| - 1 := fs[|fs| - 1].(index := i - 1)];
            Walking(env, gs, ts, path) && Placed(gs, path) && Rest(gs, ts, path) == Rest(fs, ts, path)
  {
    hide Kids, Rep, Standing, HashOf, Sorted;
    var n := |fs| - 1;
    var gs := fs[n := fs[n].(index := i - 1)];
    assert gs[..n] == fs[..n];
    assert FrameOk(env, gs[n], ts[n], n == 0);
  }

  /** The next child of the top node, loaded, is the next node. */
  lemma {:induction false} NextStep(env: Env, tree: Tree, fs: seq<Frame>, ts: seq<Tree>, path: seq<byte>, i: nat,
                                    gen: nat)
    requires Walking(env, fs, ts, path) && fs != [] && fs[|fs| - 1].index == i - 1 && NextFound(ts[|fs| - 1], i)
    ensures var n, t := fs[|fs| - 1].node, ts[|fs| - 1];
            && (n.Short? || (n.Full? && |n.children| == 17 && i < 17))
            && var child := if n.Short? then n.val else n.children[i];
               var next := path + if n.Short? then n.key else [i];
               var r := ResolveFrame(env, Frame(NodeHash(child), child, -1, |path|), gen);
               PeekOk(env, tree, if r.Ok? then Ok(r.value) else Err(Failed(r.error)), next, Child(t, i), fs, ts, path,
                      Rest(fs, ts, path))
  {
    hide Rep, Bounded, Norm, ResolveFrame, HashOf, Kids, Rest, Placed, FrameOk, NodeHash, Steps;
    var n, t := fs[|fs| - 1].node, ts[|fs| - 1];
    assert FrameOk(env, fs[|fs| - 1], t, |fs| == 1);
    ChildRep(env, fs[|fs| - 1], t, |fs| == 1, i);
    var child := if n.Short? then n.val else n.children[i];
    ResolveOk(env, child, NodeHash(child), |path|, gen, Child(t, i), false);
    var r := ResolveFrame(env, Frame(NodeHash(child), child, -1, |path|), gen);
    if r.Ok? {
      StepRest(env, fs, ts, path, r.value, i);
      FinishStep(env, fs, ts, path, r.value, ChildPath(t, path, i), Child(t, i));
    }
  }

  lemma {:induction false} FinishStep(env: Env, fs: seq<Frame>, ts: seq<Tree>, path: seq<byte>, f: Frame,
                                      next: seq<byte>, t: Tree)
    requires |fs| == |ts| && fs != [] && FrameOk(env, f, t, false) && f.index == -1
    requires Placed(fs, path) && Placed(Pushed(fs, f), next)
    requires Rest(fs, ts, path) == [Visit(next, t)] + Rest(Pushed(fs, f), ts + [t], next)
    ensures Steps(env, fs, ts, path, f, next, t, Rest(fs, ts, path))
  {
    hide FrameOk, Placed, Rest, Pushed;
  }

  lemma {:induction false} ChildRep(env: Env, f: Frame, t: Tree, root: bool, i: nat)
    requires FrameOk(env, f, t, root) && NextFound(t, i)
    ensures var n := f.node;
            && (n.Short? <==> t.Ext?) && (n.Short? ==> n.key == t.key)
            && (n.Short? || (n.Full? && |n.children| == 17 && i < 17))
            && var child := if n.Short? then n.val else n.children[i];
               && Rep(env, child, Child(t, i), false) && Standing(Child(t, i), false) && !Child(t, i).Empty?
               && (!child.HashNode? ==> HashFits(env.h, NodeHash(child), Child(t, i)))
  {
    hide Rep, Bounded, HashFits, NodeHash, Norm;
    if t.Ext? {
      ShortChild(env, f.node, t, root);
      CarriedHash(env, f.node.val, t.child);
    } else {
      FullChild(env, f.node, t, root, i);
      CarriedHash(env, f.node.children[i], t.children[i]);
    }
  }

  lemma {:induction false} ShortChild(env: Env, n: Node, t: Tree, root: bool)
    requires t.Ext? && !n.HashNode? && Rep(env, n, t, root) && Standing(t, root)
    ensures n.Short? && n.key == t.key && Rep(env, n.val, t.child, false) && Standing(t.child, false) && !t.child.Empty?
  {
    hide Bounded, FlagsOk;
    BoundedExt(t.key, t.child);
  }

  lemma {:induction false} FullChild(env: Env, n: Node, t: Tree, root: bool, i: nat)
    requires t.Branch? && NextFound(t, i) && !n.HashNode? && Rep(env, n, t, root) && Standing(t, root)
    ensures n.Full? && |n.children| == 17 && i < 17 && Rep(env, n.children[i], t.children[i], false) &&
            Standing(t.children[i], false)
  {
    hide Bounded, FlagsOk;
    BoundedBranch(t.children, i);
  }

  lemma {:induction false} CarriedHash(env: Env, n: Node, t: Tree)
    requires Rep(env, n, t, false)
    ensures HashFits(env.h, NodeHash(n), t)
  {
    hide Stored, HashOf, ZeroHash;
  }

  lemma {:induction false} StepRest(env: Env, fs: seq<Frame>, ts: seq<Tree>, path: seq<byte>, f: Frame, i: nat)
    requires Placed(fs, path) && |fs| == |ts| && fs != [] && fs[|fs| - 1].index == i - 1 && NextFound(ts[|fs| - 1], i)
    requires f.index == -1 && f.pathlen == |path| && !Child(ts[|fs| - 1], i).Empty?
    ensures var t := ts[|fs| - 1];
            var next, c := ChildPath(t, path, i), Child(t, i);
            Placed(Pushed(fs, f), next) && Rest(fs, ts, path) == [Visit(next, c)] + Rest(Pushed(fs, f), ts + [c], next)
  {
    hide *;
    var n := |fs| - 1;
    var t := ts[n];
    var next, c := ChildPath(t, path, i), Child(t, i);
    KidsNext(t, path, i);
    var gs := fs[n := fs[n].(index := i)];
    RestTop(fs, ts, path);
    BumpRest(fs, ts, path, gs, i);
    PathGrows(t, path, i);
    PushRest(gs, ts, path, f, c, next);
    PushedBump(fs, f, gs);
  }

  lemma {:induction false} RestTop(fs: seq<Frame>, ts: seq<Tree>, path: seq<byte>)
    requires Placed(fs, path) && |fs| == |ts| && fs != []
    ensures var n := |fs| - 1;
            && fs[n].index >= -1 && fs[n].pathlen <= |path| && Placed(fs[..n], path[..fs[n].pathlen])
            && Rest(fs, ts, path) == Kids(ts[n], path, fs[n].index + 1) + Rest(fs[..n], ts[..n], path[..fs[n].pathlen])
  {
    hide Kids;
  }

  lemma {:induction false} BumpRest(fs: seq<Frame>, ts: seq<Tree>, path: seq<byte>, gs: seq<Frame>, i: nat)
    requires Placed(fs, path) && |fs| == |ts| && fs != [] && gs == fs[|fs| - 1 := fs[|fs| - 1].(index := i)]
    ensures var n := |fs| - 1;
            && fs[n].pathlen <= |path| && Placed(fs[..n], path[..fs[n].pathlen])
            && Placed(gs, path)
            && Rest(gs, ts, path) == Kids(ts[n], path, i + 1) + Rest(fs[..n], ts[..n], path[..fs[n].pathlen])
  {
    hide Kids;
    assert gs[..|fs| - 1] == fs[..|fs| - 1];
  }

  lemma PathGrows(t: Tree, path: seq<byte>, i: nat)
    requires NextFound(t, i)
    ensures path <= ChildPath(t, path, i)
  {
  }

  lemma {:induction false} PushedBump(fs: seq<Frame>, f: Frame, gs: seq<Frame>)
    requires fs != [] && gs == fs[|fs| - 1 := fs[|fs| - 1].(index := fs[|fs| - 1].index + 1)]
    ensures Pushed(fs, f) == gs + [f]
  {
  }

  lemma {:induction false} PushRest(gs: seq<Frame>, ts: seq<Tree>, path: seq<byte>, f: Frame, c: Tree, next: seq<byte>)
    requires |gs| == |ts| && Placed(gs, path) && f.index == -1 && f.pathlen == |path| && path <= next
    ensures Placed(gs + [f], next) && Rest(gs + [f], ts + [c], next) == Kids(c, next, 0) + Rest(gs, ts, path)
  {
    hide Kids;
    var n := |gs|;
    assert (gs + [f])[..n] == gs && (ts + [c])[..n] == ts && next[..|path|] == path;
  }

  lemma SortedSuffix(vs: seq<Visit>, ws: seq<Visit>)
    requires Sorted(vs + ws)
    ensures Sorted(ws)
  {
    var all := vs + ws;
    forall i, j | 0 <= i < j < |ws| ensures Less(ws[i].path, ws[j].path) {
      assert ws[i] == all[|vs| + i] && ws[j] == all[|vs| + j];
    }
  }

  /** What is not below a key. */
  function Above(vs: seq<Visit>, key: seq<byte>): seq<Visit>
  {
    if vs == [] then [] else (if Less(vs[0].path, key) then [] else [vs[0]]) + Above(vs[1..], key)
  }

  lemma {:induction false} PushOk(env: Env, fs: seq<Frame>, ts: seq<Tree>, path: seq<byte>, f: Frame, next: seq<byte>,
                                  t: Tree, ahead: seq<Visit>)
    requires Walking(env, fs, ts, path) && Steps(env, fs, ts, path, f, next, t, ahead) && Sorted(ahead)
    ensures Pushed(fs, f) != [] && Pushed(fs, f)[|Pushed(fs, f)| - 1].index == -1 &&
            Walking(env, Pushed(fs, f), ts + [t], next)
    ensures ahead == [Visit(next, t)] + Rest(Pushed(fs, f), ts + [t], next)
  {
    hide FrameOk, Rest, Placed, Sorted;
    SortedSuffix([Visit(next, t)], Rest(Pushed(fs, f), ts + [t], next));
    PushedFrames(env, fs, ts, f, t);
  }

  lemma {:induction false} PushedFrames(env: Env, fs: seq<Frame>, ts: seq<Tree>, f: Frame, t: Tree)
    requires FramesOk(env, fs, ts) && FrameOk(env, f, t, fs == [])
    ensures FramesOk(env, Pushed(fs, f), ts + [t])
  {
    hide Rep, Standing, HashOf;
    forall i | 0 <= i < |fs| ensures FrameOk(env, Pushed(fs, f)[i], (ts + [t])[i], i == 0) {
      assert FrameOk(env, fs[i], ts[i], i == 0);
    }
  }

  /** Below a path that is less than the key and does not lead to it there is nothing to find. */
  lemma {:induction false} SeekSkip(env: Env, tree: Tree, fs: seq<Frame>, ts: seq<Tree>, path: seq<byte>,
                                    key: seq<byte>)
    requires Walking(env, fs, ts, path) && Sound(tree, false) && (fs == [] || Less(path, key))
    ensures |fs| == |ts| && Placed(fs, path)
    ensures var ahead := if path <= key then Left(tree, fs, ts, path) else Skipped(tree, fs, ts, path);
            Sorted(ahead) && |ahead| <= |Left(tree, fs, ts, path)| &&
            Above(ahead, key) == Above(Left(tree, fs, ts, path), key)
  {
    hide FrameOk, Above, Sorted, Kids, All, Slot, Bounded, Rest, Placed, FramesOk;
    WalkingParts(env, fs, ts, path);
    if fs == [] {
      AllSorted(tree);
    } else if !(path <= key) {
      PopOk(env, fs, ts, path);
      var n := |fs| - 1;
      FrameParts(env, fs[n], ts[n], n == 0);
      var kids := Kids(ts[n], path, fs[n].index + 1);
      KidsUnder(ts[n], path, fs[n].index + 1);
      AllBelow(kids, path, key);
      AboveDrop(kids, Rest(fs[..n], ts[..n], path[..fs[n].pathlen]), key);
    }
  }

  lemma {:induction false} SortedAhead(env: Env, tree: Tree, fs: seq<Frame>, ts: seq<Tree>, path: seq<byte>)
    requires Walking(env, fs, ts, path) && Sound(tree, false)
    ensures |fs| == |ts| && Placed(fs, path)
    ensures Sorted(Left(tree, fs, ts, path)) && Sorted(Skipped(tree, fs, ts, path))
  {
    hide FrameOk, Sorted, Kids, All, Slot, Bounded, Rest, Placed, FramesOk;
    WalkingParts(env, fs, ts, path);
    if fs == [] { AllSorted(tree); } else { PopOk(env, fs, ts, path); }
  }

  /** At a node just reached, what is ahead begins with the nodes below it. */
  lemma {:induction false} AtNode(env: Env, tree: Tree, fs: seq<Frame>, ts: seq<Tree>, path: seq<byte>)
    requires Walking(env, fs, ts, path) && fs != [] && fs[|fs| - 1].index == -1
    ensures |fs| == |ts| && Placed(fs, path)
    ensures Left(tree, fs, ts, path) == Kids(ts[|ts| - 1], path, 0) + Skipped(tree, fs, ts, path)
  {
    hide FrameOk, Sorted, Kids, Rest, Placed, FramesOk;
    WalkingParts(env, fs, ts, path);
    PopOk(env, fs, ts, path);
  }

  lemma AllBelow(vs: seq<Visit>, path: seq<byte>, key: seq<byte>)
    requires Under(vs, path) && Less(path, key) && !(path <= key)
    ensures forall v :: v in vs ==> Less(v.path, key)
  {
    forall v | v in vs ensures Less(v.path, key) { LessBelow(path, v.path, key); }
  }

  lemma {:induction false} AboveDrop(vs: seq<Visit>, ws: seq<Visit>, key: seq<byte>)
    requires forall v :: v in vs ==> Less(v.path, key)
    ensures Above(vs + ws, key) == Above(ws, key)
  {
    if vs == [] {
      assert vs + ws == ws;
    } else {
      assert (vs + ws)[1..] == vs[1..] + ws;
      AboveDrop(vs[1..], ws, key);
    }
  }

  /** From the first node that is not below the key on, none is. */
  lemma {:induction false} AboveAll(vs: seq<Visit>, key: seq<byte>)
    requires Sorted(vs) && (vs == [] || !Less(vs[0].path, key))
    ensures Above(vs, key) == vs
  {
    if |vs| > 1 {
      if Less(vs[1].path, key) { LessTransitive(vs[0].path, vs[1].path, key); }
      SortedSuffix(vs[..1], vs[1..]);
      assert vs == vs[..1] + vs[1..];
      AboveAll(vs[1..], key);
    }
  }

  lemma AboveNone(key: seq<byte>)
    ensures Above([], key) == []
  {
  }

  lemma AboveNext(next: seq<byte>, t: Tree, rest: seq<Visit>, key: seq<byte>)
    requires Less(next, key)
    ensures Above([Visit(next, t)] + rest, key) == Above(rest, key)
  {
    AboveDrop([Visit(next, t)], rest, key);
  }

  lemma SeekPath(path: seq<byte>, was: seq<byte>, key: seq<byte>)
    requires path <= was
    ensures Less(was, key) ==> Less(path, key)
  {
    if Less(was, key) { LessShorter(path, was, key); }
  }

  lemma {:induction false} PeekFacts(env: Env, tree: Tree, r: Result<Frame, IterError>, next: seq<byte>, t: Tree,
                                     fs: seq<Frame>, ts: seq<Tree>, path: seq<byte>, ahead: seq<Visit>, key: seq<byte>)
    requires PeekOk(env, tree, r, next, t, fs, ts, path, ahead) && Sorted(ahead)
    ensures Walking(env, fs, ts, path) && |fs| == |ts| && Placed(fs, path)
    ensures r.Err? ==> r.error.End? || (r.error.Failed? && Ops.OnlyMissing(env, r.error.error))
    ensures r.Err? && r.error.End? ==> fs == [] && ahead == [] && Above(ahead, key) == []
    ensures r.Ok? || r.error.Failed? ==> ahead == Left(tree, fs, ts, path)
    ensures r.Ok? ==> Steps(env, fs, ts, path, r.value, next, t, ahead)
    ensures r.Ok? && !Less(next, key) ==> Above(ahead, key) == ahead
  {
    hide FrameOk, Kids, All, Rest, Placed, FramesOk, Sorted, Pushed, Above;
    WalkingParts(env, fs, ts, path);
    AboveNone(key);
    if r.Ok? && !Less(next, key) { AboveAll(ahead, key); }
  }
}
