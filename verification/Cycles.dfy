/** Cycles in a finite graph, given by the set of nodes each node leads to. */
module Cycles {
  type Graph<T> = map<T, set<T>>

  ghost predicate Step<T>(g: Graph<T>, path: seq<T>, i: nat)
    requires i + 1 < |path|
  {
    path[i] in g && path[i + 1] in g[path[i]]
  }

  /** Each node of the path leads to the next. */
  ghost predicate Walk<T>(g: Graph<T>, path: seq<T>)
  {
    forall i :: 0 <= i < |path| - 1 ==> Step(g, path, i)
  }

  ghost predicate IsCycle<T(!new)>(g: Graph<T>, path: seq<T>)
  {
    |path| >= 2 && path[0] == path[|path| - 1] && Walk(g, path)
  }

  ghost predicate HasCycle<T(!new)>(g: Graph<T>) { exists path :: IsCycle(g, path) }

  /** The node leads to another node of the graph, or to itself. */
  ghost predicate Leads<T(!new)>(g: Graph<T>, p: T)
    requires p in g
  {
    exists c :: c in g[p] && c in g
  }

  ghost predicate Endless<T(!new)>(g: Graph<T>) { forall p :: p in g ==> Leads(g, p) }

  /** A graph without an end has a cycle. */
  lemma EndlessCycle<T(!new)>(g: Graph<T>, p: T)
    requires Endless(g) && p in g
    ensures HasCycle(g)
  {
    hide Endless, HasCycle;
    Follow(g, [p]);
  }

  ghost predicate Different<T>(path: seq<T>) { forall i, j :: 0 <= i < j < |path| ==> path[i] != path[j] }

  ghost predicate Inside<T>(g: Graph<T>, path: seq<T>) { forall p :: p in path ==> p in g }

  ghost function NodesOf<T>(path: seq<T>): set<T> { set p | p in path }

  /** A path of different nodes goes on to a node that is not on it, or closes a cycle. */
  lemma {:induction false} Follow<T(!new)>(g: Graph<T>, path: seq<T>)
    requires Endless(g) && path != [] && Walk(g, path) && Inside(g, path) && Different(path)
    ensures HasCycle(g)
    decreases |g.Keys - NodesOf(path)|
  {
    hide Endless, HasCycle, NodesOf, Walk, Inside, Different;
    var c := Onward(g, path);
    WalkOn(g, path, c);
    if c in path {
      Close(g, path, c);
    } else {
      Shrinks(g.Keys, path, c);
      Follow(g, path + [c]);
    }
  }

  lemma Onward<T(!new)>(g: Graph<T>, path: seq<T>) returns (c: T)
    requires Endless(g) && path != [] && Inside(g, path)
    ensures path[|path| - 1] in g && c in g[path[|path| - 1]] && c in g
  {
    var last := path[|path| - 1];
    assert last in path;
    assert Leads(g, last);
    c :| c in g[last] && c in g;
  }

  lemma WalkOn<T(!new)>(g: Graph<T>, path: seq<T>, c: T)
    requires path != [] && Walk(g, path) && Inside(g, path)
    requires path[|path| - 1] in g && c in g[path[|path| - 1]] && c in g
    ensures Walk(g, path + [c]) && Inside(g, path + [c]) && (Different(path) && c !in path ==> Different(path + [c]))
  {
    var more := path + [c];
    forall i | 0 <= i < |more| - 1 ensures Step(g, more, i) {
      if i < |path| - 1 { assert Step(g, path, i); }
    }
  }

  lemma Close<T(!new)>(g: Graph<T>, path: seq<T>, c: T)
    requires Walk(g, path + [c]) && c in path
    ensures HasCycle(g)
  {
    var k :| 0 <= k < |path| && path[k] == c;
    var more := path + [c];
    var cycle := more[k..];
    forall i | 0 <= i < |cycle| - 1 ensures Step(g, cycle, i) {
      assert Step(g, more, k + i);
    }
    assert IsCycle(g, cycle);
  }

  lemma Shrinks<T>(keys: set<T>, path: seq<T>, c: T)
    requires c in keys && c !in path
    ensures |keys - NodesOf(path + [c])| < |keys - NodesOf(path)|
  {
    assert NodesOf(path + [c]) == NodesOf(path) + {c};
    assert keys - NodesOf(path + [c]) == keys - NodesOf(path) - {c};
  }

  /** A cycle of a part is a cycle of the whole. */
  lemma PartCycle<T(!new)>(g: Graph<T>, w: Graph<T>)
    requires HasCycle(g) && forall p :: p in g && g[p] != {} ==> p in w && g[p] <= w[p]
    ensures HasCycle(w)
  {
    var path :| IsCycle(g, path);
    forall i | 0 <= i < |path| - 1 ensures Step(w, path, i) {
      assert Step(g, path, i);
    }
    assert IsCycle(w, path);
  }

  /** Where every step goes down there is no cycle. */
  lemma Downhill<T(!new)>(g: Graph<T>, m: T -> nat)
    requires forall p, c :: p in g && c in g[p] ==> m(c) < m(p)
    ensures !HasCycle(g)
  {
    forall path ensures !IsCycle(g, path) {
      if Walk(g, path) && |path| >= 2 { Descends(g, m, path, |path| - 1); }
    }
  }

  lemma {:induction false} Descends<T(!new)>(g: Graph<T>, m: T -> nat, path: seq<T>, k: nat)
    requires (forall p, c :: p in g && c in g[p] ==> m(c) < m(p)) && Walk(g, path) && 0 < k < |path|
    ensures m(path[k]) < m(path[0])
  {
    if k > 1 { Descends(g, m, path, k - 1); }
    assert Step(g, path, k - 1);
  }
}
