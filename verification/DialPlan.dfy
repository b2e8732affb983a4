/**
 Dialing other nodes: tasks, the history of past dials, who is picked to be dialed
 next, and what holds of the tasks that are outstanding.
 */
module DialPlan {

  type NodeId = nat

  /** Nanoseconds. */
  type Time = int

  const SECOND: int := 1_000_000_000
  const HISTORY_EXPIRATION: int := 30 * SECOND
  const FALLBACK_INTERVAL: int := 20 * SECOND

  /** Connection flags are bits; the lowest marks dynamic dials. */
  const DYN_DIALED: nat := 1
  const STATIC_DIALED: nat := 2

  predicate Dynamic(flags: nat) { flags % 2 == 1 }

  datatype Task = Dial(flags: nat, dest: NodeId) | Discover | WaitExpire(duration: int)

  datatype PastDial = PastDial(id: NodeId, exp: Time)

  datatype DialError = AlreadyDialing | AlreadyConnected | RecentlyDialed

  function Ids(h: seq<PastDial>): set<NodeId> { set p | p in h :: p.id }

  // ----- history -----

  /** One entry per node. */
  ghost predicate Unique(h: seq<PastDial>)
  {
    && (forall p :: multiset(h)[p] <= 1)
    && (forall p, q :: p in h && q in h && p.id == q.id ==> p == q)
  }

  /** k holds what is left of h at time now. */
  ghost predicate Expired(h: seq<PastDial>, k: seq<PastDial>, now: Time)
  {
    forall p :: multiset(k)[p] == if p.exp >= now then multiset(h)[p] else 0
  }

  /** The entry a heap has in front: none expires earlier. */
  method MinIndex(h: seq<PastDial>) returns (i: nat)
    requires h != []
    ensures i < |h| && forall p :: p in h ==> h[i].exp <= p.exp
  {
    i := 0;
    for k := 1 to |h|
      invariant i < k && forall j :: 0 <= j < k ==> h[i].exp <= h[j].exp
    {
      if h[k].exp < h[i].exp { i := k; }
    }
  }

  ghost function Without<T>(s: seq<T>, i: nat): seq<T>
    requires i < |s|
  {
    s[..i] + s[i + 1..]
  }

  lemma WithoutCount<T>(s: seq<T>, i: nat)
    requires i < |s|
    ensures multiset(s) == multiset(Without(s, i)) + multiset{s[i]}
  {
    assert s == s[..i] + [s[i]] + s[i + 1..];
  }

  /** Pops the minimum as long as it has expired. */
  method Expire(h: seq<PastDial>, now: Time) returns (k: seq<PastDial>)
    ensures Expired(h, k, now)
  {
    k := h;
    while k != []
      invariant forall p :: multiset(k)[p] <= multiset(h)[p]
      invariant forall p: PastDial :: p.exp >= now ==> multiset(k)[p] == multiset(h)[p]
      decreases |k|
    {
      var i := MinIndex(k);
      if k[i].exp >= now {
        assert forall p :: p in multiset(k) ==> p in k;
        return;
      }
      WithoutCount(k, i);
      k := k[..i] + k[i + 1..];
    }
  }

  lemma ExpiredMembers(h: seq<PastDial>, k: seq<PastDial>, now: Time)
    requires Expired(h, k, now)
    ensures forall p :: p in k <==> p in h && p.exp >= now
    ensures Unique(h) ==> Unique(k)
  {
    forall p ensures p in k <==> p in h && p.exp >= now {
      assert p in k <==> p in multiset(k);
      assert p in h <==> p in multiset(h);
    }
  }

  /** Removes the first entry of a node. */
  method Remove(h: seq<PastDial>, n: NodeId) returns (k: seq<PastDial>, found: bool)
    ensures found <==> n in Ids(h)
    ensures !found ==> k == h
    ensures found ==> exists i :: 0 <= i < |h| && h[i].id == n && k == Without(h, i)
  {
    for i := 0 to |h|
      invariant forall j :: 0 <= j < i ==> h[j].id != n
    {
      if h[i].id == n {
        assert h[i] in h;
        return h[..i] + h[i + 1..], true;
      }
    }
    return h, false;
  }

  method Contains(h: seq<PastDial>, n: NodeId) returns (found: bool)
    ensures found <==> n in Ids(h)
  {
    for i := 0 to |h|
      invariant forall j :: 0 <= j < i ==> h[j].id != n
    {
      if h[i].id == n {
        assert h[i] in h;
        return true;
      }
    }
    return false;
  }

  lemma RemovedMembers(h: seq<PastDial>, i: nat)
    requires i < |h|
    ensures forall p :: p in h && p.id != h[i].id ==> p in Without(h, i)
    ensures forall p :: p in Without(h, i) ==> p in h
    ensures Unique(h) ==> Unique(Without(h, i)) && h[i].id !in Ids(Without(h, i))
  {
    var k := Without(h, i);
    WithoutCount(h, i);
    forall p ensures p in h <==> p in k || p == h[i] {
      assert p in h <==> p in multiset(h);
      assert p in k <==> p in multiset(k);
    }
    assert forall p :: multiset(k)[p] <= multiset(h)[p];
    if Unique(h) {
      assert multiset(k)[h[i]] == multiset(h)[h[i]] - 1 == 0;
      assert forall p :: p in k ==> p in multiset(k);
    }
  }

  // ----- who is dialed next -----

  /** Goes through candidates in order and takes each that is not busy, up to the quota. */
  function Greedy(busy: set<NodeId>, cands: seq<NodeId>, quota: nat): seq<NodeId>
    decreases cands
  {
    if cands == [] || quota == 0 then []
    else if cands[0] in busy then Greedy(busy, cands[1..], quota)
    else [cands[0]] + Greedy(busy + {cands[0]}, cands[1..], quota - 1)
  }

  /** How many candidates that looks at. */
  function Looked(busy: set<NodeId>, cands: seq<NodeId>, quota: nat): (k: nat)
    ensures k <= |cands|
    decreases cands
  {
    if cands == [] || quota == 0 then 0
    else if cands[0] in busy then 1 + Looked(busy, cands[1..], quota)
    else 1 + Looked(busy + {cands[0]}, cands[1..], quota - 1)
  }

  ghost predicate NoDup<T>(s: seq<T>)
  {
    forall i, j :: 0 <= i < j < |s| ==> s[i] != s[j]
  }

  /** Picks are new, distinct and within the quota; candidates are left only if the quota is used up. */
  lemma {:induction false} GreedyOk(busy: set<NodeId>, cands: seq<NodeId>, quota: nat)
    ensures var g := Greedy(busy, cands, quota);
            && |g| <= quota && |g| <= |cands|
            && NoDup(g) && (forall n :: n in g ==> n !in busy && n in cands)
            && (Looked(busy, cands, quota) < |cands| ==> |g| == quota)
    decreases cands
  {
    if cands == [] || quota == 0 {
    } else if cands[0] in busy {
      GreedyOk(busy, cands[1..], quota);
    } else {
      GreedyOk(busy + {cands[0]}, cands[1..], quota - 1);
    }
  }

  /** Nobody who could have been dialed among the candidates looked at is passed over. */
  lemma {:induction false} GreedyTakes(busy: set<NodeId>, cands: seq<NodeId>, quota: nat, i: nat)
    requires i < Looked(busy, cands, quota)
    ensures i < |cands| && (cands[i] in busy || cands[i] in Greedy(busy, cands, quota))
    decreases cands
  {
    if cands[0] in busy {
      if i > 0 { GreedyTakes(busy, cands[1..], quota, i - 1); }
    } else {
      if i > 0 { GreedyTakes(busy + {cands[0]}, cands[1..], quota - 1, i - 1); }
    }
  }

  function Dials(flags: nat, ns: seq<NodeId>): seq<Task> { seq(|ns|, i requires 0 <= i < |ns| => Dial(flags, ns[i])) }

  /** The dialing table with ns added under these flags. */
  function Mark(dialing: map<NodeId, nat>, ns: seq<NodeId>, flags: nat): map<NodeId, nat>
  {
    if ns == [] then dialing else Mark(dialing, ns[..|ns| - 1], flags)[ns[|ns| - 1] := flags]
  }

  lemma MarkStep(dialing: map<NodeId, nat>, ns: seq<NodeId>, flags: nat, n: NodeId)
    ensures Mark(dialing, ns + [n], flags) == Mark(dialing, ns, flags)[n := flags]
    ensures Dials(flags, ns + [n]) == Dials(flags, ns) + [Dial(flags, n)]
  {
    assert (ns + [n])[..|ns|] == ns;
  }

  lemma MarkNone(dialing: map<NodeId, nat>, flags: nat)
    ensures Mark(dialing, [], flags) == dialing && Dials(flags, []) == []
  {}

  lemma {:induction false} MarkAppend(dialing: map<NodeId, nat>, a: seq<NodeId>, b: seq<NodeId>, flags: nat)
    ensures Mark(dialing, a + b, flags) == Mark(Mark(dialing, a, flags), b, flags)
    ensures Dials(flags, a + b) == Dials(flags, a) + Dials(flags, b)
    decreases |b|
  {
    if b == [] {
      assert a + b == a;
    } else {
      var b' := b[..|b| - 1];
      assert (a + b)[..|a + b| - 1] == a + b';
      MarkAppend(dialing, a, b', flags);
    }
  }

  lemma {:induction false} MarkKeys(dialing: map<NodeId, nat>, ns: seq<NodeId>, flags: nat)
    ensures forall n :: n in Mark(dialing, ns, flags) <==> n in dialing || n in ns
  {
    if ns != [] {
      MarkKeys(dialing, ns[..|ns| - 1], flags);
      assert ns == ns[..|ns| - 1] + [ns[|ns| - 1]];
    }
  }

  /** The dynamic picks of one round, the lookup results left over, and the slots still open. */
  datatype Picks = Picks(nodes: seq<NodeId>, left: seq<NodeId>, need: int)

  function SetOf(s: seq<NodeId>): set<NodeId> { set n | n in s }

  /** Half the open slots go to random nodes. */
  function RandomQuota(need: int, random: seq<NodeId>): (q: nat)
    ensures q <= |random|
  {
    if need < 2 then 0 else if need / 2 < |random| then need / 2 else |random|
  }

  /** A boot node if it is its turn, then random nodes, then earlier lookup results. */
  function Choose(busy: set<NodeId>, need: int, boot: seq<NodeId>, random: seq<NodeId>, buf: seq<NodeId>): Picks
  {
    var b := Greedy(busy, boot, |boot|);
    var busy1 := busy + SetOf(b);
    var need1 := need - |b|;
    var q := RandomQuota(need1, random);
    var c := Greedy(busy1, random[..q], q);
    var busy2 := busy1 + SetOf(c);
    var need2 := need1 - |c|;
    var quota := if need2 < 0 then 0 else need2;
    var d := Greedy(busy2, buf, quota);
    Picks(b + c + d, buf[Looked(busy2, buf, quota)..], need2 - |d|)
  }

  /** No slot is filled twice, no node is picked twice, and slots stay open only when the lookup results are used up. */
  lemma ChooseOk(busy: set<NodeId>, need: int, boot: seq<NodeId>, random: seq<NodeId>, buf: seq<NodeId>)
    requires boot != [] ==> |boot| == 1 && need > 0
    ensures var p := Choose(busy, need, boot, random, buf);
            && NoDup(p.nodes) && (forall n :: n in p.nodes ==> n !in busy)
            && p.need == need - |p.nodes|
            && (p.nodes != [] ==> p.need >= 0)
            && (p.need > 0 ==> p.left == [])
  {
    hide Greedy, Looked;
    var b := Greedy(busy, boot, |boot|);
    GreedyOk(busy, boot, |boot|);
    var busy1 := busy + SetOf(b);
    var need1 := need - |b|;
    var q := RandomQuota(need1, random);
    var c := Greedy(busy1, random[..q], q);
    GreedyOk(busy1, random[..q], q);
    var busy2 := busy1 + SetOf(c);
    var need2 := need1 - |c|;
    var quota := if need2 < 0 then 0 else need2;
    var d := Greedy(busy2, buf, quota);
    GreedyOk(busy2, buf, quota);
    NoDupJoin(b, c);
    NoDupJoin(b + c, d);
  }

  lemma NoDupJoin<T>(a: seq<T>, b: seq<T>)
    requires NoDup(a) && NoDup(b) && forall x :: x in b ==> x !in a
    ensures NoDup(a + b)
  {
    forall i, j | 0 <= i < j < |a + b| ensures (a + b)[i] != (a + b)[j] {
      if i < |a| <= j { assert b[j - |a|] in b; }
    }
  }

  // ----- outstanding tasks -----

  function DynIn(m: map<NodeId, nat>): set<NodeId> { set n | n in m && Dynamic(m[n]) }

  /** Nodes that are connected by a dynamic dial or being dialed dynamically. */
  function DynNodes(peers: map<NodeId, nat>, dialing: map<NodeId, nat>): set<NodeId>
  {
    DynIn(peers) + DynIn(dialing)
  }

  /**
   What always holds of the outstanding tasks: none twice, one dial for each node in
   the dialing table and none besides, one lookup exactly if one is marked as running,
   at most one wait, no more dynamic nodes than allowed, and no history entry for a
   node that is being dialed.
   */
  ghost predicate Steady(max: nat, dialing: map<NodeId, nat>, looking: bool, hist: seq<PastDial>,
                         peers: map<NodeId, nat>, tasks: seq<Task>)
  {
    && NoDup(tasks)
    && (forall n :: n in dialing ==> Dial(dialing[n], n) in tasks)
    && (forall t :: t in tasks && t.Dial? ==> t.dest in dialing && dialing[t.dest] == t.flags)
    && (looking <==> Discover in tasks)
    && (forall t, u :: t in tasks && u in tasks && t.WaitExpire? && u.WaitExpire? ==> t == u)
    && |DynNodes(peers, dialing)| <= max
    && Unique(hist) && (forall p :: p in hist ==> p.id !in dialing)
  }

  lemma SubsetSize<T>(a: set<T>, b: set<T>)
    requires a <= b
    ensures |a| <= |b|
  {
    if a != {} {
      var x :| x in a;
      SubsetSize(a - {x}, b - {x});
    }
  }

  lemma UnionSize<T>(a: set<T>, b: set<T>)
    ensures |a + b| <= |a| + |b|
  {
    assert a + b == a + (b - a);
    SubsetSize(b - a, b);
  }

  lemma NoDupAdd(tasks: seq<Task>, t: Task)
    requires NoDup(tasks) && t !in tasks
    ensures NoDup(tasks + [t])
    ensures forall u :: u in tasks + [t] <==> u in tasks || u == t
  {}

  lemma DynAdd(peers: map<NodeId, nat>, dialing: map<NodeId, nat>, flags: nat, n: NodeId)
    ensures |DynNodes(peers, dialing[n := flags])| <= |DynNodes(peers, dialing)| + if Dynamic(flags) then 1 else 0
  {
    hide Dynamic;
    var extra := if Dynamic(flags) then {n} else {};
    var all := DynNodes(peers, dialing) + extra;
    assert DynNodes(peers, dialing[n := flags]) <= all;
    SubsetSize(DynNodes(peers, dialing[n := flags]), all);
    UnionSize(DynNodes(peers, dialing), extra);
  }

  lemma DynJoin(peers: map<NodeId, nat>, dialing: map<NodeId, nat>, flags: nat, n: NodeId)
    requires Dynamic(flags) ==> n in dialing && dialing[n] == flags
    ensures |DynNodes(peers[n := flags], dialing)| <= |DynNodes(peers, dialing)|
  {
    hide Dynamic;
    assert DynNodes(peers[n := flags], dialing) <= DynNodes(peers, dialing);
    SubsetSize(DynNodes(peers[n := flags], dialing), DynNodes(peers, dialing));
  }

  /** Another dial for a node that is free, with a slot if it is a dynamic one. */
  lemma AddDialKeeps(max: nat, dialing: map<NodeId, nat>, looking: bool, hist: seq<PastDial>,
                     peers: map<NodeId, nat>, tasks: seq<Task>, flags: nat, n: NodeId)
    requires Steady(max, dialing, looking, hist, peers, tasks)
    requires n !in dialing && n !in Ids(hist) && (Dynamic(flags) ==> |DynNodes(peers, dialing)| < max)
    ensures Steady(max, dialing[n := flags], looking, hist, peers, tasks + [Dial(flags, n)])
    ensures |DynNodes(peers, dialing[n := flags])| <= |DynNodes(peers, dialing)| + if Dynamic(flags) then 1 else 0
  {
    hide DynNodes, Dynamic, Unique;
    var t := Dial(flags, n);
    var after := dialing[n := flags];
    NoDupAdd(tasks, t);
    DynAdd(peers, dialing, flags, n);
    forall p | p in hist ensures p.id !in after {
      assert p.id in Ids(hist);
    }
  }

  lemma {:induction false} AddDialsKeeps(max: nat, dialing: map<NodeId, nat>, looking: bool, hist: seq<PastDial>,
                                         peers: map<NodeId, nat>, tasks: seq<Task>, flags: nat, ns: seq<NodeId>)
    requires Steady(max, dialing, looking, hist, peers, tasks)
    requires NoDup(ns) && forall n :: n in ns ==> n !in dialing && n !in Ids(hist)
    requires Dynamic(flags) && ns != [] ==> |DynNodes(peers, dialing)| + |ns| <= max
    ensures Steady(max, Mark(dialing, ns, flags), looking, hist, peers, tasks + Dials(flags, ns))
    ensures |DynNodes(peers, Mark(dialing, ns, flags))| <= |DynNodes(peers,
                                                                     dialing)| + if Dynamic(flags) then |ns| else 0
    decreases |ns|
  {
    hide Steady, Mark, Dials, DynNodes, Dynamic, Ids;
    if ns == [] {
      MarkNone(dialing, flags);
      assert tasks + [] == tasks;
    } else {
      var ns', n := ns[..|ns| - 1], ns[|ns| - 1];
      assert ns == ns' + [n] && n in ns;
      assert forall m :: m in ns' ==> m in ns;
      AddDialsKeeps(max, dialing, looking, hist, peers, tasks, flags, ns');
      MarkStep(dialing, ns', flags, n);
      MarkKeys(dialing, ns', flags);
      assert n !in ns';
      AddDialKeeps(max, Mark(dialing, ns', flags), looking, hist, peers, tasks + Dials(flags, ns'), flags, n);
      assert tasks + Dials(flags, ns) == tasks + Dials(flags, ns') + [Dial(flags, n)];
    }
  }

  lemma AddDiscoverKeeps(max: nat, dialing: map<NodeId, nat>, hist: seq<PastDial>, peers: map<NodeId, nat>,
                         tasks: seq<Task>)
    requires Steady(max, dialing, false, hist, peers, tasks)
    ensures Steady(max, dialing, true, hist, peers, tasks + [Discover])
  {
    hide DynNodes, Unique;
    NoDupAdd(tasks, Discover);
  }

  lemma AddWaitKeeps(max: nat, dialing: map<NodeId, nat>, looking: bool, hist: seq<PastDial>, peers: map<NodeId, nat>,
                     d: int)
    requires Steady(max, dialing, looking, hist, peers, [])
    ensures Steady(max, dialing, looking, hist, peers, [WaitExpire(d)])
  {
    hide DynNodes, Unique;
  }

  /** Letting the history expire. */
  lemma ExpireKeeps(max: nat, dialing: map<NodeId, nat>, looking: bool, h: seq<PastDial>, k: seq<PastDial>, now: Time,
                    peers: map<NodeId, nat>, tasks: seq<Task>)
    requires Steady(max, dialing, looking, h, peers, tasks) && Expired(h, k, now)
    ensures Steady(max, dialing, looking, k, peers, tasks)
  {
    hide DynNodes, Unique, Expired;
    ExpiredMembers(h, k, now);
  }

  lemma NoDupWithout(tasks: seq<Task>, i: nat)
    requires NoDup(tasks) && i < |tasks|
    ensures NoDup(Without(tasks, i)) && tasks[i] !in Without(tasks, i)
    ensures forall u :: u in Without(tasks, i) <==> u in tasks && u != tasks[i]
  {
    var s := Without(tasks, i);
    assert forall j :: 0 <= j < |s| ==> s[j] == if j < i then tasks[j] else tasks[j + 1];
    forall u | u in tasks && u != tasks[i] ensures u in s {
      var j :| 0 <= j < |tasks| && tasks[j] == u;
      assert s[if j < i then j else j - 1] == u;
    }
  }

  /** A dial that is over: off the table, into the history. */
  lemma DialDoneKeeps(max: nat, dialing: map<NodeId, nat>, looking: bool, hist: seq<PastDial>, peers: map<NodeId, nat>,
                      tasks: seq<Task>, i: nat, exp: Time)
    requires Steady(max, dialing, looking, hist, peers, tasks) && i < |tasks| && tasks[i].Dial?
    ensures Steady(max, dialing - {tasks[i].dest}, looking, hist + [PastDial(tasks[i].dest, exp)], peers,
                   Without(tasks, i))
  {
    var n := tasks[i].dest;
    var after := dialing - {n};
    NoDupWithout(tasks, i);
    assert tasks[i] in tasks;
    SubsetSize(DynNodes(peers, after), DynNodes(peers, dialing));
    var p := PastDial(n, exp);
    var h := hist + [p];
    assert multiset(h) == multiset(hist) + multiset{p};
    assert p !in hist;
    assert forall q :: q in h <==> q in hist || q == p;
  }

  lemma DiscoverDoneKeeps(max: nat, dialing: map<NodeId, nat>, looking: bool, hist: seq<PastDial>, peers: map<NodeId, nat>,
                          tasks: seq<Task>, i: nat)
    requires Steady(max, dialing, looking, hist, peers, tasks) && i < |tasks| && tasks[i] == Discover
    ensures Steady(max, dialing, false, hist, peers, Without(tasks, i))
  {
    hide DynNodes, Unique, Without;
    NoDupWithout(tasks, i);
  }

  lemma WaitDoneKeeps(max: nat, dialing: map<NodeId, nat>, looking: bool, hist: seq<PastDial>, peers: map<NodeId, nat>,
                      tasks: seq<Task>, i: nat)
    requires Steady(max, dialing, looking, hist, peers, tasks) && i < |tasks| && tasks[i].WaitExpire?
    ensures Steady(max, dialing, looking, hist, peers, Without(tasks, i))
  {
    hide DynNodes, Unique, Without;
    NoDupWithout(tasks, i);
  }

  /** A node joins: by a dynamic dial only while that dial is under way. */
  lemma JoinKeeps(max: nat, dialing: map<NodeId, nat>, looking: bool, hist: seq<PastDial>, peers: map<NodeId, nat>,
                  tasks: seq<Task>, n: NodeId, flags: nat)
    requires Steady(max, dialing, looking, hist, peers, tasks)
    requires Dynamic(flags) ==> Dial(flags, n) in tasks
    ensures Steady(max, dialing, looking, hist, peers[n := flags], tasks)
  {
    hide Unique, DynNodes, Dynamic;
    if Dynamic(flags) { assert Dial(flags, n).dest in dialing; }
    DynJoin(peers, dialing, flags, n);
  }

  lemma UnpinKeeps(max: nat, dialing: map<NodeId, nat>, looking: bool, h: seq<PastDial>, k: seq<PastDial>, i: nat,
                   peers: map<NodeId, nat>, tasks: seq<Task>)
    requires Steady(max, dialing, looking, h, peers, tasks) && i < |h| && k == Without(h, i)
    ensures Steady(max, dialing, looking, k, peers, tasks)
  {
    hide DynNodes, Without, Unique;
    RemovedMembers(h, i);
  }

  // ----- what happened, in order -----

  /** A round of planning, a dial begun, a dial over, a node taken off the static list. */
  datatype Entry = Tick(now: Time) | Started(node: NodeId) | Completed(node: NodeId, at: Time) | Removed(node: NodeId)

  /** Between i and j the history entry made at i has expired at some round, or was removed. */
  ghost predicate Excused(log: seq<Entry>, i: int, j: int)
    requires 0 <= i < j <= |log| && log[i].Completed?
  {
    exists k :: i < k < j && Frees(log[k], log[i])
  }

  predicate Frees(e: Entry, c: Entry)
    requires c.Completed?
  {
    || e == Removed(c.node)
    || (e.Tick? && e.now > c.at + HISTORY_EXPIRATION)
  }

  /** No node is dialed again before that. */
  ghost predicate Spaced(log: seq<Entry>)
  {
    forall i, j :: 0 <= i < j < |log| && log[i].Completed? && log[j] == Started(log[i].node) ==> Excused(log, i, j)
  }

  /** Until then the history has the entry. */
  ghost predicate Remembered(log: seq<Entry>, hist: seq<PastDial>)
  {
    forall i :: 0 <= i < |log| && log[i].Completed? && !Excused(log, i, |log|) ==>
                  PastDial(log[i].node, log[i].at + HISTORY_EXPIRATION) in hist
  }

  lemma ExcusedStep(log: seq<Entry>, e: Entry, i: int, j: int)
    requires 0 <= i < j <= |log| && log[i].Completed?
    ensures (log + [e])[i] == log[i]
    ensures Excused(log + [e], i, j) <==> Excused(log, i, j)
    ensures Excused(log + [e], i, |log| + 1) <==> Excused(log, i, |log|) || Frees(e, log[i])
  {
    var l := log + [e];
    assert forall k :: 0 <= k < |log| ==> l[k] == log[k];
    assert l[|log|] == e;
    if Excused(log, i, |log|) {
      var k :| i < k < |log| && Frees(log[k], log[i]);
      assert Frees(l[k], l[i]);
    }
    if Excused(log, i, j) {
      var k :| i < k < j && Frees(log[k], log[i]);
      assert Frees(l[k], l[i]);
    }
    if Frees(e, log[i]) { assert Frees(l[|log|], l[i]); }
  }

  lemma FreeAgain(log: seq<Entry>, h: seq<PastDial>, i: nat)
    requires Remembered(log, h) && i < |log| && log[i].Completed? && log[i].node !in Ids(h)
    ensures Excused(log, i, |log|)
  {
    var p := PastDial(log[i].node, log[i].at + HISTORY_EXPIRATION);
    assert p in h ==> p.id in Ids(h);
  }

  /** One more entry, with the history giving up only what the entry frees. */
  lemma LogStep(log: seq<Entry>, e: Entry, h: seq<PastDial>, k: seq<PastDial>)
    requires Spaced(log) && Remembered(log, h)
    requires e.Completed? ==> PastDial(e.node, e.at + HISTORY_EXPIRATION) in k
    requires e.Started? ==> e.node !in Ids(h)
    requires forall p :: p in h && !Frees(e, Completed(p.id, p.exp - HISTORY_EXPIRATION)) ==> p in k
    ensures Spaced(log + [e]) && Remembered(log + [e], k)
  {
    var l := log + [e];
    forall i, j | 0 <= i < j < |l| && l[i].Completed? && l[j] == Started(l[i].node) ensures Excused(l, i, j) {
      assert l[i] == log[i];
      ExcusedStep(log, e, i, j);
      if j == |log| {
        FreeAgain(log, h, i);
      } else {
        assert l[j] == log[j];
      }
    }
    forall i | 0 <= i < |l| && l[i].Completed? && !Excused(l, i, |l|)
      ensures PastDial(l[i].node, l[i].at + HISTORY_EXPIRATION) in k
    {
      if i < |log| {
        ExcusedStep(log, e, i, |log|);
        var p := PastDial(log[i].node, log[i].at + HISTORY_EXPIRATION);
        assert p in h;
        assert log[i] == Completed(p.id, p.exp - HISTORY_EXPIRATION);
      }
    }
  }

  function Starts(tasks: seq<Task>): seq<Entry>
  {
    if tasks == [] then []
    else
      var t := tasks[|tasks| - 1];
      Starts(tasks[..|tasks| - 1]) + if t.Dial? then [Started(t.dest)] else []
  }

  /** New dials, none of them for a node in the history. */
  lemma {:induction false} LogStarts(log: seq<Entry>, h: seq<PastDial>, tasks: seq<Task>)
    requires Spaced(log) && Remembered(log, h) && forall t :: t in tasks && t.Dial? ==> t.dest !in Ids(h)
    ensures Spaced(log + Starts(tasks)) && Remembered(log + Starts(tasks), h)
    decreases |tasks|
  {
    hide Spaced, Remembered, Ids;
    if tasks == [] {
      assert log + [] == log;
    } else {
      var ts, t := tasks[..|tasks| - 1], tasks[|tasks| - 1];
      assert forall u :: u in ts ==> u in tasks;
      LogStarts(log, h, ts);
      assert t in tasks;
      if t.Dial? {
        LogStep(log + Starts(ts), Started(t.dest), h, h);
        assert log + Starts(tasks) == log + Starts(ts) + [Started(t.dest)];
      } else {
        assert log + Starts(tasks) == log + Starts(ts);
      }
    }
  }

  lemma LogTick(log: seq<Entry>, h: seq<PastDial>, k: seq<PastDial>, now: Time)
    requires Spaced(log) && Remembered(log, h) && Expired(h, k, now)
    ensures Spaced(log + [Tick(now)]) && Remembered(log + [Tick(now)], k)
  {
    hide Spaced, Remembered, Ids, Expired;
    ExpiredMembers(h, k, now);
    LogStep(log, Tick(now), h, k);
  }
}
