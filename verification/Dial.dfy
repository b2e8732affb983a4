/** The dial state, the scheduling of its tasks, and every run of the two. */
module Dial {
  import opened Bytes
  import opened DialPlan

  const MAX_ACTIVE: nat := 16

  /** The dial state as a value. */
  datatype Book = Book(max: nat, looking: bool, buf: seq<NodeId>, dialing: map<NodeId, nat>,
                       statics: map<NodeId, Task>, hist: seq<PastDial>, start: Option<Time>, bootnodes: seq<NodeId>)

  /** Nodes that are not to be dialed now. */
  function Busy(dialing: map<NodeId, nat>, peers: map<NodeId, nat>, hist: seq<PastDial>): set<NodeId>
  {
    dialing.Keys + peers.Keys + Ids(hist)
  }

  ghost predicate StaticOk(statics: map<NodeId, Task>)
  {
    forall n :: n in statics ==> statics[n] == Dial(STATIC_DIALED, n)
  }

  /** Slots for dynamic dials: connected and dialing nodes each take one. */
  function Need(b: Book, peers: map<NodeId, nat>): int { b.max - |DynIn(peers)| - |DynIn(b.dialing)| }

  function Begun(b: Book, now: Time): Time { if b.start.Some? then b.start.value else now }

  /** A boot node gets its turn when nobody is connected for some time. */
  function Turn(b: Book, peers: map<NodeId, nat>, now: Time): (t: seq<NodeId>)
    ensures |t| <= 1
  {
    if |peers| == 0 && |b.bootnodes| > 0 && Need(b, peers) > 0 && now - Begun(b, now) > FALLBACK_INTERVAL
    then [b.bootnodes[0]] else []
  }

  function Rotated(bootnodes: seq<NodeId>, turn: seq<NodeId>): seq<NodeId>
  {
    if turn == [] || bootnodes == [] then bootnodes else bootnodes[1..] + [bootnodes[0]]
  }

  /** The static nodes that can be dialed, each once. */
  ghost predicate Fixed(b: Book, peers: map<NodeId, nat>, hist: seq<PastDial>, fixed: seq<NodeId>)
  {
    NoDup(fixed) && forall n :: n in fixed <==> n in b.statics && n !in Busy(b.dialing, peers, hist)
  }

  function Chosen(b: Book, peers: map<NodeId, nat>, hist: seq<PastDial>, fixed: seq<NodeId>, now: Time,
                  random: seq<NodeId>): Picks
  {
    Choose(Busy(b.dialing, peers, hist) + SetOf(fixed), Need(b, peers), Turn(b, peers, now), random, b.buf)
  }

  function Lookup(b: Book, p: Picks): seq<Task>
  {
    if |p.left| < p.need && !b.looking then [Discover] else []
  }

  /** If nothing else is going on: a wait until the first history entry expires. */
  ghost predicate Waits(hist: seq<PastDial>, now: Time, idle: bool, wait: seq<Task>)
  {
    if idle && hist != [] then
      |wait| == 1 && wait[0].WaitExpire? && Earliest(hist, now + wait[0].duration)
    else
      wait == []
  }

  ghost predicate Earliest(hist: seq<PastDial>, exp: Time)
  {
    (exists p :: p in hist && p.exp == exp) && forall p :: p in hist ==> exp <= p.exp
  }

  /**
   One round of planning: b before, c after, with tasks for the static nodes in any
   order, then the dynamic ones, then a lookup, then a wait.
   */
  ghost predicate Planned(b: Book, peers: map<NodeId, nat>, now: Time, running: nat, random: seq<NodeId>,
                          fixed: seq<NodeId>, wait: seq<Task>, c: Book, tasks: seq<Task>)
  {
    var p := Chosen(b, peers, c.hist, fixed, now, random);
    && Expired(b.hist, c.hist, now) && Fixed(b, peers, c.hist, fixed)
    && c == Book(b.max, b.looking || |p.left| < p.need, p.left,
                 Mark(Mark(b.dialing, fixed, STATIC_DIALED), p.nodes, DYN_DIALED),
                 b.statics, c.hist, Some(Begun(b, now)), Rotated(b.bootnodes, Turn(b, peers, now)))
    && Waits(c.hist, now, running == 0 && Others(b, fixed, p) == [], wait)
    && tasks == Others(b, fixed, p) + wait
  }

  function Others(b: Book, fixed: seq<NodeId>, p: Picks): seq<Task>
  {
    Dials(STATIC_DIALED, fixed) + Dials(DYN_DIALED, p.nodes) + Lookup(b, p)
  }

  class DialState {
    const maxDynDials: nat
    var lookupRunning: bool
    var lookupBuf: seq<NodeId>
    var dialing: map<NodeId, nat>
    var statics: map<NodeId, Task>
    var hist: seq<PastDial>
    var start: Option<Time>
    var bootnodes: seq<NodeId>

    function Now(): Book
      reads this
    {
      Book(maxDynDials, lookupRunning, lookupBuf, dialing, statics, hist, start, bootnodes)
    }

    constructor (static_: seq<NodeId>, bootnodes: seq<NodeId>, maxdyn: nat)
      ensures maxDynDials == maxdyn && !lookupRunning && lookupBuf == [] && dialing == map[] && hist == []
      ensures StaticOk(statics) && statics.Keys == SetOf(static_) && start == None && this.bootnodes == bootnodes
    {
      this.maxDynDials, this.lookupRunning, this.lookupBuf, this.dialing := maxdyn, false, [], map[];
      this.hist, this.start, this.bootnodes := [], None, bootnodes;
      this.statics := map[];
      new;
      for i := 0 to |static_|
        invariant StaticOk(statics) && statics.Keys == SetOf(static_[..i])
        invariant !lookupRunning && lookupBuf == [] && dialing == map[] && hist == [] && start == None
        invariant this.bootnodes == bootnodes
      {
        assert static_[..i + 1] == static_[..i] + [static_[i]];
        AddStatic(static_[i]);
      }
      assert static_[..|static_|] == static_;
    }

    method AddStatic(n: NodeId)
      modifies this`statics
      ensures statics == old(statics)[n := Dial(STATIC_DIALED, n)]
    {
      statics := statics[n := Dial(STATIC_DIALED, n)];
    }

    /** Off the static list and out of the history. */
    method RemoveStatic(n: NodeId)
      modifies this`statics, this`hist
      ensures statics == old(statics) - {n}
      ensures n !in Ids(old(hist)) ==> hist == old(hist)
      ensures n in Ids(old(hist)) ==>
                exists i :: 0 <= i < |old(hist)| && old(hist)[i].id == n && hist == Without(old(hist), i)
    {
      statics := statics - {n};
      var found;
      hist, found := Remove(hist, n);
    }

    method CheckDial(n: NodeId, peers: map<NodeId, nat>) returns (err: Option<DialError>)
      ensures err.None? <==> n !in Busy(dialing, peers, hist)
      ensures err == Some(AlreadyDialing) <==> n in dialing
      ensures err == Some(AlreadyConnected) <==> n !in dialing && n in peers
      ensures err == Some(RecentlyDialed) <==> n !in dialing && n !in peers && n in Ids(hist)
    {
      if n in dialing { return Some(AlreadyDialing); }
      if n in peers { return Some(AlreadyConnected); }
      var recently := Contains(hist, n);
      return if recently then Some(RecentlyDialed) else None;
    }

    /** A finished task: a dialed node goes into the history, lookup results into the buffer. */
    method TaskDone(t: Task, now: Time, results: seq<NodeId>)
      modifies this`hist, this`dialing, this`lookupRunning, this`lookupBuf
      ensures t.Dial? ==>
                && hist == old(hist) + [PastDial(t.dest, now + HISTORY_EXPIRATION)]
                && dialing == old(dialing) - {t.dest}
                && lookupRunning == old(lookupRunning) && lookupBuf == old(lookupBuf)
      ensures t.Discover? ==>
                && !lookupRunning && lookupBuf == old(lookupBuf) + results
                && hist == old(hist) && dialing == old(dialing)
      ensures t.WaitExpire? ==> Now() == old(Now())
    {
      match t
      case Dial(_, dest) =>
        hist := hist + [PastDial(dest, now + HISTORY_EXPIRATION)];
        dialing := dialing - {dest};
      case Discover =>
        lookupRunning := false;
        lookupBuf := lookupBuf + results;
      case WaitExpire(_) =>
    }

    method AddDial(flags: nat, n: NodeId, peers: map<NodeId, nat>, tasks: seq<Task>) returns (ok: bool, out: seq<Task>)
      modifies this`dialing
      ensures ok <==> n !in Busy(old(dialing), peers, hist)
      ensures ok ==> dialing == old(dialing)[n := flags] && out == tasks + [Dial(flags, n)]
      ensures !ok ==> dialing == old(dialing) && out == tasks
    {
      var err := CheckDial(n, peers);
      if err.Some? { return false, tasks; }
      dialing := dialing[n := flags];
      return true, tasks + [Dial(flags, n)];
    }

    /** The static nodes, in whatever order the table gives them. */
    method DialStatic(peers: map<NodeId, nat>) returns (tasks: seq<Task>, ghost fixed: seq<NodeId>)
      requires StaticOk(statics)
      modifies this`dialing
      ensures Fixed(old(Now()), peers, hist, fixed)
      ensures tasks == Dials(STATIC_DIALED, fixed) && dialing == Mark(old(dialing), fixed, STATIC_DIALED)
    {
      hide Mark, Dials, Ids;
      tasks, fixed := [], [];
      MarkNone(dialing, STATIC_DIALED);
      ghost var before := dialing;
      var todo := statics.Keys;
      while todo != {}
        invariant todo <= statics.Keys && NoDup(fixed)
        invariant forall n :: n in fixed <==> n in statics && n !in todo && n !in Busy(before, peers, hist)
        invariant tasks == Dials(STATIC_DIALED, fixed) && dialing == Mark(before, fixed, STATIC_DIALED)
      {
        var n :| n in todo;
        var err := CheckDial(n, peers);
        MarkKeys(before, fixed, STATIC_DIALED);
        if err.None? {
          MarkStep(before, fixed, STATIC_DIALED, n);
          dialing := dialing[n := statics[n].flags];
          tasks := tasks + [statics[n]];
          fixed := fixed + [n];
        }
        todo := todo - {n};
      }
    }

    /** Dials the first k candidates that are free. */
    method DialFirst(cands: seq<NodeId>, k: nat, peers: map<NodeId, nat>, tasks: seq<Task>)
      returns (out: seq<Task>, added: nat)
      requires k <= |cands|
      modifies this`dialing
      ensures var g := Greedy(Busy(old(dialing), peers, hist), cands[..k], k);
              && out == tasks + Dials(DYN_DIALED, g) && added == |g|
              && dialing == Mark(old(dialing), g, DYN_DIALED)
    {
      hide *;
      ghost var before := dialing;
      ghost var busy := Busy(before, peers, hist);
      ghost var g: seq<NodeId> := [];
      MarkNone(before, DYN_DIALED);
      out, added := tasks, 0;
      assert tasks + [] == tasks;
      GreedyEnd(busy, cands[..k], k);
      for i := 0 to k
        invariant out == tasks + Dials(DYN_DIALED, g) && added == |g| <= i
        invariant dialing == Mark(before, g, DYN_DIALED) && Busy(dialing, peers, hist) == busy + SetOf(g)
        invariant Greedy(busy, cands[..k], k) == g + Greedy(busy + SetOf(g), cands[..k][i..], k - |g|)
      {
        GreedyStep(busy + SetOf(g), cands[..k], k - |g|, i);
        BusyStep(before, g, peers, hist, cands[i]);
        var ok: bool;
        ok, out := AddDial(DYN_DIALED, cands[i], peers, out);
        if ok {
          g := g + [cands[i]];
          added := added + 1;
        }
      }
      GreedyEnd(busy + SetOf(g), cands[..k][k..], k - |g|);
      assert Greedy(busy, cands[..k], k) == g;
    }

    /** Goes on through the lookup results while slots are open. */
    method DialLookup(need: int, peers: map<NodeId, nat>, tasks: seq<Task>) returns (out: seq<Task>, left: int)
      modifies this`dialing, this`lookupBuf
      ensures var quota := if need < 0 then 0 else need;
              var busy := Busy(old(dialing), peers, hist);
              var g := Greedy(busy, old(lookupBuf), quota);
              && out == tasks + Dials(DYN_DIALED, g) && left == need - |g|
              && dialing == Mark(old(dialing), g, DYN_DIALED)
              && lookupBuf == old(lookupBuf)[Looked(busy, old(lookupBuf), quota)..]
    {
      hide *;
      ghost var before := dialing;
      ghost var quota: nat := if need < 0 then 0 else need;
      ghost var busy := Busy(before, peers, hist);
      ghost var g: seq<NodeId> := [];
      MarkNone(before, DYN_DIALED);
      out, left := tasks, need;
      assert tasks + [] == tasks;
      BusyNone(busy);
      assert lookupBuf[0..] == lookupBuf;
      var i := 0;
      while i < |lookupBuf| && left > 0
        invariant 0 <= i <= |lookupBuf| && lookupBuf == old(lookupBuf)
        invariant out == tasks + Dials(DYN_DIALED, g) && left == need - |g| && |g| <= quota
        invariant dialing == Mark(before, g, DYN_DIALED) && Busy(dialing, peers, hist) == busy + SetOf(g)
        invariant Greedy(busy, lookupBuf, quota) == g + Greedy(busy + SetOf(g), lookupBuf[i..], quota - |g|)
        invariant Looked(busy, lookupBuf, quota) == i + Looked(busy + SetOf(g), lookupBuf[i..], quota - |g|)
      {
        GreedyStep(busy + SetOf(g), lookupBuf, quota - |g|, i);
        BusyStep(before, g, peers, hist, lookupBuf[i]);
        var ok: bool;
        ok, out := AddDial(DYN_DIALED, lookupBuf[i], peers, out);
        if ok {
          g := g + [lookupBuf[i]];
          left := left - 1;
        }
        i := i + 1;
      }
      GreedyEnd(busy + SetOf(g), lookupBuf[i..], quota - |g|);
      assert Greedy(busy, lookupBuf, quota) == g;
      lookupBuf := lookupBuf[i..];
    }

    /** The boot node whose turn it is goes to the end of the line, and is dialed if it is free. */
    method DialBoot(turn: bool, peers: map<NodeId, nat>, tasks: seq<Task>) returns (out: seq<Task>, added: nat)
      requires turn ==> bootnodes != []
      modifies this`dialing, this`bootnodes
      ensures var boot := if turn then [old(bootnodes)[0]] else [];
              var b := Greedy(Busy(old(dialing), peers, hist), boot, |boot|);
              && out == tasks + Dials(DYN_DIALED, b) && dialing == Mark(old(dialing), b, DYN_DIALED) && added == |b|
              && bootnodes == Rotated(old(bootnodes), boot)
    {
      hide *;
      ghost var before := dialing;
      ghost var boot := if turn then [bootnodes[0]] else [];
      RotatedIs(bootnodes, boot);
      GreedyOne(Busy(dialing, peers, hist), boot);
      MarkNone(before, DYN_DIALED);
      out, added := tasks, 0;
      assert tasks + [] == tasks;
      if turn {
        var bootnode := bootnodes[0];
        bootnodes := bootnodes[1..] + [bootnode];
        BusyStep(before, [], peers, hist, bootnode);
        assert [] + [bootnode] == [bootnode];
        var ok: bool;
        ok, out := AddDial(DYN_DIALED, bootnode, peers, out);
        if ok { added := 1; }
      }
    }

    /** The boot node whose turn it is, random nodes, lookup results. */
    method DialDynamic(need: int, turn: bool, peers: map<NodeId, nat>, random: seq<NodeId>, tasks: seq<Task>)
      returns (out: seq<Task>, left: int)
      requires turn ==> bootnodes != []
      modifies this`dialing, this`bootnodes, this`lookupBuf
      ensures var boot := if turn then [old(bootnodes)[0]] else [];
              var p := Choose(Busy(old(dialing), peers, hist), need, boot, random, old(lookupBuf));
              && out == tasks + Dials(DYN_DIALED, p.nodes) && left == p.need
              && dialing == Mark(old(dialing), p.nodes, DYN_DIALED) && lookupBuf == p.left
              && bootnodes == Rotated(old(bootnodes), boot)
    {
      hide *;
      ghost var before, buf := dialing, lookupBuf;
      ghost var busy := Busy(dialing, peers, hist);
      ghost var boot := if turn then [bootnodes[0]] else [];
      ghost var b := Greedy(busy, boot, |boot|);
      var added: nat;
      out, added := DialBoot(turn, peers, tasks);
      left := need - added;
      BusyMark(before, b, DYN_DIALED, peers, hist);
      ghost var need1, d1, t1 := left, dialing, out;
      assert t1 == tasks + Dials(DYN_DIALED, b) && d1 == Mark(before, b, DYN_DIALED) && need1 == need - |b|;

      var candidates := if left < 2 then 0 else left / 2;
      var k := if candidates < |random| then candidates else |random|;
      QuotaIs(left, random, k);
      out, added := DialFirst(random, k, peers, out);
      left := left - added;
      ghost var c := Greedy(busy + SetOf(b), random[..k], k);
      BusyMark(d1, c, DYN_DIALED, peers, hist);
      ghost var need2, d2, t2 := left, dialing, out;
      assert t2 == t1 + Dials(DYN_DIALED, c) && d2 == Mark(d1, c, DYN_DIALED) && need2 == need1 - |c|;

      out, left := DialLookup(left, peers, out);
      ghost var quota := if need2 < 0 then 0 else need2;
      ghost var busy2 := busy + SetOf(b) + SetOf(c);
      ghost var d := Greedy(busy2, buf, quota);
      assert out == t2 + Dials(DYN_DIALED, d) && dialing == Mark(d2, d, DYN_DIALED) && left == need2 - |d|;
      ChooseIs(busy, need, boot, random, buf, b, c, d);
      MarkThree(before, b, c, d, tasks);
    }

    /** Slots left for dynamic dials. */
    method Slots(peers: map<NodeId, nat>) returns (need: int)
      ensures need == maxDynDials - |DynIn(peers)| - |DynIn(dialing)|
    {
      need := maxDynDials;
      var count := CountDynamic(peers);
      need := need - count;
      count := CountDynamic(dialing);
      need := need - count;
    }

    /** A lookup if too few candidates are left, a wait if there is nothing else to do. */
    method TopUp(need: int, running: nat, now: Time, tasks: seq<Task>) returns (out: seq<Task>, ghost wait: seq<Task>)
      modifies this`lookupRunning
      ensures var lookup := if |lookupBuf| < need && !old(lookupRunning) then [Discover] else [];
              && out == tasks + lookup + wait
              && Waits(hist, now, running == 0 && tasks + lookup == [], wait)
      ensures lookupRunning == (old(lookupRunning) || |lookupBuf| < need)
    {
      hide *;
      out, wait := tasks, [];
      assert tasks + [] == tasks;
      if |lookupBuf| < need && !lookupRunning {
        lookupRunning := true;
        out := out + [Discover];
      }
      ghost var before := out;
      assert before + [] == before;
      if running == 0 && |out| == 0 && |hist| > 0 {
        var i := MinIndex(hist);
        WaitIs(hist, i, now);
        wait := [WaitExpire(hist[i].exp - now)];
        out := out + [WaitExpire(hist[i].exp - now)];
      }
      WaitsIs(hist, now, running == 0 && before == [], wait);
    }

    /** newTasks: one round of planning. */
    method NewTasks(running: nat, peers: map<NodeId, nat>, now: Time, random: seq<NodeId>)
      returns (tasks: seq<Task>, ghost fixed: seq<NodeId>, ghost wait: seq<Task>)
      requires StaticOk(statics)
      modifies this
      ensures Planned(old(Now()), peers, now, running, random, fixed, wait, Now(), tasks)
    {
      hide *;
      ghost var b := Now();
      NowIs(this);
      if start.None? { start := Some(now); }
      NeedIs(b, peers, now);
      var need := Slots(peers);
      hist := Expire(hist, now);
      ghost var h := hist;
      ghost var b1 := Now();
      NowIs(this);
      tasks, fixed := DialStatic(peers);
      FixedSame(b, b1, peers, h, fixed);
      BusyMark(b.dialing, fixed, STATIC_DIALED, peers, h);
      ghost var d1, t1 := dialing, tasks;
      var turn := |peers| == 0 && |bootnodes| > 0 && need > 0 && now - start.value > FALLBACK_INTERVAL;
      tasks, need := DialDynamic(need, turn, peers, random, tasks);
      ghost var p := Chosen(b, peers, h, fixed, now, random);
      ChosenIs(b, peers, h, fixed, now, random);
      assert dialing == Mark(d1, p.nodes, DYN_DIALED) && tasks == t1 + Dials(DYN_DIALED, p.nodes) && need == p.need;
      LookupIs(b, p);
      tasks, wait := TopUp(need, running, now, tasks);
      NowIs(this);
      PlannedIs(b, peers, now, running, random, fixed, wait, Now(), tasks);
    }
  }

  method CountDynamic(m: map<NodeId, nat>) returns (k: nat)
    ensures k == |DynIn(m)|
  {
    k := 0;
    var todo := m.Keys;
    ghost var seen: set<NodeId> := {};
    while todo != {}
      invariant todo <= m.Keys && seen == DynIn(m) - todo && k == |seen|
    {
      var n :| n in todo;
      todo := todo - {n};
      if Dynamic(m[n]) {
        seen := seen + {n};
        k := k + 1;
      }
    }
    assert seen == DynIn(m);
  }

  lemma NowIs(s: DialState)
    ensures s.Now() == Book(s.maxDynDials, s.lookupRunning, s.lookupBuf, s.dialing, s.statics, s.hist, s.start,
                            s.bootnodes)
  {}

  lemma RotatedIs(bootnodes: seq<NodeId>, turn: seq<NodeId>)
    ensures Rotated(bootnodes, turn) == if turn == [] ||
            bootnodes == [] then bootnodes else bootnodes[1..] + [bootnodes[0]]
  {}

  lemma GreedyOne(busy: set<NodeId>, boot: seq<NodeId>)
    ensures boot == [] ==> Greedy(busy, boot, |boot|) == []
    ensures |boot| == 1 ==> Greedy(busy, boot, |boot|) == if boot[0] in busy then [] else boot
  {
    if |boot| == 1 {
      assert boot[1..] == [];
      assert boot == [boot[0]];
    }
  }

  lemma BusyMark(before: map<NodeId, nat>, ns: seq<NodeId>, flags: nat, peers: map<NodeId, nat>, hist: seq<PastDial>)
    ensures Busy(Mark(before, ns, flags), peers, hist) == Busy(before, peers, hist) + SetOf(ns)
  {
    MarkKeys(before, ns, flags);
  }

  lemma QuotaIs(need: int, random: seq<NodeId>, k: nat)
    requires var q := if need < 2 then 0 else need / 2; k == if q < |random| then q else |random|
    ensures RandomQuota(need, random) == k
  {}

  lemma ChooseIs(busy: set<NodeId>, need: int, boot: seq<NodeId>, random: seq<NodeId>, buf: seq<NodeId>,
                 b: seq<NodeId>, c: seq<NodeId>, d: seq<NodeId>)
    requires b == Greedy(busy, boot, |boot|)
    requires var q := RandomQuota(need - |b|, random); c == Greedy(busy + SetOf(b), random[..q], q)
    requires var rest := need - |b| - |c|;
             d == Greedy(busy + SetOf(b) + SetOf(c), buf, if rest < 0 then 0 else rest)
    ensures var rest := need - |b| - |c|;
            Choose(busy, need, boot, random, buf) ==
              Picks(b + c + d,
                    buf[Looked(busy + SetOf(b) + SetOf(c), buf, if rest < 0 then 0 else rest)..],
                    rest - |d|)
  {
    hide Greedy, Looked, RandomQuota;
  }

  lemma MarkThree(before: map<NodeId, nat>, b: seq<NodeId>, c: seq<NodeId>, d: seq<NodeId>, tasks: seq<Task>)
    ensures Mark(before, b + c + d, DYN_DIALED) ==
            Mark(Mark(Mark(before, b, DYN_DIALED), c, DYN_DIALED), d, DYN_DIALED)
    ensures tasks + Dials(DYN_DIALED, b + c + d) ==
            tasks + Dials(DYN_DIALED, b) + Dials(DYN_DIALED, c) + Dials(DYN_DIALED, d)
  {
    hide Mark, Dials;
    MarkAppend(before, b, c, DYN_DIALED);
    MarkAppend(before, b + c, d, DYN_DIALED);
    Associate(tasks, Dials(DYN_DIALED, b), Dials(DYN_DIALED, c), Dials(DYN_DIALED, d));
  }

  lemma Associate<T>(t: seq<T>, a: seq<T>, b: seq<T>, c: seq<T>)
    ensures t + (a + b + c) == t + a + b + c
  {}

  lemma FixedSame(b: Book, c: Book, peers: map<NodeId, nat>, hist: seq<PastDial>, fixed: seq<NodeId>)
    requires Fixed(c, peers, hist, fixed) && b.statics == c.statics && b.dialing == c.dialing
    ensures Fixed(b, peers, hist, fixed)
  {}

  lemma NeedIs(b: Book, peers: map<NodeId, nat>, now: Time)
    ensures Need(b, peers) == b.max - |DynIn(peers)| - |DynIn(b.dialing)|
    ensures Begun(b, now) == if b.start.Some? then b.start.value else now
    ensures Turn(b, peers, now) ==
            if |peers| == 0 && |b.bootnodes| > 0 && Need(b, peers) > 0 && now - Begun(b, now) > FALLBACK_INTERVAL
            then [b.bootnodes[0]] else []
  {}

  lemma ChosenIs(b: Book, peers: map<NodeId, nat>, hist: seq<PastDial>, fixed: seq<NodeId>, now: Time,
                 random: seq<NodeId>)
    ensures Chosen(b, peers, hist, fixed, now, random) ==
            Choose(Busy(b.dialing, peers, hist) + SetOf(fixed), Need(b, peers), Turn(b, peers, now), random, b.buf)
  {}

  lemma LookupIs(b: Book, p: Picks)
    ensures Lookup(b, p) == if |p.left| < p.need && !b.looking then [Discover] else []
  {}

  lemma WaitIs(hist: seq<PastDial>, i: nat, now: Time)
    requires i < |hist| && forall p :: p in hist ==> hist[i].exp <= p.exp
    ensures Earliest(hist, now + (hist[i].exp - now))
  {
    assert hist[i] in hist;
  }

  lemma WaitsIs(hist: seq<PastDial>, now: Time, idle: bool, wait: seq<Task>)
    requires if idle && hist != [] then |wait| == 1 && wait[0].WaitExpire? && Earliest(hist, now + wait[0].duration)
             else wait == []
    ensures Waits(hist, now, idle, wait)
  {}

  lemma PlannedIs(b: Book, peers: map<NodeId, nat>, now: Time, running: nat, random: seq<NodeId>,
                  fixed: seq<NodeId>, wait: seq<Task>, c: Book, tasks: seq<Task>)
    requires Expired(b.hist, c.hist, now) && Fixed(b, peers, c.hist, fixed)
    requires var p := Chosen(b, peers, c.hist, fixed, now, random);
             var others := Dials(STATIC_DIALED, fixed) + Dials(DYN_DIALED, p.nodes) + Lookup(b, p);
             && c == Book(b.max, b.looking || |p.left| < p.need, p.left,
                          Mark(Mark(b.dialing, fixed, STATIC_DIALED), p.nodes, DYN_DIALED),
                          b.statics, c.hist, Some(Begun(b, now)), Rotated(b.bootnodes, Turn(b, peers, now)))
             && Waits(c.hist, now, running == 0 && others == [], wait)
             && tasks == others + wait
    ensures Planned(b, peers, now, running, random, fixed, wait, c, tasks)
  {
    hide Expired, Fixed, Waits, Chosen, Dials, Mark, Lookup, Begun, Rotated, Turn;
  }

  lemma OthersIs(b: Book, fixed: seq<NodeId>, p: Picks)
    ensures Others(b, fixed, p) == Dials(STATIC_DIALED, fixed) + Dials(DYN_DIALED, p.nodes) + Lookup(b, p)
  {}

  lemma BusyNone(busy: set<NodeId>)
    ensures busy + SetOf([]) == busy
  {}

  lemma GreedyEnd(busy: set<NodeId>, cands: seq<NodeId>, quota: nat)
    ensures busy + SetOf([]) == busy && cands[0..] == cands
    ensures cands == [] || quota == 0 ==> Greedy(busy, cands, quota) == [] && Looked(busy, cands, quota) == 0
  {}

  lemma GreedyStep(busy: set<NodeId>, cands: seq<NodeId>, quota: nat, i: nat)
    requires i < |cands| && quota > 0
    ensures cands[i] in busy ==>
              && Greedy(busy, cands[i..], quota) == Greedy(busy, cands[i + 1..], quota)
              && Looked(busy, cands[i..], quota) == 1 + Looked(busy, cands[i + 1..], quota)
    ensures cands[i] !in busy ==>
              && Greedy(busy, cands[i..], quota) == [cands[i]] + Greedy(busy + {cands[i]}, cands[i + 1..], quota - 1)
              && Looked(busy, cands[i..], quota) == 1 + Looked(busy + {cands[i]}, cands[i + 1..], quota - 1)
  {
    assert cands[i..][1..] == cands[i + 1..];
  }

  lemma BusyStep(before: map<NodeId, nat>, g: seq<NodeId>, peers: map<NodeId, nat>, hist: seq<PastDial>, n: NodeId)
    ensures Mark(before, g + [n], DYN_DIALED) == Mark(before, g, DYN_DIALED)[n := DYN_DIALED]
    ensures Dials(DYN_DIALED, g + [n]) == Dials(DYN_DIALED, g) + [Dial(DYN_DIALED, n)]
    ensures SetOf(g + [n]) == SetOf(g) + {n}
    ensures Busy(Mark(before, g, DYN_DIALED)[n := DYN_DIALED], peers, hist) ==
            Busy(Mark(before, g, DYN_DIALED), peers, hist) + {n}
  {
    MarkStep(before, g, DYN_DIALED, n);
  }
}
