/** The server's loop around the dial state: tasks wait, run and finish, peers join. */
module DialLoop {
  import opened DialPlan
  import opened Dial

  // ----- one round of planning -----

  /** A round keeps what holds of the outstanding tasks, and dials nobody the history knows. */
  lemma PlannedKeeps(b: Book, peers: map<NodeId, nat>, now: Time, out: seq<Task>, random: seq<NodeId>,
                     fixed: seq<NodeId>, wait: seq<Task>, c: Book, tasks: seq<Task>)
    requires Planned(b, peers, now, |out|, random, fixed, wait, c, tasks)
    requires Steady(b.max, b.dialing, b.looking, b.hist, peers, out)
    ensures Steady(c.max, c.dialing, c.looking, c.hist, peers, out + tasks)
    ensures forall t :: t in tasks && t.Dial? ==> t.dest !in Ids(c.hist) && t.dest !in peers && t.dest !in b.dialing
  {
    hide *;
    PlannedFacts(b, peers, now, |out|, random, fixed, wait, c, tasks);
    var p := Chosen(b, peers, c.hist, fixed, now, random);
    FixedFacts(b, peers, c.hist, fixed);
    ChosenFacts(b, peers, c.hist, fixed, now, random);
    ExpireKeeps(b.max, b.dialing, b.looking, b.hist, c.hist, now, peers, out);
    NotDynamic();
    AddDialsKeeps(b.max, b.dialing, b.looking, c.hist, peers, out, STATIC_DIALED, fixed);
    var d1, t1 := Mark(b.dialing, fixed, STATIC_DIALED), out + Dials(STATIC_DIALED, fixed);
    MarkKeys(b.dialing, fixed, STATIC_DIALED);
    NeedSlots(b, peers);
    AddDialsKeeps(b.max, d1, b.looking, c.hist, peers, t1, DYN_DIALED, p.nodes);
    var t2 := t1 + Dials(DYN_DIALED, p.nodes);
    LookupIs(b, p);
    if Lookup(b, p) == [Discover] {
      AddDiscoverKeeps(b.max, c.dialing, c.hist, peers, t2);
    } else {
      assert t2 + [] == t2;
    }
    var t3 := t2 + Lookup(b, p);
    OthersIs(b, fixed, p);
    assert out + Others(b, fixed, p) == t3;
    WaitsFacts(c.hist, now, |out| == 0 && Others(b, fixed, p) == [], wait);
    if wait == [] {
      assert out + tasks == t3;
    } else {
      assert t3 == [];
      AddWaitKeeps(b.max, c.dialing, c.looking, c.hist, peers, wait[0].duration);
      assert out + tasks == [WaitExpire(wait[0].duration)];
    }
    TasksFree(b, fixed, p, wait, tasks);
  }

  lemma PlannedFacts(b: Book, peers: map<NodeId, nat>, now: Time, running: nat, random: seq<NodeId>,
                     fixed: seq<NodeId>, wait: seq<Task>, c: Book, tasks: seq<Task>)
    requires Planned(b, peers, now, running, random, fixed, wait, c, tasks)
    ensures var p := Chosen(b, peers, c.hist, fixed, now, random);
            && Expired(b.hist, c.hist, now) && Fixed(b, peers, c.hist, fixed)
            && c.max == b.max && c.looking == (b.looking || |p.left| < p.need) && c.statics == b.statics
            && c.dialing == Mark(Mark(b.dialing, fixed, STATIC_DIALED), p.nodes, DYN_DIALED)
            && Waits(c.hist, now, running == 0 && Others(b, fixed, p) == [], wait)
            && tasks == Others(b, fixed, p) + wait
  {}

  lemma FixedFacts(b: Book, peers: map<NodeId, nat>, hist: seq<PastDial>, fixed: seq<NodeId>)
    requires Fixed(b, peers, hist, fixed)
    ensures NoDup(fixed) && forall n :: n in fixed ==> n !in b.dialing && n !in peers && n !in Ids(hist)
  {
    hide Ids;
  }

  lemma ChosenFacts(b: Book, peers: map<NodeId, nat>, hist: seq<PastDial>, fixed: seq<NodeId>, now: Time,
                    random: seq<NodeId>)
    ensures var p := Chosen(b, peers, hist, fixed, now, random);
            && NoDup(p.nodes)
            && (forall n :: n in p.nodes ==> n !in b.dialing && n !in peers && n !in Ids(hist) && n !in fixed)
            && p.need == Need(b, peers) - |p.nodes| && (p.nodes != [] ==> p.need >= 0) && (p.need > 0 ==> p.left == [])
  {
    hide Ids, Choose, NoDup;
    ChooseOk(Busy(b.dialing, peers, hist) + SetOf(fixed), Need(b, peers), Turn(b, peers, now), random, b.buf);
  }

  lemma NotDynamic()
    ensures !Dynamic(STATIC_DIALED) && Dynamic(DYN_DIALED)
  {}

  lemma NeedSlots(b: Book, peers: map<NodeId, nat>)
    ensures Need(b, peers) + |DynNodes(peers, b.dialing)| <= b.max
  {
    UnionSize(DynIn(peers), DynIn(b.dialing));
  }

  lemma WaitsFacts(hist: seq<PastDial>, now: Time, idle: bool, wait: seq<Task>)
    requires Waits(hist, now, idle, wait)
    ensures wait == [] || (idle && |wait| == 1 && wait[0].WaitExpire?)
  {}

  lemma TasksFree(b: Book, fixed: seq<NodeId>, p: Picks, wait: seq<Task>, tasks: seq<Task>)
    requires tasks == Others(b, fixed, p) + wait && (wait == [] || (|wait| == 1 && wait[0].WaitExpire?))
    ensures forall t :: t in tasks && t.Dial? ==> t.dest in fixed || t.dest in p.nodes
  {}

  /** Slots never stay open without a lookup on its way. */
  lemma {:induction false} Fills(b: Book, peers: map<NodeId, nat>, now: Time, running: nat, random: seq<NodeId>,
              fixed: seq<NodeId>, wait: seq<Task>, c: Book, tasks: seq<Task>)
    requires Planned(b, peers, now, running, random, fixed, wait, c, tasks)
    ensures c.looking || |DynIn(peers)| + |DynIn(c.dialing)| >= c.max
  {
    hide *;
    PlannedFacts(b, peers, now, running, random, fixed, wait, c, tasks);
    var p := Chosen(b, peers, c.hist, fixed, now, random);
    FixedFacts(b, peers, c.hist, fixed);
    ChosenFacts(b, peers, c.hist, fixed, now, random);
    MarkKeys(b.dialing, fixed, STATIC_DIALED);
    DynMark(b.dialing, fixed, STATIC_DIALED);
    DynMark(Mark(b.dialing, fixed, STATIC_DIALED), p.nodes, DYN_DIALED);
    NotDynamic();
    NeedIs(b, peers, now);
  }

  lemma {:induction false} DynMark(m: map<NodeId, nat>, ns: seq<NodeId>, flags: nat)
    requires NoDup(ns) && forall n :: n in ns ==> n !in m
    ensures |DynIn(Mark(m, ns, flags))| == |DynIn(m)| + if Dynamic(flags) then |ns| else 0
    decreases |ns|
  {
    hide Dynamic, Mark, DynIn;
    if ns == [] {
      MarkNone(m, flags);
    } else {
      var ns', n := ns[..|ns| - 1], ns[|ns| - 1];
      assert ns == ns' + [n] && n in ns && n !in ns';
      assert forall k :: k in ns' ==> k in ns;
      DynMark(m, ns', flags);
      MarkStep(m, ns', flags, n);
      MarkKeys(m, ns', flags);
      DynOne(Mark(m, ns', flags), n, flags);
    }
  }

  lemma DynOne(m: map<NodeId, nat>, n: NodeId, flags: nat)
    requires n !in m
    ensures |DynIn(m[n := flags])| == |DynIn(m)| + if Dynamic(flags) then 1 else 0
  {
    hide Dynamic;
    assert DynIn(m[n := flags]) == if Dynamic(flags) then DynIn(m) + {n} else DynIn(m);
  }

  // ----- the loop -----

  /**
   Everything that holds between two rounds: of the outstanding tasks, of the tasks
   ever created, and of the past, in which no node was dialed again too early.
   */
  ghost predicate Sound(b: Book, peers: map<NodeId, nat>, out: seq<Task>,
                        created: multiset<Task>, finished: multiset<Task>, log: seq<Entry>)
  {
    && Steady(b.max, b.dialing, b.looking, b.hist, peers, out)
    && StaticOk(b.statics)
    && created == multiset(out) + finished
    && Spaced(log) && Remembered(log, b.hist)
  }

  lemma SoundIs(b: Book, peers: map<NodeId, nat>, out: seq<Task>,
                created: multiset<Task>, finished: multiset<Task>, log: seq<Entry>)
    ensures Sound(b, peers, out, created, finished, log) <==>
            && Steady(b.max, b.dialing, b.looking, b.hist, peers, out)
            && StaticOk(b.statics)
            && created == multiset(out) + finished
            && Spaced(log) && Remembered(log, b.hist)
  {}

  lemma RoundKeeps(b: Book, peers: map<NodeId, nat>, now: Time, out: seq<Task>, random: seq<NodeId>,
                   fixed: seq<NodeId>, wait: seq<Task>, c: Book, tasks: seq<Task>,
                   created: multiset<Task>, finished: multiset<Task>, log: seq<Entry>)
    requires Planned(b, peers, now, |out|, random, fixed, wait, c, tasks)
    requires Sound(b, peers, out, created, finished, log)
    ensures Sound(c, peers, out + tasks, created + multiset(tasks), finished, log + [Tick(now)] + Starts(tasks))
  {
    hide *;
    SoundIs(b, peers, out, created, finished, log);
    PlannedFacts(b, peers, now, |out|, random, fixed, wait, c, tasks);
    PlannedKeeps(b, peers, now, out, random, fixed, wait, c, tasks);
    LogTick(log, b.hist, c.hist, now);
    LogStarts(log + [Tick(now)], c.hist, tasks);
    SoundIs(c, peers, out + tasks, created + multiset(tasks), finished, log + [Tick(now)] + Starts(tasks));
  }

  function Ended(t: Task, now: Time): seq<Entry>
  {
    if t.Dial? then [Completed(t.dest, now)] else []
  }

  /** What taskDone makes of the dial state. */
  function AfterDone(b: Book, t: Task, now: Time, results: seq<NodeId>): Book
  {
    match t
    case Dial(_, n) => b.(hist := b.hist + [PastDial(n, now + HISTORY_EXPIRATION)], dialing := b.dialing - {n})
    case Discover => b.(looking := false, buf := b.buf + results)
    case WaitExpire(_) => b
  }

  lemma DoneKeeps(b: Book, peers: map<NodeId, nat>, out: seq<Task>, i: nat, now: Time, results: seq<NodeId>,
                  created: multiset<Task>, finished: multiset<Task>, log: seq<Entry>)
    requires Sound(b, peers, out, created, finished, log) && i < |out|
    ensures Sound(AfterDone(b, out[i], now, results), peers, Without(out, i), created, finished + multiset{out[i]},
                  log + Ended(out[i], now))
  {
    hide Steady, StaticOk, Spaced, Remembered, Without;
    WithoutCount(out, i);
    match out[i]
    case Dial(_, n) =>
      DialDoneKeeps(b.max, b.dialing, b.looking, b.hist, peers, out, i, now + HISTORY_EXPIRATION);
      LogStep(log, Completed(n, now), b.hist, b.hist + [PastDial(n, now + HISTORY_EXPIRATION)]);
    case Discover =>
      DiscoverDoneKeeps(b.max, b.dialing, b.looking, b.hist, peers, out, i);
      assert log + [] == log;
    case WaitExpire(_) =>
      WaitDoneKeeps(b.max, b.dialing, b.looking, b.hist, peers, out, i);
      assert log + [] == log;
  }

  lemma UnpinSound(b: Book, c: Book, peers: map<NodeId, nat>, out: seq<Task>, n: NodeId,
                   created: multiset<Task>, finished: multiset<Task>, log: seq<Entry>)
    requires Sound(b, peers, out, created, finished, log)
    requires c == b.(statics := b.statics - {n}, hist := c.hist)
    requires n !in Ids(b.hist) ==> c.hist == b.hist
    requires n in Ids(b.hist) ==> exists i :: 0 <= i < |b.hist| && b.hist[i].id == n && c.hist == Without(b.hist, i)
    ensures Sound(c, peers, out, created, finished, log + [Removed(n)])
    ensures n !in Ids(c.hist)
  {
    hide Steady, Spaced, Remembered, Ids, Without, Unique;
    if n in Ids(b.hist) {
      var i :| 0 <= i < |b.hist| && b.hist[i].id == n && c.hist == Without(b.hist, i);
      UnpinKeeps(b.max, b.dialing, b.looking, b.hist, c.hist, i, peers, out);
      SteadyUnique(b, peers, out);
      RemovedMembers(b.hist, i);
      LogStep(log, Removed(n), b.hist, c.hist);
    } else {
      LogStep(log, Removed(n), b.hist, c.hist);
    }
  }

  lemma SteadyUnique(b: Book, peers: map<NodeId, nat>, out: seq<Task>)
    requires Steady(b.max, b.dialing, b.looking, b.hist, peers, out)
    ensures Unique(b.hist) && NoDup(out)
  {}

  class Server {
    const dial: DialState
    const self: NodeId
    var peers: map<NodeId, nat>
    var running: seq<Task>
    var queued: seq<Task>

    ghost var created: multiset<Task>
    ghost var finished: multiset<Task>
    ghost var log: seq<Entry>

    ghost predicate Valid()
      reads this, dial
    {
      Sound(dial.Now(), peers, running + queued, created, finished, log) && |running| <= MAX_ACTIVE
    }

    constructor (dial: DialState, self: NodeId)
      requires StaticOk(dial.statics) && dial.dialing == map[] && dial.hist == [] && !dial.lookupRunning
      ensures this.dial == dial && this.self == self && Valid()
      ensures peers == map[] && running == [] && queued == [] && created == multiset{} && log == []
    {
      this.dial, this.self := dial, self;
      peers, running, queued := map[], [], [];
      created, finished, log := multiset{}, multiset{}, [];
      new;
      NoTasks(dial.Now());
    }

    /** startTasks: starts as many as there is room for. */
    method StartTasks(ts: seq<Task>) returns (rest: seq<Task>)
      requires |running| <= MAX_ACTIVE
      modifies this`running
      ensures |running| <= MAX_ACTIVE && running + rest == old(running) + ts
      ensures |running| == MAX_ACTIVE || rest == []
      ensures old(running) <= running
    {
      var i := 0;
      while |running| < MAX_ACTIVE && i < |ts|
        invariant 0 <= i <= |ts| && |running| <= MAX_ACTIVE && running == old(running) + ts[..i]
      {
        assert ts[..i + 1] == ts[..i] + [ts[i]];
        running := running + [ts[i]];
        i := i + 1;
      }
      rest := ts[i..];
      assert ts == ts[..i] + ts[i..];
    }

    /** scheduleTasks: waiting tasks first, then, if there is room, a round of planning. */
    method ScheduleTasks(now: Time, random: seq<NodeId>) returns (tasks: seq<Task>)
      requires Valid()
      modifies this`running, this`queued, this`created, this`log, dial
      ensures Valid() && created == old(created) + multiset(tasks) && old(log) <= log
      ensures running + queued == old(running + queued) + tasks
      ensures |old(running + queued)| >= MAX_ACTIVE ==> tasks == [] && dial.Now() == old(dial.Now())
      ensures |running| == MAX_ACTIVE || queued == []
      ensures |running| < MAX_ACTIVE ==>
                dial.lookupRunning || |DynIn(peers)| + |DynIn(dial.dialing)| >= dial.maxDynDials
    {
      hide *;
      ServerIs(this);
      ghost var b, out := dial.Now(), running + queued;
      SoundIs(b, peers, out, created, finished, log);
      NowIs(dial);
      queued := StartTasks(queued);
      tasks := [];
      assert out + [] == out;
      if |running| < MAX_ACTIVE {
        ghost var fixed, wait;
        assert running + [] == running;
        tasks, fixed, wait := dial.NewTasks(|running| + |queued|, peers, now, random);
        ghost var c := dial.Now();
        NowIs(dial);
        assert queued == [] && running == out;
        var rest := StartTasks(tasks);
        queued := queued + rest;
        assert queued == rest && running + queued == out + tasks;
        RoundKeeps(b, peers, now, out, random, fixed, wait, c, tasks, created, finished, log);
        Fills(b, peers, now, |out|, random, fixed, wait, c, tasks);
        log := log + [Tick(now)] + Starts(tasks);
        created := created + multiset(tasks);
        NowIs(dial);
        assert dial.Now() == c;
      }
      ServerIs(this);
    }

    method DelTask(t: Task)
      modifies this`running
      ensures t !in old(running) ==> running == old(running)
      ensures t in old(running) ==>
                exists i :: 0 <= i < |old(running)| && old(running)[i] == t && running == Without(old(running), i)
    {
      for i := 0 to |running|
        invariant running == old(running) && forall j :: 0 <= j < i ==> running[j] != t
      {
        if running[i] == t {
          running := running[..i] + running[i + 1..];
          return;
        }
      }
    }

    /** A task that was running reports that it is done. */
    method TaskDone(t: Task, now: Time, results: seq<NodeId>)
      requires Valid() && t in running
      modifies this`running, this`finished, this`log, dial
      ensures Valid() && t !in running + queued && finished == old(finished) + multiset{t}
      ensures dial.Now() == AfterDone(old(dial.Now()), t, now, results) && log == old(log) + Ended(t, now)
    {
      hide *;
      ServerIs(this);
      ghost var b, out := dial.Now(), running + queued;
      SoundIs(b, peers, out, created, finished, log);
      SteadyUnique(b, peers, out);
      NowIs(dial);
      dial.TaskDone(t, now, results);
      NowIs(dial);
      AfterDoneIs(b, t, now, results);
      DelTask(t);
      ghost var i :| 0 <= i < |old(running)| && old(running)[i] == t && running == Without(old(running), i);
      assert out[i] == t;
      WithoutFront(old(running), queued, i);
      DoneKeeps(b, peers, out, i, now, results, created, finished, log);
      NoDupWithout(out, i);
      finished := finished + multiset{t};
      log := log + Ended(t, now);
      NowIs(dial);
      assert dial.Now() == AfterDone(b, t, now, results);
      assert running + queued == Without(out, i);
      ServerIs(this);
    }

    /**
     A connection that has passed its handshakes becomes a peer, unless the node is
     one already or is this one. A dynamic connection is set up by its dial task, so
     that task is still running.
     */
    method AddPeer(n: NodeId, flags: nat) returns (ok: bool)
      requires Valid() && (Dynamic(flags) ==> Dial(flags, n) in running)
      modifies this`peers
      ensures Valid() && ok == (n !in old(peers) && n != self)
      ensures peers == if ok then old(peers)[n := flags] else old(peers)
    {
      hide *;
      if n in peers || n == self { return false; }
      ServerIs(this);
      ghost var b, out := dial.Now(), running + queued;
      SoundIs(b, peers, out, created, finished, log);
      JoinKeeps(b.max, b.dialing, b.looking, b.hist, peers, out, n, flags);
      peers := peers[n := flags];
      SoundIs(b, peers, out, created, finished, log);
      ServerIs(this);
      return true;
    }

    method AddStatic(n: NodeId)
      requires Valid()
      modifies dial
      ensures Valid() && dial.Now() == old(dial.Now()).(statics := old(dial.statics)[n := Dial(STATIC_DIALED, n)])
    {
      hide Steady, Spaced, Remembered;
      dial.AddStatic(n);
    }

    method RemoveStatic(n: NodeId)
      requires Valid()
      modifies this`log, dial
      ensures Valid() && dial.statics == old(dial.statics) - {n} && n !in Ids(dial.hist) &&
              log == old(log) + [Removed(n)]
    {
      hide *;
      ServerIs(this);
      ghost var b := dial.Now();
      NowIs(dial);
      dial.RemoveStatic(n);
      NowIs(dial);
      UnpinSound(b, dial.Now(), peers, running + queued, n, created, finished, log);
      log := log + [Removed(n)];
      ServerIs(this);
    }
  }

  lemma NoTasks(b: Book)
    requires StaticOk(b.statics) && b.dialing == map[] && b.hist == [] && !b.looking
    ensures Sound(b, map[], [], multiset{}, multiset{}, [])
  {
    assert DynNodes(map[], map[]) == {};
  }

  lemma ServerIs(s: Server)
    ensures s.Valid() <==>
            Sound(s.dial.Now(), s.peers, s.running + s.queued, s.created, s.finished, s.log) && |s.running| <= MAX_ACTIVE
  {}

  lemma AfterDoneIs(b: Book, t: Task, now: Time, results: seq<NodeId>)
    ensures AfterDone(b, t, now, results) ==
            match t
            case Dial(_, n) => b.(hist := b.hist + [PastDial(n, now + HISTORY_EXPIRATION)], dialing := b.dialing - {n})
            case Discover => b.(looking := false, buf := b.buf + results)
            case WaitExpire(_) => b
  {}

  lemma WithoutFront(a: seq<Task>, q: seq<Task>, i: nat)
    requires i < |a|
    ensures Without(a + q, i) == Without(a, i) + q && |Without(a, i)| == |a| - 1
  {}

  // ----- every run -----

  /** What can happen: a task ends, a node joins, a signal without effect, the static list changes. */
  datatype Event =
    | Ends(task: Task, results: seq<NodeId>) | Joins(node: NodeId, flags: nat)
    | Signal | Pin(node: NodeId) | Unpin(node: NodeId)

  /** What a round of planning meets, the event after it, and the time that is handled. */
  datatype Step = Step(planned: Time, random: seq<NodeId>, event: Event, at: Time)

  /** Only running tasks end, and dynamic connections come from running dials. */
  predicate Possible(e: Event, running: seq<Task>)
  {
    match e
    case Ends(t, _) => t in running
    case Joins(n, flags) => Dynamic(flags) ==> Dial(flags, n) in running
    case _ => true
  }

  method Handle(s: Server, step: Step)
    requires s.Valid() && Possible(step.event, s.running)
    modifies s, s.dial
    ensures s.Valid() && old(s.log) <= s.log
  {
    match step.event
    case Ends(t, results) => s.TaskDone(t, step.at, results);
    case Joins(n, flags) => var _ := s.AddPeer(n, flags);
    case Signal =>
    case Pin(n) => s.AddStatic(n);
    case Unpin(n) => s.RemoveStatic(n);
  }

  /** Any run of the loop: rounds and events in turn, whatever happens and in whatever order. */
  method Run(s: Server, steps: seq<Step>) returns (done: nat)
    requires s.Valid()
    modifies s, s.dial
    ensures s.Valid() && old(s.log) <= s.log
    ensures done == |steps| || (done < |steps| && !Possible(steps[done].event, s.running))
  {
    hide *;
    done := 0;
    while done < |steps|
      invariant 0 <= done <= |steps| && s.Valid() && old(s.log) <= s.log
    {
      var _ := s.ScheduleTasks(steps[done].planned, steps[done].random);
      if !Possible(steps[done].event, s.running) { return; }
      Handle(s, steps[done]);
      done := done + 1;
    }
  }

  /** What that means, claim by claim. */
  lemma Safety(b: Book, peers: map<NodeId, nat>, running: seq<Task>, queued: seq<Task>,
               created: multiset<Task>, finished: multiset<Task>, log: seq<Entry>)
    requires Sound(b, peers, running + queued, created, finished, log)
    ensures |DynIn(peers) + DynIn(b.dialing)| <= b.max
    ensures var out := running + queued;
            forall i, j :: 0 <= i < j < |out| && out[i].Dial? && out[j].Dial? ==> out[i].dest != out[j].dest
    ensures forall t :: created[t] == multiset(queued)[t] + multiset(running)[t] + finished[t]
    ensures forall t :: multiset(queued)[t] + multiset(running)[t] <= 1
    ensures b.looking <==> multiset(queued)[Discover] + multiset(running)[Discover] == 1
    ensures forall i, j :: 0 <= i < j < |log| && log[i].Completed? && log[j] == Started(log[i].node) ==>
                             exists k :: i < k < j && Frees(log[k], log[i])
  {
    hide DynNodes, Remembered, Unique;
    var out := running + queued;
    forall i, j | 0 <= i < j < |out| && out[i].Dial? && out[j].Dial? ensures out[i].dest != out[j].dest {
      assert out[i] in out && out[j] in out;
    }
    assert multiset(out) == multiset(queued) + multiset(running);
    forall t ensures multiset(out)[t] <= 1 && (multiset(out)[t] == 1 <==> t in out) {
      CountOnce(out, t);
    }
    DynNodesIs(peers, b.dialing);
    forall i, j | 0 <= i < j < |log| && log[i].Completed? && log[j] == Started(log[i].node)
      ensures exists k :: i < k < j && Frees(log[k], log[i])
    {
      assert Excused(log, i, j);
    }
  }

  lemma DynNodesIs(peers: map<NodeId, nat>, dialing: map<NodeId, nat>)
    ensures DynNodes(peers, dialing) == DynIn(peers) + DynIn(dialing)
  {}

  lemma {:induction false} CountOnce(out: seq<Task>, t: Task)
    requires NoDup(out)
    ensures multiset(out)[t] == if t in out then 1 else 0
  {
    if out != [] {
      var o := out[..|out| - 1];
      assert out == o + [out[|out| - 1]];
      CountOnce(o, t);
      assert out[|out| - 1] !in o;
    }
  }
}
