/**
 The StateDB with its journal and snapshots (core/state/statedb.go, journal.go).
 Every change appends an entry that can undo it; reverting to a snapshot restores
 everything observable, for every interleaving of changes, snapshots and reverts.
 */
module StateDB {
  import opened Bytes
  import opened StateWorld

  datatype Revision = Revision(id: nat, journalIndex: nat)

  /** The journal and the snapshots taken. */
  datatype Log = Log(entries: seq<Entry>, dirties: map<Address, nat>, revisions: seq<Revision>, nextId: nat)

  /**
   For the proof: the states before each entry and now, the state at each snapshot,
   marks in dirties that are never taken back, and how many snapshots are older than
   the last Finalise.
   */
  datatype Trace = Trace(past: seq<World>, saved: map<nat, World>, extra: multiset<Address>, base: nat)

  // ----- the journal -----

  /** Undoing the entries from the last one on leads through the past states. */
  ghost predicate History(out: Outside, past: seq<World>, entries: seq<Entry>, w: World)
  {
    && |past| == |entries| + 1 && Same(out, w, past[|entries|])
    && forall i :: 0 <= i < |entries| ==> Steps(out, past[i], entries[i], past[i + 1])
  }

  lemma HistoryRecord(out: Outside, past: seq<World>, entries: seq<Entry>, w: World, e: Entry, w': World)
    requires History(out, past, entries, w) && Steps(out, w, e, w')
    ensures History(out, past + [w'], entries + [e], w')
  {
    hide Same, Undo, Fits;
    var n, more, longer := |entries|, past + [w'], entries + [e];
    SameTrans(out, Undo(w', e), w, past[n]);
    SameRefl(out, w');
    forall i | 0 <= i < |longer| ensures Steps(out, more[i], longer[i], more[i + 1]) {
      if i < n { assert Steps(out, past[i], entries[i], past[i + 1]); }
    }
  }

  /** Reading only fills caches. */
  lemma HistoryRead(out: Outside, past: seq<World>, entries: seq<Entry>, w: World, w': World)
    requires History(out, past, entries, w) && Same(out, w', w)
    ensures History(out, past, entries, w')
  {
    hide Same, Steps;
    SameTrans(out, w', w, past[|entries|]);
  }

  lemma HistoryBack(out: Outside, past: seq<World>, entries: seq<Entry>, w: World)
    requires History(out, past, entries, w) && entries != []
    ensures var n, e := |entries| - 1, entries[|entries| - 1];
            Fits(w, e) && History(out, past[..n + 1], entries[..n], Undo(w, e))
  {
    hide Same, Undo, Fits;
    var n, e := |entries| - 1, entries[|entries| - 1];
    assert Steps(out, past[n], e, past[n + 1]);
    SameSym(out, w, past[n + 1]);
    UndoSame(out, past[n + 1], w, e);
    SameSym(out, Undo(past[n + 1], e), Undo(w, e));
    SameTrans(out, Undo(w, e), Undo(past[n + 1], e), past[n]);
    var fewer, shorter := past[..n + 1], entries[..n];
    forall i | 0 <= i < |shorter| ensures Steps(out, fewer[i], shorter[i], fewer[i + 1]) {
      assert Steps(out, past[i], entries[i], past[i + 1]);
    }
  }

  lemma SameSym(out: Outside, v: World, w: World)
    requires Same(out, v, w)
    ensures Same(out, w, v)
  {
    forall a ensures SameAccount(out, Get(w, a), Get(v, a)) { assert SameAccount(out, Get(v, a), Get(w, a)); }
  }

  /** How many entries mark a as dirty. */
  function DirtyCount(entries: seq<Entry>, a: Address): nat
  {
    if entries == [] then 0
    else
      var n := |entries| - 1;
      DirtyCount(entries[..n], a) + if Dirtied(entries[n]) == Some(a) then 1 else 0
  }

  function Num(dirties: map<Address, nat>, a: Address): nat { if a in dirties then dirties[a] else 0 }

  /** dirties counts the entries, apart from marks never taken back. */
  ghost predicate Counts(entries: seq<Entry>, dirties: map<Address, nat>, extra: multiset<Address>)
  {
    forall a :: (a in dirties ==> dirties[a] > 0) && Num(dirties, a) == DirtyCount(entries, a) + extra[a]
  }

  function Mark(dirties: map<Address, nat>, e: Entry): map<Address, nat>
  {
    match Dirtied(e)
    case None => dirties
    case Some(a) => dirties[a := Num(dirties, a) + 1]
  }

  /** One mark less; the last one is removed. */
  function Unmark(dirties: map<Address, nat>, e: Entry): map<Address, nat>
  {
    match Dirtied(e)
    case None => dirties
    case Some(a) => if Num(dirties, a) <= 1 then dirties - {a} else dirties[a := dirties[a] - 1]
  }

  lemma CountsMark(entries: seq<Entry>, dirties: map<Address, nat>, extra: multiset<Address>, e: Entry)
    requires Counts(entries, dirties, extra)
    ensures Counts(entries + [e], Mark(dirties, e), extra)
  {
    var more := entries + [e];
    assert more[..|entries|] == entries;
    forall a
      ensures (a in Mark(dirties, e) ==> Mark(dirties, e)[a] > 0)
              && Num(Mark(dirties, e), a) == DirtyCount(more, a) + extra[a]
    {
      assert Num(dirties, a) == DirtyCount(entries, a) + extra[a];
    }
  }

  lemma CountsUnmark(entries: seq<Entry>, dirties: map<Address, nat>, extra: multiset<Address>)
    requires Counts(entries, dirties, extra) && entries != []
    ensures Counts(entries[..|entries| - 1], Unmark(dirties, entries[|entries| - 1]), extra)
  {
    var n, e := |entries| - 1, entries[|entries| - 1];
    forall a ensures (a in Unmark(dirties, e) ==> Unmark(dirties, e)[a] > 0)
                     && Num(Unmark(dirties, e), a) == DirtyCount(entries[..n], a) + extra[a]
    {
      assert Num(dirties, a) == DirtyCount(entries, a) + extra[a];
    }
  }

  /** An address whose object is deleted is not dirty. */
  ghost predicate LiveDirty(w: World, dirties: map<Address, nat>)
  {
    forall a :: a in w.objects && w.objects[a].deleted ==> a !in dirties
  }

  // ----- snapshots -----

  /** Snapshots are sorted by id, and those since the last Finalise also by journal index. */
  ghost predicate Sorted(rs: seq<Revision>, nextId: nat, base: nat, length: nat)
  {
    && base <= |rs|
    && (forall i, j :: 0 <= i < j < |rs| ==> rs[i].id < rs[j].id)
    && (forall i :: 0 <= i < |rs| ==> rs[i].id < nextId)
    && (forall i, j :: base <= i <= j < |rs| ==> rs[i].journalIndex <= rs[j].journalIndex)
    && (forall i :: base <= i < |rs| ==> rs[i].journalIndex <= length)
  }

  /** The state at each snapshot is the one before the entry at its journal index. */
  ghost predicate Saves(out: Outside, rs: seq<Revision>, t: Trace)
  {
    forall i :: t.base <= i < |rs| ==>
      rs[i].id in t.saved && rs[i].journalIndex < |t.past| && Same(out, t.past[rs[i].journalIndex], t.saved[rs[i].id])
  }

  /** What every operation keeps. */
  ghost predicate Good(out: Outside, w: World, log: Log, t: Trace)
  {
    && Sane(w) && LiveDirty(w, log.dirties)
    && History(out, t.past, log.entries, w) && Counts(log.entries, log.dirties, t.extra)
    && Sorted(log.revisions, log.nextId, t.base, |log.entries|) && Saves(out, log.revisions, t)
  }

  function Appended(log: Log, e: Entry): Log
  {
    log.(entries := log.entries + [e], dirties := Mark(log.dirties, e))
  }

  /** A step does not bring back deleted objects, and what it marks as dirty is live. */
  ghost predicate Alive(w: World, e: Entry, w': World)
  {
    && Sane(w')
    && (forall a :: a in w'.objects && w'.objects[a].deleted ==> a in w.objects && w.objects[a].deleted)
    && (Dirtied(e).Some? && Dirtied(e).value in w'.objects ==> !w'.objects[Dirtied(e).value].deleted)
  }

  lemma GoodRecord(out: Outside, w: World, log: Log, t: Trace, e: Entry, w': World)
    requires Good(out, w, log, t) && Steps(out, w, e, w') && Alive(w, e, w')
    ensures Good(out, w', Appended(log, e), t.(past := t.past + [w']))
  {
    hide Steps, Same, Counts, DirtyCount;
    HistoryRecord(out, t.past, log.entries, w, e, w');
    CountsMark(log.entries, log.dirties, t.extra, e);
  }

  lemma GoodRead(out: Outside, w: World, log: Log, t: Trace, w': World)
    requires Good(out, w, log, t) && Same(out, w', w) && Sane(w')
    requires forall a :: a in w'.objects && w'.objects[a].deleted ==> a in w.objects && w.objects[a].deleted
    ensures Good(out, w', log, t)
  {
    hide Steps, Same, Counts, Sorted, Saves;
    HistoryRead(out, t.past, log.entries, w, w');
  }

  // ----- going back -----

  lemma UndoDeleted(w: World, e: Entry)
    requires Fits(w, e) && Sane(w)
    ensures Sane(Undo(w, e))
    ensures forall a :: a in Undo(w, e).objects && Undo(w, e).objects[a].deleted ==>
                a in w.objects && w.objects[a].deleted
    ensures Undo(w, e).accounts == w.accounts
  {
    hide UndoObj;
    match e
    case CreateObject(_) =>
    case RefundChange(_) =>
    case TouchChange(_) =>
    case ResetObject(a, prev) => PutSane(w, a, prev);
    case _ =>
      GetLive(w, e.account);
      GetTidy(w, e.account);
      UndoLive(e, Get(w, e.account).value);
      PutSane(w, e.account, UndoObj(e, Get(w, e.account).value));
  }

  lemma PutSane(w: World, a: Address, o: Obj)
    requires Sane(w) && !o.deleted && Tidy(o)
    ensures Sane(Put(w, a, o)) && Put(w, a, o).accounts == w.accounts
    ensures forall b :: b in Put(w, a, o).objects && Put(w, a, o).objects[b].deleted ==>
                b in w.objects && w.objects[b].deleted
  {
  }

  /** While reverting, everything but the snapshots fits the shortened journal. */
  ghost predicate Reverting(out: Outside, w: World, entries: seq<Entry>, dirties: map<Address, nat>, t: Trace, n: nat)
  {
    && n <= |entries| && |t.past| == |entries| + 1
    && Sane(w) && LiveDirty(w, dirties)
    && History(out, t.past[..n + 1], entries[..n], w) && Counts(entries[..n], dirties, t.extra)
  }

  lemma RevertStep(out: Outside, w: World, entries: seq<Entry>, dirties: map<Address, nat>, t: Trace, n: nat)
    requires n > 0 && Reverting(out, w, entries, dirties, t, n)
    ensures Fits(w, entries[n - 1]) &&
            Reverting(out, Undo(w, entries[n - 1]), entries, Unmark(dirties, entries[n - 1]), t, n - 1)
  {
    hide Fits, Undo, Sane, Steps, Same, DirtyCount;
    var shorter, fewer := entries[..n], t.past[..n + 1];
    HistoryBack(out, fewer, shorter, w);
    CountsUnmark(shorter, dirties, t.extra);
    UndoDeleted(w, entries[n - 1]);
    assert fewer[..n] == t.past[..n] && shorter[..n - 1] == entries[..n - 1];
  }

  lemma RevertStart(out: Outside, w: World, log: Log, t: Trace)
    requires Good(out, w, log, t)
    ensures Reverting(out, w, log.entries, log.dirties, t, |log.entries|)
  {
    hide Sane, Steps, Same, DirtyCount, Counts, LiveDirty, Sorted, Saves;
    assert log.entries[..|log.entries|] == log.entries && t.past[..|log.entries| + 1] == t.past;
  }

  /** The trace after a revert; a snapshot older than the last Finalise takes all later ones with it. */
  function Shortened(t: Trace, k: nat, idx: nat): Trace
  {
    t.(past := if k < |t.past| then t.past[..k + 1] else t.past, base := if idx < t.base then idx else t.base)
  }

  /** Back at snapshot number idx. */
  lemma RevertEnd(out: Outside, w: World, log: Log, t: Trace, dirties: map<Address, nat>, idx: nat)
    requires idx < |log.revisions| && Sorted(log.revisions, log.nextId, t.base, |log.entries|) &&
             Saves(out, log.revisions, t)
    requires var k := log.revisions[idx].journalIndex;
             k <= |log.entries| && Reverting(out, w, log.entries, dirties, t, k)
    ensures var k, id := log.revisions[idx].journalIndex, log.revisions[idx].id;
            && Good(out, w, log.(entries := log.entries[..k], dirties := dirties, revisions := log.revisions[..idx]),
                    Shortened(t, k, idx))
            && k < |t.past| && Same(out, w, t.past[k])
            && (t.base <= idx ==> id in t.saved && Same(out, w, t.saved[id]))
  {
    hide Sane, Steps, Same, DirtyCount, Counts, LiveDirty;
    var k, id := log.revisions[idx].journalIndex, log.revisions[idx].id;
    if t.base <= idx { SameTrans(out, w, t.past[k], t.saved[id]); }
    var rs, past := log.revisions[..idx], t.past[..k + 1];
    forall i | Shortened(t, k, idx).base <= i < |rs|
      ensures rs[i].id in t.saved && rs[i].journalIndex < |past| &&
              Same(out, past[rs[i].journalIndex], t.saved[rs[i].id])
    {
      assert rs[i] == log.revisions[i];
    }
  }

  // ----- what operations do -----

  /** GetOrNewStateObject */
  function OrNew(out: Outside, w: World, a: Address): Obj
  {
    var o := Get(w, a);
    if o.Some? then o.value else Blank(out)
  }

  /** Nothing but the account at a has changed, and that one now looks like o. */
  ghost predicate Changed(out: Outside, v: World, w: World, a: Address, o: Obj)
  {
    OnlyAt(out, v, w, a) && Get(w, a).Some? && SameObj(out, Get(w, a).value, o)
  }

  class StateDB {
    const out: Outside
    var world: World
    var log: Log
    ghost var trace: Trace

    ghost predicate Valid()
      reads this
    {
      Good(out, world, log, trace)
    }

    /** New: on an account trie. */
    constructor (out: Outside, accounts: map<Address, Account>)
      ensures Valid() && this.out == out && world == World(accounts, map[], 0) && log.revisions == [] && fresh(this)
    {
      this.out := out;
      world, log := World(accounts, map[], 0), Log([], map[], [], 0);
      trace := Trace([World(accounts, map[], 0)], map[], multiset{}, 0);
      SameRefl(out, World(accounts, map[], 0));
    }

    /** journal.append, together with the change it records. */
    method Record(e: Entry, next: World)
      requires Valid() && Steps(out, world, e, next) && Alive(world, e, next)
      modifies this
      ensures Valid() && world == next && log == Appended(old(log), e)
      ensures trace == old(trace).(past := old(trace).past + [next])
    {
      hide Good, Steps, Alive;
      GoodRecord(out, world, log, trace, e, next);
      world, log := next, Appended(log, e);
      trace := trace.(past := trace.past + [next]);
    }

    /** Snapshot */
    method Snapshot() returns (id: nat)
      requires Valid()
      modifies this`log, this`trace
      ensures Valid() && id == old(log).nextId && id in trace.saved && trace.saved[id] == world
      ensures log == old(log).(nextId := id + 1, revisions := old(log).revisions + [Revision(id, |log.entries|)])
      ensures trace == old(trace).(saved := old(trace).saved[id := world])
    {
      hide Good, Same;
      id := log.nextId;
      SnapshotGood(out, world, log, trace);
      log := log.(nextId := id + 1, revisions := log.revisions + [Revision(id, |log.entries|)]);
      trace := trace.(saved := trace.saved[id := world]);
    }

    /**
     RevertToSnapshot: for a snapshot taken since the last Finalise, everything observable
     is as it was then. For an older one, whose index belongs to a journal that is gone,
     as many entries of the present journal are kept as the old one had. The source panics
     if there is no such snapshot, or no such index.
     */
    method RevertToSnapshot(id: nat) returns (ok: bool)
      requires Valid()
      modifies this
      ensures Valid()
      ensures ok <==> exists i :: 0 <= i < |old(log).revisions| && old(log).revisions[i].id == id
                                  && old(log).revisions[i].journalIndex <= |old(log).entries|
      ensures !ok ==> world == old(world) && log == old(log) && trace == old(trace)
      ensures ok ==>
                trace.saved == old(trace).saved && log.nextId == old(log).nextId && world.accounts == old(world).accounts
      ensures ok ==> |log.revisions| < |old(log).revisions| && log.revisions == old(log).revisions[..|log.revisions|]
      ensures ok ==> var r := old(log).revisions[|log.revisions|];
                     && r.id == id && r.journalIndex <= |old(log).entries|
                     && log.entries == old(log).entries[..r.journalIndex]
                     && r.journalIndex < |old(trace).past| && Same(out, world, old(trace).past[r.journalIndex])
      ensures ok && old(trace).base <= |log.revisions| ==>
                id in old(trace).saved && Same(out, world, old(trace).saved[id]) && trace.base == old(trace).base
    {
      hide Good, Same, Reverting, History, Sane, LiveDirty, Counts, Saves;
      GoodSorted(out, world, log, trace);
      var idx := Search(log.revisions, id);
      if idx == |log.revisions| || log.revisions[idx].id != id { return false; }
      var k := log.revisions[idx].journalIndex;
      if k > |log.entries| { return false; }
      var w, dirties := UndoAll(out, world, log, k, trace);
      RevertEnd(out, w, log, trace, dirties, idx);
      world, log := w, log.(entries := log.entries[..k], dirties := dirties, revisions := log.revisions[..idx]);
      trace := Shortened(trace, k, idx);
      return true;
    }

    // ----- reading -----

    /** getStateObject: a loaded object is kept in the cache. */
    method Load(a: Address) returns (o: Option<Obj>)
      requires Valid()
      modifies this`world
      ensures Valid() && Same(out, world, old(world)) && o == Get(world, a) == Get(old(world), a)
      ensures o.None? ==> world == old(world)
    {
      hide Good, Same, History, Counts, Sorted, Saves, LiveDirty;
      o := Get(world, a);
      SameRefl(out, world);
      if o.Some? && a !in world.objects {
        GoodSane(out, world, log, trace);
        LoadSame(out, world, a);
        GoodRead(out, world, log, trace, Put(world, a, o.value));
        world := Put(world, a, o.value);
      }
    }

    /** Exist */
    method Exist(a: Address) returns (b: bool)
      requires Valid()
      modifies this`world
      ensures Valid() && Same(out, world, old(world)) && (b <==> Get(old(world), a).Some?)
    {
      var o := Load(a);
      return o.Some?;
    }

    /** GetBalance */
    method GetBalance(a: Address) returns (b: int)
      requires Valid()
      modifies this`world
      ensures Valid() && Same(out, world, old(world)) && b == OrNew(out, old(world), a).balance
    {
      var o := Load(a);
      return if o.Some? then o.value.balance else 0;
    }

    /** HasSuicided */
    method HasSuicided(a: Address) returns (b: bool)
      requires Valid()
      modifies this`world
      ensures Valid() && Same(out, world, old(world)) && (b <==> OrNew(out, old(world), a).suicided)
    {
      var o := Load(a);
      return o.Some? && o.value.suicided;
    }

    /** GetCode: the code read is cached as well. */
    method GetCode(a: Address) returns (code: Code)
      requires Valid()
      modifies this`world
      ensures Valid() && Same(out, world, old(world))
      ensures code == if Get(old(world), a).Some? then CodeBytes(out, Get(old(world), a).value) else []
    {
      hide Good, Same;
      var o := Load(a);
      if o.None? { return []; }
      code := CodeBytes(out, o.value);
      CodeRead(out, world, log, trace, a);
      SameTrans(out, Put(world, a, o.value.(code := CodeOf(out, o.value))), world, old(world));
      world := Put(world, a, o.value.(code := CodeOf(out, o.value)));
    }

    /** GetState: the value read is cached as well. */
    method GetState(a: Address, key: Word) returns (v: Word)
      requires Valid()
      modifies this`world
      ensures Valid() && Same(out, world, old(world)) && v == StateOf(OrNew(out, old(world), a), key)
    {
      hide Good, Same;
      var o := Load(a);
      if o.None? { return 0; }
      v := StateOf(o.value, key);
      CacheRead(out, world, log, trace, a, key);
      SameTrans(out, Put(world, a, Cache(o.value, key)), world, old(world));
      world := Put(world, a, Cache(o.value, key));
    }

    // ----- changing -----

    /** createObject for an address without account. */
    method Create(a: Address)
      requires Valid() && Get(world, a).None?
      modifies this
      ensures Valid() && Get(world, a) == Some(Blank(out)) && OnlyAt(out, old(world), world, a)
      ensures Kept(old(log), log, old(trace), trace)
    {
      hide Good, Steps;
      GoodSane(out, world, log, trace);
      StepCreate(out, world, a);
      PutOnly(out, world, a, Blank(out));
      Record(CreateObject(a), Put(world, a, Blank(out)));
    }

    /** GetOrNewStateObject */
    method GetOrNew(a: Address) returns (o: Obj)
      requires Valid()
      modifies this
      ensures Valid() && Get(world, a) == Some(o) && o == OrNew(out, old(world), a)
      ensures OnlyAt(out, old(world), world, a) && Kept(old(log), log, old(trace), trace)
    {
      hide Good, Same, Steps;
      var r := Load(a);
      if r.None? {
        Create(a);
        return Blank(out);
      }
      SameOnly(out, old(world), world, a);
      return r.value;
    }

    /** A change of a live object together with the entry that undoes it. */
    method Change(a: Address, o: Obj, e: Entry)
      requires Valid() && Get(world, a).Some? && !o.deleted && Tidy(o) && Changes(e, a)
      requires e.ResetObject? ==> e.prev == Get(world, a).value
      requires SameObj(out, UndoObj(e, o), Get(world, a).value)
      modifies this
      ensures Valid() && Get(world, a) == Some(o) && OnlyAt(out, old(world), world, a) &&
              Kept(old(log), log, old(trace), trace)
    {
      hide Good, Steps, SameObj, UndoObj;
      GoodSane(out, world, log, trace);
      StepObj(out, world, a, o, e);
      PutOnly(out, world, a, o);
      Record(e, Put(world, a, o));
    }

    /** SetNonce */
    method SetNonce(a: Address, nonce: nat)
      requires Valid()
      modifies this
      ensures Valid() && Kept(old(log), log, old(trace), trace)
      ensures Changed(out, old(world), world, a, OrNew(out, old(world), a).(nonce := nonce))
    {
      hide Good;
      var o := GetOrNew(a);
      Usable(out, world, log, trace, a);
      ghost var mid := world;
      Change(a, o.(nonce := nonce), NonceChange(a, o.nonce));
      OnlyTwice(out, old(world), mid, world, a);
    }

    /** SetBalance */
    method SetBalance(a: Address, balance: int)
      requires Valid()
      modifies this
      ensures Valid() && Kept(old(log), log, old(trace), trace)
      ensures Changed(out, old(world), world, a, OrNew(out, old(world), a).(balance := balance))
    {
      hide Good;
      var o := GetOrNew(a);
      Usable(out, world, log, trace, a);
      ghost var mid := world;
      Change(a, o.(balance := balance), BalanceChange(a, o.balance));
      OnlyTwice(out, old(world), mid, world, a);
    }

    /** AddBalance: adding nothing to an empty account touches it. */
    method AddBalance(a: Address, amount: int)
      requires Valid()
      modifies this
      ensures Valid() && Kept(old(log), log, old(trace), trace)
      ensures Changed(out, old(world), world, a,
                      OrNew(out, old(world), a).(balance := OrNew(out, old(world), a).balance + amount))
    {
      hide Good;
      var o := GetOrNew(a);
      Usable(out, world, log, trace, a);
      ghost var mid, before := world, log;
      if amount == 0 {
        SameSelf(out, o);
        if IsEmpty(out, o) { Touch(a); }
      } else {
        Change(a, o.(balance := o.balance + amount), BalanceChange(a, o.balance));
        OnlyTwice(out, old(world), mid, world, a);
      }
    }

    /** SubBalance */
    method SubBalance(a: Address, amount: int)
      requires Valid()
      modifies this
      ensures Valid() && Kept(old(log), log, old(trace), trace)
      ensures Changed(out, old(world), world, a,
                      OrNew(out, old(world), a).(balance := OrNew(out, old(world), a).balance - amount))
    {
      hide Good;
      var o := GetOrNew(a);
      Usable(out, world, log, trace, a);
      ghost var mid := world;
      if amount == 0 {
        SameSelf(out, o);
      } else {
        Change(a, o.(balance := o.balance - amount), BalanceChange(a, o.balance));
        OnlyTwice(out, old(world), mid, world, a);
      }
    }

    /** touch */
    method Touch(a: Address)
      requires Valid() && Get(world, a).Some?
      modifies this
      ensures Valid() && world == old(world) && Kept(old(log), log, old(trace), trace)
    {
      hide Good, Steps;
      StepTouch(out, world, a);
      TouchAlive(out, world, log, trace, a);
      Record(TouchChange(a), world);
      if a == RIPEMD {
        ExtraGood(out, world, log, trace, a);
        log := log.(dirties := log.dirties[a := Num(log.dirties, a) + 1]);
        trace := trace.(extra := trace.extra + multiset{a});
      }
    }

    /** SetState */
    method SetStorage(a: Address, key: Word, value: Word)
      requires Valid()
      modifies this
      ensures Valid() && Kept(old(log), log, old(trace), trace)
      ensures Changed(out, old(world), world, a, SetState(OrNew(out, old(world), a), key, value))
    {
      hide Good;
      var o := GetOrNew(a);
      Usable(out, world, log, trace, a);
      ghost var mid := world;
      StorageUndone(out, o, a, key, value);
      Change(a, SetState(o, key, value), StorageChange(a, key, StateOf(o, key)));
      OnlyTwice(out, old(world), mid, world, a);
      SameSelf(out, SetState(o, key, value));
    }

    /** SetCode */
    method SetCode(a: Address, code: Code)
      requires Valid()
      modifies this
      ensures Valid() && Kept(old(log), log, old(trace), trace)
      ensures Changed(out, old(world), world, a,
                      StateWorld.SetCode(OrNew(out, old(world), a), out.keccak(code), Some(code)))
    {
      hide Good;
      var o := GetOrNew(a);
      Usable(out, world, log, trace, a);
      ghost var mid := world;
      var p := StateWorld.SetCode(o, out.keccak(code), Some(code));
      CodeUndone(out, o, a, code);
      Change(a, p, CodeChange(a, CodeOf(out, o), o.codeHash));
      OnlyTwice(out, old(world), mid, world, a);
      SameSelf(out, p);
    }

    /** CreateAccount: a new object that keeps the balance. */
    method CreateAccount(a: Address)
      requires Valid()
      modifies this
      ensures Valid() && Kept(old(log), log, old(trace), trace)
      ensures Changed(out, old(world), world, a, Blank(out).(balance := OrNew(out, old(world), a).balance))
    {
      hide Good;
      var prev := Load(a);
      var o := Blank(out).(balance := OrNew(out, world, a).balance);
      SameSelf(out, o);
      if prev.None? {
        Create(a);
      } else {
        SameOnly(out, old(world), world, a);
        SameSelf(out, prev.value);
        ghost var mid := world;
        Change(a, o, ResetObject(a, prev.value));
        OnlyTwice(out, old(world), mid, world, a);
      }
    }

    /** Suicide: the account is marked and its balance lost; false if there is none. */
    method Suicide(a: Address) returns (ok: bool)
      requires Valid()
      modifies this
      ensures Valid() && Kept(old(log), log, old(trace), trace) && (ok <==> Get(old(world), a).Some?)
      ensures ok ==> Changed(out, old(world), world, a, Get(old(world), a).value.(suicided := true, balance := 0))
      ensures !ok ==> world == old(world)
    {
      hide Good;
      var r := Load(a);
      if r.None? { return false; }
      var o := r.value;
      SameOnly(out, old(world), world, a);
      Usable(out, world, log, trace, a);
      ghost var mid := world;
      SameSelf(out, o);
      Change(a, o.(suicided := true, balance := 0), SuicideChange(a, o.suicided, o.balance));
      OnlyTwice(out, old(world), mid, world, a);
      SameSelf(out, o.(suicided := true, balance := 0));
      return true;
    }

    /** AddRefund; the counter has 64 bits. */
    method AddRefund(gas: nat)
      requires Valid()
      modifies this
      ensures Valid() && Kept(old(log), log, old(trace), trace) &&
              world == old(world).(refund := (old(world).refund + gas) % TWO_64)
    {
      hide Good, Steps;
      var refund := (world.refund + gas) % TWO_64;
      GoodSane(out, world, log, trace);
      StepRefund(out, world, refund);
      Record(RefundChange(world.refund), world.(refund := refund));
    }

    /**
     Finalise: dirty accounts go to the trie; of those, accounts that have suicided,
     and empty ones if wanted, disappear. Nothing else shows, except that the refund
     counter starts again. Older snapshots stay in the list but can no longer be used.
     */
    method Finalise(deleteEmpty: bool)
      requires Valid()
      modifies this
      ensures Valid() && world.refund == 0 && log == old(log).(entries := [], dirties := map[])
      ensures forall a :: FinalisedAt(out, old(world), world, old(log).dirties.Keys, deleteEmpty, a)
      ensures trace == Trace([world], old(trace).saved, multiset{}, |log.revisions|)
    {
      hide Good, FinalInv, FinalisedAt, Finalised;
      FinalStart(out, world, log, trace, deleteEmpty);
      var left, w := log.dirties.Keys, world;
      ghost var done: set<Address> := {};
      while left != {}
        invariant left + done == log.dirties.Keys && left !! done && Valid() && world == old(world) &&
                  log == old(log) && trace == old(trace)
        invariant FinalInv(out, world, w, done, log.dirties.Keys, deleteEmpty)
        decreases |left|
      {
        var a :| a in left;
        FinalStep(out, world, w, done, log.dirties.Keys, deleteEmpty, a);
        w := Finalised(out, w, a, deleteEmpty);
        left, done := left - {a}, done + {a};
      }
      assert done == log.dirties.Keys;
      FinalEnd(out, world, w, log, trace, deleteEmpty);
      world, log := w.(refund := 0), log.(entries := [], dirties := map[]);
      trace := Trace([world], trace.saved, multiset{}, |log.revisions|);
    }

  }

  /** An entry about a live object at a. */
  predicate Changes(e: Entry, a: Address)
  {
    !e.CreateObject? && !e.RefundChange? && !e.TouchChange? && e.account == a
  }

  lemma Usable(out: Outside, w: World, log: Log, t: Trace, a: Address)
    requires Good(out, w, log, t) && Get(w, a).Some?
    ensures !Get(w, a).value.deleted && Tidy(Get(w, a).value) && SameObj(out, Get(w, a).value, Get(w, a).value)
  {
    hide Good;
    GoodSane(out, w, log, t);
    GetLive(w, a);
    GetTidy(w, a);
  }

  lemma OnlyTwice(out: Outside, u: World, v: World, w: World, a: Address)
    requires OnlyAt(out, u, v, a) && OnlyAt(out, v, w, a)
    ensures OnlyAt(out, u, w, a)
  {
    forall b | b != a ensures SameAccount(out, Get(u, b), Get(w, b)) {
      assert SameAccount(out, Get(u, b), Get(v, b)) && SameAccount(out, Get(v, b), Get(w, b));
    }
  }

  lemma StorageUndone(out: Outside, o: Obj, a: Address, key: Word, value: Word)
    ensures SameObj(out, UndoObj(StorageChange(a, key, StateOf(o, key)), SetState(o, key, value)), o)
  {
  }

  lemma CodeUndone(out: Outside, o: Obj, a: Address, code: Code)
    ensures SameObj(out,
                    UndoObj(CodeChange(a, CodeOf(out, o), o.codeHash),
                            StateWorld.SetCode(o, out.keccak(code), Some(code))), o)
  {
  }

  lemma TouchAlive(out: Outside, w: World, log: Log, t: Trace, a: Address)
    requires Good(out, w, log, t) && Get(w, a).Some?
    ensures Alive(w, TouchChange(a), w)
  {
    hide History, Counts, Sorted, Saves, LiveDirty;
  }

  /** A mark that is never taken back. */
  lemma ExtraGood(out: Outside, w: World, log: Log, t: Trace, a: Address)
    requires Good(out, w, log, t) && Get(w, a).Some?
    ensures Good(out, w, log.(dirties := log.dirties[a := Num(log.dirties, a) + 1]), t.(extra := t.extra + multiset{a}))
  {
    hide History, Sorted, Same, Sane;
    var more := log.dirties[a := Num(log.dirties, a) + 1];
    forall b ensures (b in more ==> more[b] > 0) && Num(more, b) == DirtyCount(log.entries, b) + (t.extra + multiset{a})[b] {
      assert Num(log.dirties, b) == DirtyCount(log.entries, b) + t.extra[b];
    }
    SavesExtra(out, log.revisions, t, t.extra + multiset{a});
  }

  lemma SavesExtra(out: Outside, rs: seq<Revision>, t: Trace, extra: multiset<Address>)
    requires Saves(out, rs, t)
    ensures Saves(out, rs, t.(extra := extra))
  {
  }

  /** Changes append to the journal and leave the snapshots. */
  ghost predicate Kept(log: Log, log': Log, t: Trace, t': Trace)
  {
    && log.revisions == log'.revisions && log.nextId == log'.nextId && log.entries <= log'.entries
    && t.saved == t'.saved && t.base == t'.base
  }

  lemma SnapshotGood(out: Outside, w: World, log: Log, t: Trace)
    requires Good(out, w, log, t)
    ensures Good(out, w,
                 log.(nextId := log.nextId + 1, revisions := log.revisions + [Revision(log.nextId, |log.entries|)]),
                 t.(saved := t.saved[log.nextId := w]))
  {
    hide Sane, LiveDirty, Counts, Steps, Same;
    var rs := log.revisions + [Revision(log.nextId, |log.entries|)];
    SameSym(out, w, t.past[|log.entries|]);
    forall i | t.base <= i < |rs|
      ensures rs[i].id in t.saved[log.nextId := w] && rs[i].journalIndex < |t.past|
           && Same(out, t.past[rs[i].journalIndex], t.saved[log.nextId := w][rs[i].id])
    {
      if i < |log.revisions| { assert rs[i] == log.revisions[i]; }
    }
  }

  lemma GoodSorted(out: Outside, w: World, log: Log, t: Trace)
    requires Good(out, w, log, t)
    ensures Sorted(log.revisions, log.nextId, t.base, |log.entries|) && Saves(out, log.revisions, t)
  {
  }

  lemma GoodSane(out: Outside, w: World, log: Log, t: Trace)
    requires Good(out, w, log, t)
    ensures Sane(w)
  {
  }

  /** sort.Search on the snapshot ids. */
  method Search(rs: seq<Revision>, id: nat) returns (k: nat)
    requires forall i, j :: 0 <= i < j < |rs| ==> rs[i].id < rs[j].id
    ensures k <= |rs| && (forall i :: 0 <= i < k ==> rs[i].id < id) && (forall i :: k <= i < |rs| ==> rs[i].id >= id)
  {
    k := 0;
    var j := |rs|;
    while k < j
      invariant k <= j <= |rs|
      invariant (forall i :: 0 <= i < k ==> rs[i].id < id) && (forall i :: j <= i < |rs| ==> rs[i].id >= id)
    {
      var m := (k + j) / 2;
      if rs[m].id < id { k := m + 1; } else { j := m; }
    }
  }

  /** journal.revert: the entries are undone from the last one down to number k. */
  method UndoAll(out: Outside, w0: World, log: Log, k: nat, ghost t: Trace)
    returns (w: World, dirties: map<Address, nat>)
    requires Good(out, w0, log, t) && k <= |log.entries|
    ensures Reverting(out, w, log.entries, dirties, t, k) && w.accounts == w0.accounts
  {
    hide Good, Reverting, Undo, Fits;
    RevertStart(out, w0, log, t);
    w, dirties := w0, log.dirties;
    var i := |log.entries|;
    while i > k
      invariant k <= i <= |log.entries| && Reverting(out, w, log.entries, dirties, t, i) && w.accounts == w0.accounts
    {
      i := i - 1;
      RevertStep(out, w, log.entries, dirties, t, i + 1);
      UndoAccounts(w, log.entries[i]);
      w, dirties := Undo(w, log.entries[i]), Unmark(dirties, log.entries[i]);
    }
  }

  lemma UndoAccounts(w: World, e: Entry)
    ensures Undo(w, e).accounts == w.accounts
  {
  }

  /** The value read is put into the cache. */
  function Cache(o: Obj, key: Word): Obj { o.(cached := o.cached[key := StateOf(o, key)]) }

  lemma CacheRead(out: Outside, w: World, log: Log, t: Trace, a: Address, key: Word)
    requires Good(out, w, log, t) && Get(w, a).Some?
    ensures var w' := Put(w, a, Cache(Get(w, a).value, key));
            Good(out, w', log, t) && Same(out, w', w)
  {
    hide Good, Same;
    var o := Get(w, a).value;
    GoodSane(out, w, log, t);
    GetLive(w, a);
    CacheSame(out, w, a, key);
    GoodRead(out, w, log, t, Put(w, a, Cache(o, key)));
  }

  lemma CodeRead(out: Outside, w: World, log: Log, t: Trace, a: Address)
    requires Good(out, w, log, t) && Get(w, a).Some?
    ensures var w' := Put(w, a, Get(w, a).value.(code := CodeOf(out, Get(w, a).value)));
            Good(out, w', log, t) && Same(out, w', w)
  {
    hide Good, Same;
    var o := Get(w, a).value;
    var p := o.(code := CodeOf(out, o));
    GoodSane(out, w, log, t);
    GetLive(w, a);
    GetTidy(w, a);
    CodeSame(out, o);
    SameRefl(out, w);
    PutSame(out, w, w, a, p, o);
    LoadSame(out, w, a);
    SameTrans(out, Put(w, a, p), Put(w, a, o), w);
    GoodRead(out, w, log, t, Put(w, a, p));
  }

  lemma CodeSame(out: Outside, o: Obj)
    ensures SameObj(out, o.(code := CodeOf(out, o)), o)
  {
  }

  lemma CacheSame(out: Outside, w: World, a: Address, key: Word)
    requires Get(w, a).Some? && Sane(w)
    ensures Same(out, Put(w, a, Cache(Get(w, a).value, key)), w) && Sane(Put(w, a, Cache(Get(w, a).value, key)))
  {
    var o := Get(w, a).value;
    GetLive(w, a);
    GetTidy(w, a);
    assert SameObj(out, Cache(o, key), o);
    forall b ensures SameAccount(out, Get(Put(w, a, Cache(o, key)), b), Get(w, b)) {
      GetPut(w, a, Cache(o, key), b);
      SameGet(out, w, b);
    }
  }

  lemma PutOnly(out: Outside, w: World, a: Address, o: Obj)
    requires !o.deleted
    ensures OnlyAt(out, w, Put(w, a, o), a) && Get(Put(w, a, o), a) == Some(o)
  {
    forall b | b != a ensures SameAccount(out, Get(w, b), Get(Put(w, a, o), b)) {
      GetPut(w, a, o, b);
      SameGet(out, w, b);
    }
  }

  lemma SameOnly(out: Outside, v: World, w: World, a: Address)
    requires Same(out, w, v)
    ensures OnlyAt(out, v, w, a)
  {
    SameSym(out, w, v);
  }

  // ----- Finalise -----

  /** updateTrie: dirty storage goes to the storage trie; zero values are deleted there. */
  function Merge(storage: Storage, dirty: Storage): Storage
  {
    map k | k in storage.Keys + dirty.Keys && (k in dirty ==> dirty[k] != 0) :: if k in dirty then dirty[k] else storage[k]
  }

  predicate Doomed(out: Outside, o: Obj, deleteEmpty: bool) { o.suicided || (deleteEmpty && IsEmpty(out, o)) }

  /** The body of the loop in Finalise. */
  function Finalised(out: Outside, w: World, a: Address, deleteEmpty: bool): World
  {
    if a !in w.objects then w
    else
      var o := w.objects[a];
      if Doomed(out, o, deleteEmpty) then
        w.(objects := w.objects[a := o.(deleted := true)], accounts := w.accounts - {a})
      else
        var p := o.(storage := Merge(o.storage, o.dirty), dirty := map[]);
        w.(objects := w.objects[a := p], accounts := w.accounts[a := Account(p.nonce, p.balance, p.codeHash, p.storage)])
  }

  /** What Finalise makes of the account at a, if that is among those processed. */
  ghost predicate FinalisedAt(out: Outside, v: World, w: World, keys: set<Address>, deleteEmpty: bool, a: Address)
  {
    if a in keys && a in v.objects && Doomed(out, v.objects[a], deleteEmpty) then Get(w, a).None?
    else SameAccount(out, Get(w, a), Get(v, a))
  }

  ghost predicate FinalInv(out: Outside, v: World, w: World, done: set<Address>, keys: set<Address>, deleteEmpty: bool)
  {
    && Sane(w) && done <= keys && (forall a :: a in keys && a in v.objects ==> !v.objects[a].deleted)
    && (forall a :: a in keys && a !in done && a in w.objects ==> a in v.objects)
    && (forall a :: a !in done ==> (a in w.objects <==> a in v.objects) && (a in w.objects ==> w.objects[a] == v.objects[a]))
    && (forall a :: a !in done ==>
          (a in w.accounts <==> a in v.accounts) && (a in w.accounts ==> w.accounts[a] == v.accounts[a]))
    && (forall a :: FinalisedAt(out, v, w, done, deleteEmpty, a))
  }

  lemma FinalStart(out: Outside, w: World, log: Log, t: Trace, deleteEmpty: bool)
    requires Good(out, w, log, t)
    ensures FinalInv(out, w, w, {}, log.dirties.Keys, deleteEmpty)
  {
    hide History, Counts, Sorted, Saves;
    forall a ensures FinalisedAt(out, w, w, {}, deleteEmpty, a) { SameGet(out, w, a); }
  }

  lemma FinalStep(out: Outside, v: World, w: World, done: set<Address>, keys: set<Address>, deleteEmpty: bool,
                  a: Address)
    requires FinalInv(out, v, w, done, keys, deleteEmpty) && a in keys && a !in done
    ensures FinalInv(out, v, Finalised(out, w, a, deleteEmpty), done + {a}, keys, deleteEmpty)
  {
    hide SameAccount, Finalised, Sane, Doomed;
    var w' := Finalised(out, w, a, deleteEmpty);
    FinalOne(out, w, a, deleteEmpty);
    FinalFrame(out, w, a, deleteEmpty);
    forall b ensures FinalisedAt(out, v, w', done + {a}, deleteEmpty, b) {
      assert FinalisedAt(out, v, w, done, deleteEmpty, b);
      if b == a { SameGet(out, v, a); }
    }
  }

  lemma FinalOne(out: Outside, w: World, a: Address, deleteEmpty: bool)
    requires Sane(w) && (a in w.objects ==> !w.objects[a].deleted)
    ensures var w' := Finalised(out, w, a, deleteEmpty);
            && Sane(w') && (forall b :: b != a ==> Get(w', b) == Get(w, b))
            && (if a in w.objects && Doomed(out, w.objects[a], deleteEmpty) then Get(w', a).None?
                else SameAccount(out, Get(w', a), Get(w, a)))
  {
    if a in w.objects && !Doomed(out, w.objects[a], deleteEmpty) {
      MergeSame(out, w.objects[a]);
    } else if a !in w.objects {
      SameGet(out, w, a);
    }
  }

  lemma FinalFrame(out: Outside, w: World, a: Address, deleteEmpty: bool)
    ensures var w' := Finalised(out, w, a, deleteEmpty);
            forall b :: b != a ==>
              && (b in w'.objects <==> b in w.objects) && (b in w.objects ==> w'.objects[b] == w.objects[b])
              && (b in w'.accounts <==> b in w.accounts) && (b in w.accounts ==> w'.accounts[b] == w.accounts[b])
  {
    hide Merge;
  }

  lemma MergeSame(out: Outside, o: Obj)
    requires Tidy(o)
    ensures SameObj(out, o.(storage := Merge(o.storage, o.dirty), dirty := map[]), o)
  {
  }

  lemma FinalEnd(out: Outside, v: World, w: World, log: Log, t: Trace, deleteEmpty: bool)
    requires Good(out, v, log, t) && FinalInv(out, v, w, log.dirties.Keys, log.dirties.Keys, deleteEmpty)
    ensures var w' := w.(refund := 0);
            && Good(out, w', log.(entries := [], dirties := map[]), Trace([w'], t.saved, multiset{}, |log.revisions|))
            && forall a :: FinalisedAt(out, v, w', log.dirties.Keys, deleteEmpty, a)
  {
    hide SameAccount, Same, Steps;
    var w' := w.(refund := 0);
    SameRefl(out, w');
    forall a ensures FinalisedAt(out, v, w', log.dirties.Keys, deleteEmpty, a) {
      assert FinalisedAt(out, v, w, log.dirties.Keys, deleteEmpty, a);
      assert Get(w', a) == Get(w, a);
    }
  }

  /** Sorted by journal index. */
  ghost predicate SortedByIndex(rs: seq<Revision>)
  {
    forall i, j :: 0 <= i <= j < |rs| ==> rs[i].journalIndex <= rs[j].journalIndex
  }

  /** One more snapshot at index zero breaks the order, unless all others stand there as well. */
  lemma SnapshotAtZero(rs: seq<Revision>, id: nat)
    ensures SortedByIndex(rs + [Revision(id, 0)]) <==> forall i :: 0 <= i < |rs| ==> rs[i].journalIndex == 0
  {
    var more := rs + [Revision(id, 0)];
    if SortedByIndex(more) {
      forall i | 0 <= i < |rs|
        ensures rs[i].journalIndex == 0
      {
        assert more[i].journalIndex <= more[|rs|].journalIndex;
      }
    }
  }

  /**
   Finalise empties the journal but keeps the snapshots. A snapshot taken after it
   breaks the order by journal index, unless all older ones stand at index zero.
   */
  method OlderSnapshots(db: StateDB, deleteEmpty: bool) returns (id: nat)
    requires db.Valid()
    modifies db
    ensures db.Valid() && db.log.revisions == old(db.log).revisions + [Revision(id, 0)] && db.log.entries == []
    ensures SortedByIndex(db.log.revisions) <==>
              forall i :: 0 <= i < |old(db.log).revisions| ==> old(db.log).revisions[i].journalIndex == 0
  {
    hide Good, FinalisedAt;
    db.Finalise(deleteEmpty);
    id := db.Snapshot();
    SnapshotAtZero(old(db.log).revisions, id);
  }

  /** A snapshot of a journal with entries: after Finalise, going back to it panics. */
  method LostSnapshot(db: StateDB, deleteEmpty: bool) returns (ok: bool)
    requires db.Valid() && db.log.entries != []
    modifies db
    ensures db.Valid() && !ok
  {
    hide Good, FinalisedAt;
    ghost var m := |db.log.revisions|;
    var id := db.Snapshot();
    db.Finalise(deleteEmpty);
    OneId(db, m);
    ok := db.RevertToSnapshot(id);
  }

  lemma OneId(db: StateDB, m: nat)
    requires db.Valid() && m < |db.log.revisions|
    ensures forall i :: 0 <= i < |db.log.revisions| && db.log.revisions[i].id == db.log.revisions[m].id ==> i == m
  {
    hide Good;
    GoodSorted(db.out, db.world, db.log, db.trace);
  }

  /** A snapshot of an empty journal: after Finalise, going back to it leaves the change. */
  method StaleSnapshot(db: StateDB, a: Address, nonce: nat) returns (ok: bool)
    requires db.Valid() && db.log.entries == []
    requires var o := OrNew(db.out, db.world, a);
             o.nonce != nonce && !o.suicided
    modifies db
    ensures db.Valid() && ok && OrNew(db.out, db.world, a).nonce == nonce && !Same(db.out, db.world, old(db.world))
  {
    hide Good, Same, FinalisedAt, Changed, OrNew;
    ghost var m := |db.log.revisions|;
    var id := db.Snapshot();
    db.SetNonce(a, nonce);
    ghost var changed := db.world;
    ChangedNonce(db.out, old(db.world), changed, a, nonce);
    ghost var keys := db.log.dirties.Keys;
    db.Finalise(false);
    ghost var final := db.world;
    FinalNonce(db.out, changed, final, keys, a, nonce);
    OneId(db, m);
    assert db.log.revisions[m] == Revision(id, 0);
    ok := db.RevertToSnapshot(id);
    SameNonce(db.out, db.world, final, a);
    if Same(db.out, db.world, old(db.world)) { SameNonce(db.out, db.world, old(db.world), a); }
  }

  lemma ChangedNonce(out: Outside, v: World, w: World, a: Address, nonce: nat)
    requires Changed(out, v, w, a, OrNew(out, v, a).(nonce := nonce))
    ensures Get(w, a).Some? && Get(w, a).value.nonce == nonce && Get(w, a).value.suicided == OrNew(out, v, a).suicided
  {
  }

  lemma FinalNonce(out: Outside, v: World, w: World, keys: set<Address>, a: Address, nonce: nat)
    requires FinalisedAt(out, v, w, keys, false, a)
    requires Get(v, a).Some? && Get(v, a).value.nonce == nonce && !Get(v, a).value.suicided
    ensures OrNew(out, w, a).nonce == nonce
  {
  }

  lemma SameNonce(out: Outside, v: World, w: World, a: Address)
    requires Same(out, v, w)
    ensures OrNew(out, v, a).nonce == OrNew(out, w, a).nonce
  {
    assert SameAccount(out, Get(v, a), Get(w, a));
  }

  // ----- any interleaving -----

  datatype Op =
    | Nonce(a: Address, nonce: nat) | Add(a: Address, amount: int) | Sub(a: Address, amount: int)
    | Set(a: Address, balance: int)
    | Store(a: Address, key: Word, value: Word) | Deploy(a: Address, code: Code) | Reset(a: Address) | Kill(a: Address)
    | Refund(gas: nat) | Read(a: Address, key: Word) | Code(a: Address) | Balance(a: Address)
    | Exists(a: Address) | Killed(a: Address)
    | Snap | Back(id: nat)

  /** Snapshot number m is still there, with the state it stands for. */
  ghost predicate Holds(log: Log, t: Trace, m: nat, id: nat, w: World)
  {
    && t.base <= m < |log.revisions| && log.revisions[m].id == id && id < log.nextId
    && id in t.saved && t.saved[id] == w
  }

  method Perform(db: StateDB, op: Op, ghost m: nat, ghost id: nat, ghost w: World)
    requires db.Valid() && Holds(db.log, db.trace, m, id, w) && (op.Back? ==> op.id > id)
    modifies db
    ensures db.Valid() && Holds(db.log, db.trace, m, id, w)
  {
    hide Good, Same, Changed, OnlyAt;
    match op
    case Nonce(a, n) => db.SetNonce(a, n);
    case Add(a, x) => db.AddBalance(a, x);
    case Sub(a, x) => db.SubBalance(a, x);
    case Set(a, x) => db.SetBalance(a, x);
    case Store(a, k, v) => db.SetStorage(a, k, v);
    case Deploy(a, c) => db.SetCode(a, c);
    case Reset(a) => db.CreateAccount(a);
    case Kill(a) =>
      var ok := db.Suicide(a);
    case Refund(g) => db.AddRefund(g);
    case Read(a, k) =>
      var v := db.GetState(a, k);
    case Code(a) =>
      var c := db.GetCode(a);
    case Balance(a) =>
      var b := db.GetBalance(a);
    case Exists(a) =>
      var b := db.Exist(a);
    case Killed(a) =>
      var b := db.HasSuicided(a);
    case Snap =>
      var next := db.Snapshot();
    case Back(j) =>
      Later(db, m, id, j);
      var ok := db.RevertToSnapshot(j);
  }

  /** Snapshots with a greater id come later in the list. */
  lemma Later(db: StateDB, m: nat, id: nat, j: nat)
    requires db.Valid() && db.trace.base <= m < |db.log.revisions| && db.log.revisions[m].id == id < j
    ensures forall i :: 0 <= i <= m ==> db.log.revisions[i].id != j
  {
    GoodSorted(db.out, db.world, db.log, db.trace);
  }

  /**
   A snapshot, any sequence of changes, reads, further snapshots and reverts to those,
   and then a revert: no getter can tell that anything has happened.
   */
  method Attempt(db: StateDB, ops: seq<Op>)
    requires db.Valid() && forall i :: 0 <= i < |ops| && ops[i].Back? ==> ops[i].id > db.log.nextId
    modifies db
    ensures db.Valid() && Same(db.out, db.world, old(db.world))
  {
    hide Good, Same;
    ghost var m, w := |db.log.revisions|, db.world;
    GoodSorted(db.out, db.world, db.log, db.trace);
    var id := db.Snapshot();
    for i := 0 to |ops|
      invariant db.Valid() && Holds(db.log, db.trace, m, id, w)
    {
      Perform(db, ops[i], m, id, w);
    }
    OneId(db, m);
    GoodSorted(db.out, db.world, db.log, db.trace);
    var ok := db.RevertToSnapshot(id);
  }
}
