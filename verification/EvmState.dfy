/**
 What the virtual machine needs to know about the state: the sum of all balances, and
 that snapshots taken earlier stay usable.
 */
module EvmState {
  import opened StateWorld
  import opened StateDB

  ghost function Bal(out: Outside, w: World, a: Address): int { OrNew(out, w, a).balance }

  ghost function Known(w: World): set<Address> { w.accounts.Keys + w.objects.Keys }

  ghost function Sum(out: Outside, w: World, s: set<Address>): int
  {
    if s == {} then 0
    else
      var a :| a in s;
      Bal(out, w, a) + Sum(out, w, s - {a})
  }

  /** The sum of all balances. */
  ghost function Total(out: Outside, w: World): int { Sum(out, w, Known(w)) }

  lemma {:induction false} SumRemove(out: Outside, w: World, s: set<Address>, a: Address)
    requires a in s
    ensures Sum(out, w, s) == Bal(out, w, a) + Sum(out, w, s - {a})
    decreases |s|
  {
    hide Bal;
    var b :| b in s && Sum(out, w, s) == Bal(out, w, b) + Sum(out, w, s - {b});
    if b != a {
      SumRemove(out, w, s - {b}, a);
      SumRemove(out, w, s - {a}, b);
      assert s - {a} - {b} == s - {b} - {a};
    }
  }

  lemma {:induction false} SumSame(out: Outside, v: World, w: World, s: set<Address>)
    requires forall a :: a in s ==> Bal(out, v, a) == Bal(out, w, a)
    ensures Sum(out, v, s) == Sum(out, w, s)
    decreases |s|
  {
    hide Bal;
    if s != {} {
      var a :| a in s;
      SumRemove(out, v, s, a);
      SumRemove(out, w, s, a);
      SumSame(out, v, w, s - {a});
    }
  }

  /** Addresses without account add nothing. */
  lemma {:induction false} SumMore(out: Outside, w: World, s: set<Address>)
    requires Known(w) <= s
    ensures Sum(out, w, s) == Total(out, w)
    decreases |s|
  {
    hide Bal;
    if s == Known(w) {
    } else {
      var a :| a in s && a !in Known(w);
      SumRemove(out, w, s, a);
      UnknownZero(out, w, a);
      SumMore(out, w, s - {a});
    }
  }

  lemma UnknownZero(out: Outside, w: World, a: Address)
    requires a !in Known(w)
    ensures Bal(out, w, a) == 0
  {
  }

  /** A change of one account changes the sum by the change of its balance. */
  lemma TotalChange(out: Outside, v: World, w: World, a: Address)
    requires OnlyAt(out, v, w, a)
    ensures Total(out, w) - Total(out, v) == Bal(out, w, a) - Bal(out, v, a)
  {
    hide Bal, Sum, Known;
    var s := Known(v) + Known(w) + {a};
    SumMore(out, v, s);
    SumMore(out, w, s);
    SumRemove(out, v, s, a);
    SumRemove(out, w, s, a);
    forall b | b in s - {a} ensures Bal(out, v, b) == Bal(out, w, b) { SameBal(out, v, w, b); }
    SumSame(out, v, w, s - {a});
  }

  lemma SameBal(out: Outside, v: World, w: World, b: Address)
    requires SameAccount(out, Get(v, b), Get(w, b))
    ensures Bal(out, v, b) == Bal(out, w, b)
  {
  }

  lemma TotalSame(out: Outside, v: World, w: World)
    requires Same(out, v, w)
    ensures Total(out, w) == Total(out, v)
    ensures forall a :: Bal(out, w, a) == Bal(out, v, a)
  {
    hide Sum;
    forall a ensures Bal(out, w, a) == Bal(out, v, a) {
      assert SameAccount(out, Get(v, a), Get(w, a));
    }
    SameOnlyAt(out, v, w, 0);
    TotalChange(out, v, w, 0);
  }

  lemma SameOnlyAt(out: Outside, v: World, w: World, a: Address)
    requires Same(out, v, w)
    ensures OnlyAt(out, v, w, a)
  {
  }

  ghost predicate NonNegative(out: Outside, w: World) { forall a :: Bal(out, w, a) >= 0 }

  // ----- snapshots stay -----

  /** Every snapshot that was there is still there and stands for the same state. */
  ghost predicate Beyond(log: Log, t: Trace, log': Log, t': Trace)
  {
    && log.revisions <= log'.revisions && log.nextId <= log'.nextId && t.base == t'.base
    && (forall i :: 0 <= i < |log.revisions| && log.revisions[i].id in t.saved ==>
          log.revisions[i].id in t'.saved && t'.saved[log.revisions[i].id] == t.saved[log.revisions[i].id])
  }

  lemma BeyondTwice(l0: Log, t0: Trace, l1: Log, t1: Trace, l2: Log, t2: Trace)
    requires Beyond(l0, t0, l1, t1) && Beyond(l1, t1, l2, t2)
    ensures Beyond(l0, t0, l2, t2)
  {
    forall i | 0 <= i < |l0.revisions| && l0.revisions[i].id in t0.saved
      ensures l0.revisions[i].id in t2.saved && t2.saved[l0.revisions[i].id] == t0.saved[l0.revisions[i].id]
    {
      assert l1.revisions[i] == l0.revisions[i];
    }
  }

  lemma KeptBeyond(log: Log, log': Log, t: Trace, t': Trace)
    requires Kept(log, log', t, t')
    ensures Beyond(log, t, log', t')
  {
  }

  /** After a snapshot, older ones are still there. */
  lemma SnapshotBeyond(log: Log, t: Trace, w: World)
    requires Sorted(log.revisions, log.nextId, t.base, |log.entries|)
    ensures Beyond(log, t,
                   log.(nextId := log.nextId + 1, revisions := log.revisions + [Revision(log.nextId, |log.entries|)]),
                   t.(saved := t.saved[log.nextId := w]))
  {
  }

  /** Reverting to a later snapshot leaves the older ones. */
  lemma RevertBeyond(l0: Log, t0: Trace, l1: Log, t1: Trace, l2: Log, t2: Trace, id: nat)
    requires Beyond(l0, t0, l1, t1) && Sorted(l0.revisions, l0.nextId, t0.base, |l0.entries|) && id >= l0.nextId
    requires |l2.revisions| < |l1.revisions| && l2.revisions == l1.revisions[..|l2.revisions|] &&
             l1.revisions[|l2.revisions|].id == id
    requires Sorted(l1.revisions, l1.nextId, t1.base, |l1.entries|) && l2.nextId == l1.nextId && t2.saved == t1.saved &&
             t2.base == t1.base
    ensures Beyond(l0, t0, l2, t2)
  {
    assert forall i :: 0 <= i < |l0.revisions| ==> l1.revisions[i] == l0.revisions[i];
  }
}
