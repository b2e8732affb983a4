/**
 Accounts as a StateDB sees them (core/state/state_object.go, statedb.go): state
 objects with their caches in front of a trie, what can be observed of them, and the
 undo entries of the journal (core/state/journal.go).
 */
module StateWorld {
  import opened Bytes

  /** Addresses, storage keys, storage values and hashes are numbers; zero is the zero value. */
  type Address = nat
  type Word = nat
  type Code = seq<byte>
  type Storage = map<Word, Word>

  const RIPEMD: Address := 3

  /** The parts that lie outside: Keccak and the code database. */
  datatype Outside = Outside(keccak: Code -> Word, codes: Word -> Code)

  /** An account in the state trie with its storage trie. */
  datatype Account = Account(nonce: nat, balance: int, codeHash: Word, storage: Storage)

  /** stateObject; the storage trie is storage, and code is None where the source has nil. */
  datatype Obj = Obj(nonce: nat, balance: int, codeHash: Word, code: Option<Code>,
                     cached: Storage, dirty: Storage, storage: Storage, suicided: bool, deleted: bool, dirtyCode: bool)

  datatype World = World(accounts: map<Address, Account>, objects: map<Address, Obj>, refund: nat)

  /** newObject */
  function NewObject(a: Account): Obj
  {
    Obj(a.nonce, a.balance, a.codeHash, None, map[], map[], a.storage, false, false, false)
  }

  function Blank(out: Outside): Obj { NewObject(Account(0, 0, out.keccak([]), map[])) }

  function At(s: Storage, key: Word): Word { if key in s then s[key] else 0 }

  /** GetState: the cached value, or the one in the storage trie. */
  function StateOf(o: Obj, key: Word): Word { if key in o.cached then o.cached[key] else At(o.storage, key) }

  /** Code: nil for the empty code hash, unless code has been set. */
  function CodeOf(out: Outside, o: Obj): Option<Code>
  {
    if o.code.Some? then o.code
    else if o.codeHash == out.keccak([]) then None
    else Some(out.codes(o.codeHash))
  }

  function CodeBytes(out: Outside, o: Obj): Code { var c := CodeOf(out, o); if c.Some? then c.value else [] }

  /** getStateObject: a live object, or one made from the trie. */
  function Get(w: World, a: Address): Option<Obj>
  {
    if a in w.objects then if w.objects[a].deleted then None else Some(w.objects[a])
    else if a in w.accounts then Some(NewObject(w.accounts[a]))
    else None
  }

  /** empty */
  predicate IsEmpty(out: Outside, o: Obj) { o.nonce == 0 && o.balance == 0 && o.codeHash == out.keccak([]) }

  // ----- what can be observed -----

  /** No getter can tell the objects apart. */
  ghost predicate SameObj(out: Outside, o: Obj, p: Obj)
  {
    && o.nonce == p.nonce && o.balance == p.balance && o.codeHash == p.codeHash && o.suicided == p.suicided
    && CodeBytes(out, o) == CodeBytes(out, p)
    && forall key :: StateOf(o, key) == StateOf(p, key)
  }

  ghost predicate SameAccount(out: Outside, o: Option<Obj>, p: Option<Obj>)
  {
    (o.Some? <==> p.Some?) && (o.Some? ==> SameObj(out, o.value, p.value))
  }

  /** No getter can tell the states apart. */
  ghost predicate Same(out: Outside, v: World, w: World)
  {
    v.accounts == w.accounts && v.refund == w.refund && forall a :: SameAccount(out, Get(v, a), Get(w, a))
  }

  lemma SameTrans(out: Outside, u: World, v: World, w: World)
    requires Same(out, u, v) && Same(out, v, w)
    ensures Same(out, u, w)
  {
    forall a ensures SameAccount(out, Get(u, a), Get(w, a)) {
      assert SameAccount(out, Get(u, a), Get(v, a)) && SameAccount(out, Get(v, a), Get(w, a));
    }
  }

  /** Only the account at a may differ. */
  ghost predicate OnlyAt(out: Outside, v: World, w: World, a: Address)
  {
    v.accounts == w.accounts && v.refund == w.refund && forall b :: b != a ==> SameAccount(out, Get(v, b), Get(w, b))
  }

  // ----- the journal entries -----

  datatype Entry =
    | CreateObject(account: Address)
    | ResetObject(account: Address, prev: Obj)
    | SuicideChange(account: Address, prevSuicided: bool, prevBalance: int)
    | NonceChange(account: Address, prevNonce: nat)
    | BalanceChange(account: Address, prevBalance: int)
    | StorageChange(account: Address, key: Word, prevValue: Word)
    | CodeChange(account: Address, prevCode: Option<Code>, prevHash: Word)
    | RefundChange(prevRefund: nat)
    | TouchChange(account: Address)

  /** dirtied */
  function Dirtied(e: Entry): Option<Address>
  {
    match e
    case ResetObject(_, _) => None
    case RefundChange(_) => None
    case _ => Some(e.account)
  }

  function Put(w: World, a: Address, o: Obj): World { w.(objects := w.objects[a := o]) }

  /** setState */
  function SetState(o: Obj, key: Word, value: Word): Obj
  {
    o.(cached := o.cached[key := value], dirty := o.dirty[key := value])
  }

  /** setCode */
  function SetCode(o: Obj, hash: Word, code: Option<Code>): Obj
  {
    o.(code := code, codeHash := hash, dirtyCode := true)
  }

  /** What undoing an entry does to a live object. */
  function UndoObj(e: Entry, o: Obj): Obj
    requires !e.CreateObject? && !e.RefundChange?
  {
    match e
    case ResetObject(_, prev) => prev
    case SuicideChange(_, s, b) => o.(suicided := s, balance := b)
    case NonceChange(_, n) => o.(nonce := n)
    case BalanceChange(_, b) => o.(balance := b)
    case StorageChange(_, k, v) => SetState(o, k, v)
    case CodeChange(_, c, x) => SetCode(o, x, c)
    case TouchChange(_) => o
  }

  /**
   revert of an entry. Where the source would use a missing object and panic, nothing
   is done here; Fits says that this does not happen, and holds of every entry in turn.
   */
  function Undo(w: World, e: Entry): World
  {
    match e
    case CreateObject(a) => w.(objects := w.objects - {a})
    case RefundChange(r) => w.(refund := r)
    case TouchChange(_) => w
    case ResetObject(a, prev) => Put(w, a, prev)
    case _ => if Get(w, e.account).Some? then Put(w, e.account, UndoObj(e, Get(w, e.account).value)) else w
  }

  predicate Tidy(o: Obj) { o.dirty.Keys <= o.cached.Keys }

  /** The entry fits the state: what it restores is live. */
  ghost predicate Fits(w: World, e: Entry)
  {
    match e
    case CreateObject(a) => a !in w.accounts
    case ResetObject(_, prev) => !prev.deleted && Tidy(prev)
    case RefundChange(_) => true
    case TouchChange(_) => true
    case _ => Get(w, e.account).Some?
  }

  lemma GetPut(w: World, a: Address, o: Obj, b: Address)
    requires !o.deleted
    ensures Get(Put(w, a, o), b) == if b == a then Some(o) else Get(w, b)
  {
  }

  /** A live object stays live when it is undone. */
  lemma GetLive(w: World, a: Address)
    requires Get(w, a).Some?
    ensures !Get(w, a).value.deleted
  {
  }

  lemma SameUndoObj(out: Outside, e: Entry, o: Obj, p: Obj)
    requires SameObj(out, o, p) && !e.CreateObject? && !e.RefundChange?
    ensures SameObj(out, UndoObj(e, o), UndoObj(e, p))
  {
    var x, y := UndoObj(e, o), UndoObj(e, p);
    forall key ensures StateOf(x, key) == StateOf(y, key) {
      assert StateOf(o, key) == StateOf(p, key);
    }
  }

  /** Undoing an entry does not depend on what cannot be observed. */
  lemma UndoSame(out: Outside, v: World, w: World, e: Entry)
    requires Same(out, v, w) && Fits(v, e)
    ensures Fits(w, e) && Same(out, Undo(v, e), Undo(w, e))
  {
    hide SameObj, StateOf, CodeBytes, UndoObj;
    match e
    case CreateObject(a) =>
      forall b ensures SameAccount(out, Get(Undo(v, e), b), Get(Undo(w, e), b)) {
        assert SameAccount(out, Get(v, b), Get(w, b));
      }
    case RefundChange(_) =>
      forall b ensures SameAccount(out, Get(Undo(v, e), b), Get(Undo(w, e), b)) {
        assert SameAccount(out, Get(v, b), Get(w, b));
      }
    case TouchChange(_) =>
    case ResetObject(a, prev) =>
      SameSelf(out, prev);
      PutSame(out, v, w, a, prev, prev);
    case _ =>
      var a := e.account;
      assert SameAccount(out, Get(v, a), Get(w, a));
      GetLive(v, a);
      GetLive(w, a);
      SameUndoObj(out, e, Get(v, a).value, Get(w, a).value);
      UndoLive(e, Get(v, a).value);
      UndoLive(e, Get(w, a).value);
      PutSame(out, v, w, a, UndoObj(e, Get(v, a).value), UndoObj(e, Get(w, a).value));
  }

  lemma SameSelf(out: Outside, o: Obj)
    ensures SameObj(out, o, o)
  {
  }

  lemma UndoLive(e: Entry, o: Obj)
    requires !e.CreateObject? && !e.RefundChange? && !e.ResetObject? && !o.deleted
    ensures !UndoObj(e, o).deleted && (Tidy(o) ==> Tidy(UndoObj(e, o)))
  {
  }

  lemma PutSame(out: Outside, v: World, w: World, a: Address, o: Obj, p: Obj)
    requires Same(out, v, w) && SameObj(out, o, p) && !o.deleted && !p.deleted
    ensures Same(out, Put(v, a, o), Put(w, a, p))
  {
    hide SameObj;
    forall b ensures SameAccount(out, Get(Put(v, a, o), b), Get(Put(w, a, p), b)) {
      GetPut(v, a, o, b);
      GetPut(w, a, p, b);
      assert SameAccount(out, Get(v, b), Get(w, b));
    }
  }

  // ----- one step and back -----

  /** Undoing e leads from w' back to w. */
  ghost predicate Steps(out: Outside, w: World, e: Entry, w': World)
  {
    Fits(w', e) && Same(out, Undo(w', e), w)
  }

  /** A deleted object is no longer in the trie; storage that is dirty is cached. */
  ghost predicate Sane(w: World)
  {
    forall a :: a in w.objects ==> (w.objects[a].deleted ==> a !in w.accounts) && Tidy(w.objects[a])
  }

  lemma StepCreate(out: Outside, w: World, a: Address)
    requires Get(w, a).None? && Sane(w)
    ensures Steps(out, w, CreateObject(a), Put(w, a, Blank(out))) && Sane(Put(w, a, Blank(out)))
  {
    var w', e := Put(w, a, Blank(out)), CreateObject(a);
    forall b ensures SameAccount(out, Get(Undo(w', e), b), Get(w, b)) {
      if b != a { SameGet(out, w, b); }
    }
  }

  lemma SameGet(out: Outside, w: World, b: Address)
    ensures SameAccount(out, Get(w, b), Get(w, b))
  {
  }

  /** A live object is replaced or changed, and the entry can undo that. */
  lemma StepObj(out: Outside, w: World, a: Address, o: Obj, e: Entry)
    requires Get(w, a).Some? && !o.deleted && Tidy(o) && Sane(w) && !e.CreateObject? && !e.RefundChange? &&
             !e.TouchChange? && e.account == a
    requires e.ResetObject? ==> e.prev == Get(w, a).value
    requires SameObj(out, UndoObj(e, o), Get(w, a).value)
    ensures Steps(out, w, e, Put(w, a, o)) && Sane(Put(w, a, o))
  {
    hide SameObj, UndoObj;
    var w' := Put(w, a, o);
    GetPut(w, a, o, a);
    GetLive(w, a);
    GetTidy(w, a);
    if e.ResetObject? { ResetIs(e, o); } else { UndoLive(e, o); }
    forall b ensures SameAccount(out, Get(Undo(w', e), b), Get(w, b)) {
      GetPut(w', a, UndoObj(e, o), b);
      GetPut(w, a, o, b);
      if b != a { SameGet(out, w, b); }
    }
  }

  lemma GetTidy(w: World, a: Address)
    requires Get(w, a).Some? && Sane(w)
    ensures Tidy(Get(w, a).value)
  {
  }

  lemma ResetIs(e: Entry, o: Obj)
    requires e.ResetObject?
    ensures UndoObj(e, o) == e.prev
  {
  }

  lemma StepRefund(out: Outside, w: World, refund: nat)
    requires Sane(w)
    ensures Steps(out, w, RefundChange(w.refund), w.(refund := refund)) && Sane(w.(refund := refund))
  {
    var w', e := w.(refund := refund), RefundChange(w.refund);
    forall b ensures SameAccount(out, Get(Undo(w', e), b), Get(w, b)) { SameGet(out, w, b); }
  }

  lemma StepTouch(out: Outside, w: World, a: Address)
    ensures Steps(out, w, TouchChange(a), w)
  {
    forall b ensures SameAccount(out, Get(w, b), Get(w, b)) { SameGet(out, w, b); }
  }

  /** Loading an object into the cache shows nowhere. */
  lemma LoadSame(out: Outside, w: World, a: Address)
    requires Get(w, a).Some? && Sane(w)
    ensures Same(out, Put(w, a, Get(w, a).value), w) && Sane(Put(w, a, Get(w, a).value))
  {
    GetLive(w, a);
    GetTidy(w, a);
    forall b ensures SameAccount(out, Get(Put(w, a, Get(w, a).value), b), Get(w, b)) {
      GetPut(w, a, Get(w, a).value, b);
      SameGet(out, w, b);
    }
  }

  lemma SameRefl(out: Outside, w: World)
    ensures Same(out, w, w)
  {
    forall b ensures SameAccount(out, Get(w, b), Get(w, b)) { SameGet(out, w, b); }
  }
}
