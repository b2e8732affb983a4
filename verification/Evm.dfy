/**
 The virtual machine (core/vm/interpreter.go, evm.go, instructions.go, gas_table.go,
 gas.go; core/evm.go): fetching, charging and executing instructions, and calls that
 are rolled back when they fail. Gas is the measure by which every run ends.
 */
module Evm {
  import opened Bytes
  import opened StateWorld
  import opened DB = StateDB
  import opened EvmState
  import opened EvmMemory
  import Ops = EvmOps

  type Word = nat

  const CALL_VALUE_TRANSFER_GAS := 9000
  const SHA3_GAS := 30
  const SHA3_WORD_GAS := 6
  const COPY_GAS := 3
  const SSTORE_SET_GAS := 20000
  const SSTORE_RESET_GAS := 5000
  const SSTORE_CLEAR_GAS := 5000
  const SSTORE_REFUND_GAS := 15000
  const SUICIDE_REFUND_GAS := 24000
  const CALL_CREATE_DEPTH := 1024

  /** The gas table, the call stipend, and what lies outside: Keccak and the precompiled contracts. */
  datatype Rules = Rules(sload: nat, calls: nat, createBySuicide: nat, stipend: nat, noRecursion: bool,
                         keccak: seq<byte> -> Word, preGas: (Address, seq<byte>) -> nat,
                         pre: (Address, seq<byte>) -> seq<byte>)

  /** Prices are positive and small, and the stipend is covered by what a transfer costs. */
  ghost predicate RulesOk(r: Rules)
  {
    0 < r.sload < 0x1_0000_0000 && 0 < r.calls < 0x1_0000_0000 && r.stipend <= CALL_VALUE_TRANSFER_GAS
  }

  datatype Failure =
    | OutOfGas | GasOverflow | InvalidOpcode | StackUnderflow | StackOverflow | WriteProtection | InvalidJump
    | DepthExceeded | InsufficientBalance

  /** How a run ends; a crash is a Go panic that ends everything. */
  datatype Outcome = Done(ret: seq<byte>) | Failed(why: Failure) | Crash

  /** The contract being run. */
  datatype Ctx = Ctx(caller: Address, self: Address, code: seq<byte>, input: seq<byte>)

  // ----- gas -----

  /** callGas: how much gas a call gets, after what it costs itself. */
  function CallGas(r: Rules, available: nat, base: nat, asked: Word): Option<nat>
  {
    var rest := (available - base) % TWO_64;
    var cap := rest - rest / 64;
    if r.createBySuicide > 0 && (asked >= TWO_64 || cap < asked) then Some(cap)
    else if asked >= TWO_64 then None
    else Some(asked)
  }

  /** SafeAdd */
  function SafeAdd(x: nat, y: nat): Option<nat> { if x + y < TWO_64 then Some(x + y) else None }

  /** The price per word of data, added to a gas amount. */
  function AddWords(gas: nat, size: Word, price: nat): Option<nat>
  {
    if size >= TWO_64 then None
    else
      var cost := ToWordSize(size) * price;
      if cost >= TWO_64 then None else SafeAdd(gas, cost)
  }

  /** The gas functions that look at neither state nor available gas, given the memory fee. */
  function PlainGas(r: Rules, k: Ops.Kind, stack: seq<Word>, fee: nat): (g: Option<nat>)
    requires |stack| >= Ops.Pops(k) && !k.SStore? && !k.SelfDestruct? && !k.CallCode?
    ensures g.Some? && fee < TWO_64 && RulesOk(r) ==> g.value < TWO_64 && (!Ops.Halts(k) ==> g.value > 0)
  {
    match k
    case Stop => Some(0)
    case IsZero => Some(3)
    case Sha3 =>
      var g := SafeAdd(fee, SHA3_GAS);
      if g.None? then None else AddWords(g.value, Ops.Back(stack, 1), SHA3_WORD_GAS)
    case Self => Some(2)
    case Caller => Some(2)
    case CallDataLoad => Some(3)
    case CallDataCopy =>
      var g := SafeAdd(fee, 3);
      if g.None? then None else AddWords(g.value, Ops.Back(stack, 2), COPY_GAS)
    case MLoad => SafeAdd(fee, 3)
    case MStore => SafeAdd(fee, 3)
    case MStore8 => SafeAdd(fee, 3)
    case SLoad => Some(r.sload)
    case JumpI => Some(10)
    case MSize => Some(2)
    case JumpDest => Some(1)
    case Push(_) => Some(3)
    case Dup1 => Some(3)
    case Return => Some(fee)
  }

  /** gasCallCode: the price of the call and the gas handed on, which is part of it. */
  function CallCodeGas(r: Rules, stack: seq<Word>, fee: nat, available: nat): (g: Option<(nat, nat)>)
    requires |stack| >= 7
    ensures g.Some? && RulesOk(r) ==>
              && g.value.0 < TWO_64
              && g.value.0 >= r.calls + (if Ops.Back(stack, 2) != 0 then CALL_VALUE_TRANSFER_GAS else 0) + g.value.1
  {
    var base := r.calls + if Ops.Back(stack, 2) != 0 then CALL_VALUE_TRANSFER_GAS else 0;
    var g := SafeAdd(base, fee);
    if g.None? then None
    else
      var temp := CallGas(r, available, g.value, Ops.Back(stack, 0));
      if temp.None? then None
      else
        var cost := SafeAdd(g.value, temp.value);
        if cost.None? then None else Some((cost.value, temp.value))
  }

  // ----- what a piece of a run may do to the state -----

  /** World, journal and trace of a StateDB. */
  datatype Snap = Snap(world: World, log: Log, trace: Trace)

  /** Older snapshots stay usable, no money is made, and nothing shows if writing is forbidden. */
  ghost predicate Effect(out: Outside, s: Snap, t: Snap, readOnly: bool)
  {
    && Beyond(s.log, s.trace, t.log, t.trace) && Total(out, t.world) <= Total(out, s.world)
    && NonNegative(out, t.world) && (readOnly ==> Same(out, t.world, s.world))
  }

  lemma EffectTwice(out: Outside, s: Snap, t: Snap, u: Snap, readOnly: bool)
    requires Effect(out, s, t, readOnly) && Effect(out, t, u, readOnly)
    ensures Effect(out, s, u, readOnly)
  {
    hide Beyond, Total, NonNegative, Same;
    BeyondTwice(s.log, s.trace, t.log, t.trace, u.log, u.trace);
    if readOnly { SameTrans(out, u.world, t.world, s.world); }
  }

  lemma EffectRead(out: Outside, s: Snap, t: Snap, readOnly: bool)
    requires Same(out, t.world, s.world) && t.log == s.log && t.trace == s.trace && NonNegative(out, s.world)
    ensures Effect(out, s, t, readOnly)
  {
    hide Total, Same;
    TotalSame(out, t.world, s.world);
  }

  lemma EffectNone(out: Outside, s: Snap, readOnly: bool)
    requires NonNegative(out, s.world)
    ensures Effect(out, s, s, readOnly)
  {
    SameRefl(out, s.world);
    EffectRead(out, s, s, readOnly);
  }

  /** An amount has gone from one account to another, and no other balance has changed. */
  ghost predicate Moved(out: Outside, v: World, w: World, from: Address, to: Address, amount: nat)
  {
    && (forall b :: Bal(out, w, b) == Bal(out, v, b) - (if b == from then amount else 0) + if b == to then amount else 0)
    && Total(out, w) == Total(out, v)
  }

  /** The balance of a contract that ends has gone to its heir, and is lost if that is itself. */
  ghost predicate Emptied(out: Outside, v: World, w: World, self: Address, to: Address)
  {
    && (forall b :: Bal(out, w, b) == if b == self then 0 else Bal(out, v, b) + if b == to then Bal(out, v, self) else 0)
    && Total(out, w) == Total(out, v) - (if to == self then Bal(out, v, self) else 0)
    && (Get(v, self).Some? ==> OrNew(out, w, self).suicided)
  }

  ghost predicate SameMoney(out: Outside, v: World, w: World)
  {
    Total(out, w) == Total(out, v) && forall b :: Bal(out, w, b) == Bal(out, v, b)
  }

  lemma MovedAfter(out: Outside, v: World, m: World, w: World, from: Address, to: Address, amount: nat)
    requires SameMoney(out, v, m) && Moved(out, m, w, from, to, amount)
    ensures Moved(out, v, w, from, to, amount)
  {
    hide Bal, Total;
  }

  lemma EmptiedAfter(out: Outside, v: World, m: World, w: World, self: Address, to: Address)
    requires SameMoney(out, v, m) && Emptied(out, m, w, self, to) && (Get(v, self).Some? ==> Get(m, self).Some?)
    ensures Emptied(out, v, w, self, to)
  {
    hide Bal, Total, OrNew;
  }

  /** Nothing shows but that the refund counter has grown. */
  ghost predicate Refunded(out: Outside, v: World, w: World, gas: nat)
  {
    w.refund == (if gas == 0 then v.refund else (v.refund + gas) % TWO_64) && Same(out, w.(refund := v.refund), v)
  }

  lemma RefundedIs(out: Outside, v: World, m: World, w: World, gas: nat)
    requires Same(out, m, v) && w == m.(refund := if gas == 0 then m.refund else (m.refund + gas) % TWO_64)
    ensures Refunded(out, v, w, gas)
  {
    assert m.refund == v.refund;
    assert w.(refund := v.refund) == m;
  }

  /** One account is changed and no balance rises. */
  lemma EffectChange(out: Outside, s: Snap, t: Snap, a: Address, o: Obj)
    requires Changed(out, s.world, t.world, a, o) && Kept(s.log, t.log, s.trace, t.trace) && NonNegative(out, s.world)
    requires 0 <= o.balance <= Bal(out, s.world, a)
    ensures Effect(out, s, t, false)
  {
    hide Total, Beyond;
    KeptBeyond(s.log, t.log, s.trace, t.trace);
    TotalChange(out, s.world, t.world, a);
    forall b ensures Bal(out, t.world, b) >= 0 {
      if b != a { SameBal(out, s.world, t.world, b); }
    }
  }

  lemma EffectRefund(out: Outside, s: Snap, t: Snap, refund: nat)
    requires t.world == s.world.(refund := refund) && Kept(s.log, t.log, s.trace, t.trace) && NonNegative(out, s.world)
    ensures Effect(out, s, t, false)
  {
    hide Sum, Beyond;
    KeptBeyond(s.log, t.log, s.trace, t.trace);
    forall b ensures Bal(out, t.world, b) == Bal(out, s.world, b) { }
    SumSame(out, s.world, t.world, Known(s.world));
  }

  // ----- instructions that only touch stack, memory and code -----

  predicate IsPlain(k: Ops.Kind) { !k.SLoad? && !k.SStore? && !k.CallCode? && !k.SelfDestruct? }

  /** The stack after an instruction that does not halt. */
  function PlainStack(r: Rules, k: Ops.Kind, ctx: Ctx, pc: nat, stack: seq<Word>, store: seq<byte>): seq<Word>
    requires IsPlain(k) && |stack| >= Ops.Pops(k) && (k.JumpI? ==> |stack| >= 2) && Ops.TouchedSize(k, stack) <= |store|
  {
    match k
    case IsZero => Ops.Drop(stack, 1) + [if Ops.Back(stack, 0) > 0 then 0 else 1]
    case Sha3 => Ops.Drop(stack, 2) + [r.keccak(Region(store, Ops.Back(stack, 0), Ops.Back(stack, 1)))]
    case Self => stack + [ctx.self]
    case Caller => stack + [ctx.caller]
    case CallDataLoad => Ops.Drop(stack, 1) + [BigEndian(Ops.GetData(ctx.input, Ops.Back(stack, 0), 32))]
    case CallDataCopy => Ops.Drop(stack, 3)
    case MLoad => Ops.Drop(stack, 1) + [BigEndian(Region(store, Ops.Back(stack, 0), 32))]
    case MStore => Ops.Drop(stack, 2)
    case MStore8 => Ops.Drop(stack, 2)
    case JumpI => Ops.Drop(stack, 2)
    case MSize => stack + [|store|]
    case Push(n) => stack + [Ops.PushData(ctx.code, pc, n)]
    case Dup1 => stack + [Ops.Back(stack, 0)]
    case _ => stack
  }

  /** Memory with data written at an offset; no data may be written anywhere. */
  function Splice(store: seq<byte>, offset: nat, data: seq<byte>): seq<byte>
    requires data != [] ==> offset + |data| <= |store|
  {
    if data == [] then store else store[..offset] + data + store[offset + |data|..]
  }

  /** Nothing has changed outside a region. */
  ghost predicate Untouched(store: seq<byte>, after: seq<byte>, offset: nat, size: nat)
  {
    |after| == |store| && forall i :: 0 <= i < |store| && !(offset <= i < offset + size) ==> after[i] == store[i]
  }

  /** The memory after an instruction that does not halt. */
  function PlainStore(k: Ops.Kind, ctx: Ctx, stack: seq<Word>, store: seq<byte>): seq<byte>
    requires IsPlain(k) && |stack| >= Ops.Pops(k) && Ops.TouchedSize(k, stack) <= |store|
  {
    match k
    case MStore => Splice(store, Ops.Back(stack, 0), Ops.Bytes32(Ops.Back(stack, 1), 32))
    case MStore8 => Splice(store, Ops.Back(stack, 0), [Ops.Back(stack, 1) % 256])
    case CallDataCopy => Splice(store, Ops.Back(stack, 0), Ops.GetData(ctx.input, Ops.Back(stack, 1), Ops.Back(stack, 2)))
    case _ => store
  }

  function NextPc(k: Ops.Kind, pc: nat, stack: seq<Word>): nat
    requires k.JumpI? ==> |stack| >= 2
  {
    match k
    case Push(n) => pc + 1 + n
    case JumpI => if Ops.Back(stack, 1) == 0 then pc + 1 else Ops.Back(stack, 0)
    case _ => pc + 1
  }

  /** A region of memory; an empty one may lie anywhere. */
  function Region(store: seq<byte>, offset: nat, size: nat): seq<byte>
    requires Ops.CalcMemSize(offset, size) <= |store|
  {
    if size == 0 then [] else store[offset..offset + size]
  }

  /** What SLOAD pushes, SSTORE changes and SELFDESTRUCT moves. */
  ghost predicate StateDone(out: Outside, k: Ops.Kind, self: Address, stack: seq<Word>, v: World, w: World,
                            stack': seq<Word>)
  {
    && |stack| >= Ops.Pops(k)
    && (k.SLoad? ==> stack' == Ops.Drop(stack, 1) + [StateOf(OrNew(out, v, self), Ops.Back(stack, 0))] && Same(out, w, v))
    && (k.SStore? ==>
          && stack' == Ops.Drop(stack, 2)
          && Changed(out, v, w, self, SetState(OrNew(out, v, self), Ops.Back(stack, 0), Ops.Back(stack, 1))))
    && (k.SelfDestruct? ==> Emptied(out, v, w, self, Ops.Back(stack, 0) % Ops.TWO_160))
  }

  function Fetch(ctx: Ctx, pc: nat): Option<Ops.Kind> { Ops.Decode(if pc < |ctx.code| then ctx.code[pc] else 0) }

  /** What the loop checks before it asks for the price. */
  function Refusal(ctx: Ctx, pc: nat, stack: seq<Word>, readOnly: bool): Option<Failure>
  {
    match Fetch(ctx, pc)
    case None => Some(InvalidOpcode)
    case Some(k) =>
      if |stack| < Ops.Pops(k) then Some(StackUnderflow)
      else if |stack| + Ops.Pushes(k) - Ops.Pops(k) > Ops.STACK_LIMIT then Some(StackOverflow)
      else if readOnly && Ops.Writes(k) then Some(WriteProtection)
      else if Ops.MemorySize(k, stack).None? then Some(GasOverflow)
      else None
  }

  function Grown(store: seq<byte>, size: nat): seq<byte>
  {
    if size <= |store| then store else store + seq(size - |store|, _ => 0 as byte)
  }

  /** An instruction that only works on stack, memory and code has done its work, in memory that was grown first. */
  ghost predicate Worked(r: Rules, ctx: Ctx, pc: nat, stack: seq<Word>, store: seq<byte>, pc': nat, stack': seq<Word>,
                         store': seq<byte>)
  {
    var k := Fetch(ctx, pc);
    k.Some? && IsPlain(k.value) ==>
      && |stack| >= Ops.Pops(k.value) && (k.value.JumpI? ==> |stack| >= 2) && Ops.MemorySize(k.value, stack).Some?
      && var room := Grown(store, Ops.MemorySize(k.value, stack).value);
         && Ops.TouchedSize(k.value, stack) <= |room|
         && stack' == PlainStack(r, k.value, ctx, pc, stack, room)
         && store' == PlainStore(k.value, ctx, stack, room)
         && pc' == NextPc(k.value, pc, stack)
  }

  ghost predicate Priced(r: Rules, k: Ops.Kind, stack: seq<Word>, fee: int, cost: int)
  {
    IsPlain(k) && |stack| >= Ops.Pops(k) ==> fee >= 0 && cost >= 0 && PlainGas(r, k, stack, fee) == Some(cost)
  }

  /** The price of a call covers the gas that is handed on, and more if value goes with it. */
  ghost predicate Covered(r: Rules, stack: seq<Word>, cost: int, handed: nat)
  {
    |stack| >= 7 && cost >= r.calls + (if Ops.Back(stack, 2) != 0 then CALL_VALUE_TRANSFER_GAS else 0) + handed
  }

  /** It has cost the price of the instruction and of the memory it took. */
  ghost predicate Paid(r: Rules, ctx: Ctx, pc: nat, stack: seq<Word>, fee: int, cost: int)
  {
    var k := Fetch(ctx, pc);
    k.Some? && |stack| >= Ops.Pops(k.value) ==>
      var size := Ops.MemorySize(k.value, stack);
      size.Some? && size.value / 32 < 0x1_0000_0000 ==> Priced(r, k.value, stack, fee, cost)
  }

  class Machine {
    const db: DB.StateDB
    const rules: Rules
    var depth: nat
    var readOnly: bool
    var callGasTemp: nat

    ghost predicate Valid()
      reads this, db
    {
      db.Valid() && RulesOk(rules) && NonNegative(db.out, db.world)
    }

    /** NewEVM */
    constructor (db: DB.StateDB, rules: Rules)
      requires db.Valid() && RulesOk(rules) && NonNegative(db.out, db.world)
      ensures Valid() && this.db == db && this.rules == rules && depth == 0 && !readOnly
    {
      this.db, this.rules, depth, readOnly, callGasTemp := db, rules, 0, false, 0;
    }

    ghost function Now(): Snap
      reads this, db
    {
      Snap.Snap(db.world, db.log, db.trace)
    }

    /** gasCost of an instruction; the memory fee is noted, and refunds are booked. */
    method Price(k: Ops.Kind, self: Address, stack: seq<Word>, mem: Memory, size: nat, gas: nat)
      returns (cost: Option<nat>)
      requires Valid() && mem.Valid() && |stack| >= Ops.Pops(k) && Ops.MemorySize(k, stack) == Some(size) &&
               (readOnly ==> !Ops.Writes(k))
      modifies db, mem`lastGasCost, mem`paid, this`callGasTemp
      ensures Valid() && Effect(db.out, old(Now()), Now(), readOnly)
      ensures cost.Some? ==> mem.Charged(size) && cost.value < TWO_64 && (!Ops.Halts(k) ==> cost.value > 0)
      ensures cost.Some? && size / 32 < 0x1_0000_0000 ==> Priced(rules, k, stack, mem.paid - old(mem.paid), cost.value)
      ensures cost.Some? && k.CallCode? ==> Covered(rules, stack, cost.value, callGasTemp)
    {
      hide Good, Effect, Total, Beyond, Same, NonNegative, Kept, TotalFee, ExactFee, Ops.TouchedSize;
      EffectNone(db.out, Now(), readOnly);
      if k.SStore? {
        cost := PriceStore(self, stack);
        NoMemory(k, stack, mem, size);
        return;
      }
      if k.SelfDestruct? {
        PriceSuicide(self);
        NoMemory(k, stack, mem, size);
        return Some(0);
      }
      var fee := mem.GasCost(size);
      if fee.None? { return None; }
      if k.CallCode? {
        var g := CallCodeGas(rules, stack, fee.value, gas);
        if g.None? { return None; }
        callGasTemp := g.value.1;
        return Some(g.value.0);
      }
      cost := PlainGas(rules, k, stack, fee.value);
    }

    /** gasSStore */
    method PriceStore(self: Address, stack: seq<Word>) returns (cost: Option<nat>)
      requires Valid() && |stack| >= 2 && !readOnly
      modifies db
      ensures Valid() && Effect(db.out, old(Now()), Now(), readOnly)
      ensures var val := StateOf(OrNew(db.out, old(db.world), self), Ops.Back(stack, 0));
              var cleared := val != 0 && Ops.Back(stack, 1) == 0;
              && cost == Some(if val == 0 && Ops.Back(stack, 1) != 0 then SSTORE_SET_GAS
                              else if cleared then SSTORE_CLEAR_GAS else SSTORE_RESET_GAS)
              && Refunded(db.out, old(db.world), db.world, if cleared then SSTORE_REFUND_GAS else 0)
    {
      hide Good, Effect, Total, Beyond, Same, NonNegative, Refunded, StateOf, OrNew;
      var y, x := Ops.Back(stack, 1), Ops.Back(stack, 0);
      var val := db.GetState(self, x);
      EffectRead(db.out, old(Now()), Now(), readOnly);
      EffectNonNegative(db.out, old(Now()), Now(), readOnly);
      RefundedIs(db.out, old(db.world), db.world, db.world, 0);
      if val == 0 && y != 0 { return Some(SSTORE_SET_GAS); }
      if val != 0 && y == 0 {
        ghost var mid := Now();
        db.AddRefund(SSTORE_REFUND_GAS);
        RefundedIs(db.out, old(db.world), mid.world, db.world, SSTORE_REFUND_GAS);
        EffectRefund(db.out, mid, Now(), db.world.refund);
        EffectTwice(db.out, old(Now()), mid, Now(), readOnly);
        EffectNonNegative(db.out, old(Now()), Now(), readOnly);
        return Some(SSTORE_CLEAR_GAS);
      }
      return Some(SSTORE_RESET_GAS);
    }

    /** gasSuicide */
    method PriceSuicide(self: Address)
      requires Valid() && !readOnly
      modifies db
      ensures Valid() && Effect(db.out, old(Now()), Now(), readOnly)
      ensures Refunded(db.out, old(db.world), db.world,
                       if OrNew(db.out, old(db.world), self).suicided then 0 else SUICIDE_REFUND_GAS)
    {
      hide Good, Effect, Total, Beyond, Same, NonNegative, Refunded, OrNew;
      var dead := db.HasSuicided(self);
      EffectRead(db.out, old(Now()), Now(), readOnly);
      EffectNonNegative(db.out, old(Now()), Now(), readOnly);
      RefundedIs(db.out, old(db.world), db.world, db.world, 0);
      if !dead {
        ghost var mid := Now();
        db.AddRefund(SUICIDE_REFUND_GAS);
        RefundedIs(db.out, old(db.world), mid.world, db.world, SUICIDE_REFUND_GAS);
        EffectRefund(db.out, mid, Now(), db.world.refund);
        EffectTwice(db.out, old(Now()), mid, Now(), readOnly);
        EffectNonNegative(db.out, old(Now()), Now(), readOnly);
      }
    }

    /** Instructions on stack, memory and code. JUMPI crashes on a stack of one element. */
    method ExecPlain(k: Ops.Kind, ctx: Ctx, pc: nat, stack: seq<Word>, mem: Memory)
      returns (o: Option<Outcome>, pc': nat, stack': seq<Word>)
      requires IsPlain(k) && mem.Valid() && Ops.Pops(k) <= |stack| &&
               |stack| + Ops.Pushes(k) - Ops.Pops(k) <= Ops.STACK_LIMIT
      requires Ops.TouchedSize(k, stack) <= |mem.store|
      modifies mem`store
      ensures mem.Valid() && |mem.store| == |old(mem.store)|
      ensures o == Some(Crash) <==> k.JumpI? && |stack| == 1
      ensures o.None? <==>
                && !Ops.Halts(k)
                && (k.JumpI? ==> |stack| > 1 && (Ops.Back(stack, 1) == 0 || Ops.JumpTarget(ctx.code, Ops.Back(stack, 0))))
      ensures o.None? ==> stack' == PlainStack(rules, k, ctx, pc, stack, old(mem.store)) && |stack'| <= Ops.STACK_LIMIT
      ensures o.None? ==> pc' == NextPc(k, pc, stack)
      ensures k.Return? ==> o == Some(Done(Region(old(mem.store), Ops.Back(stack, 0), Ops.Back(stack, 1))))
      ensures k.Stop? ==> o == Some(Done([]))
      ensures mem.store == PlainStore(k, ctx, stack, old(mem.store))
    {
      hide TotalFee, ExactFee, Ops.JumpTarget, Ops.GetData, Ops.PushData, Ops.Bytes32;
      o, pc', stack' := None, pc + 1, stack;
      if k.JumpI? {
        if |stack| == 1 { return Some(Crash), pc, stack; }
        if Ops.Back(stack, 1) != 0 {
          if !Ops.JumpTarget(ctx.code, Ops.Back(stack, 0)) { return Some(Failed(InvalidJump)), pc, stack; }
          pc' := Ops.Back(stack, 0);
        }
      }
      if k.Stop? { return Some(Done([])), pc, stack; }
      if k.Return? {
        var ret := mem.Read(Ops.Back(stack, 0), Ops.Back(stack, 1));
        return Some(Done(ret)), pc, stack;
      }
      stack' := PlainStack(rules, k, ctx, pc, stack, mem.store);
      if k.Push? { pc' := pc + 1 + k.n; }
      Writing(k, ctx, stack, mem);
    }

    /** The memory side of MSTORE, MSTORE8 and CALLDATACOPY. */
    method Writing(k: Ops.Kind, ctx: Ctx, stack: seq<Word>, mem: Memory)
      requires IsPlain(k) && mem.Valid() && Ops.Pops(k) <= |stack| && Ops.TouchedSize(k, stack) <= |mem.store|
      modifies mem`store
      ensures mem.Valid() && |mem.store| == |old(mem.store)|
      ensures mem.store == PlainStore(k, ctx, stack, old(mem.store))
    {
      hide TotalFee, ExactFee, Ops.GetData, Ops.Bytes32;
      ghost var before := mem.store;
      if k.MStore? {
        mem.Set(Ops.Back(stack, 0), 32, Ops.Bytes32(Ops.Back(stack, 1), 32));
        SpliceIs(before, Ops.Back(stack, 0), Ops.Bytes32(Ops.Back(stack, 1), 32), mem.store);
      } else if k.MStore8? {
        mem.Set(Ops.Back(stack, 0), 1, [Ops.Back(stack, 1) % 256]);
        SpliceIs(before, Ops.Back(stack, 0), [Ops.Back(stack, 1) % 256], mem.store);
      } else if k.CallDataCopy? {
        mem.Set(Ops.Back(stack, 0), Ops.Back(stack, 2), Ops.GetData(ctx.input, Ops.Back(stack, 1), Ops.Back(stack, 2)));
        SpliceIs(before, Ops.Back(stack, 0), Ops.GetData(ctx.input, Ops.Back(stack, 1), Ops.Back(stack, 2)), mem.store);
      }
    }

    /** SLOAD, SSTORE and SELFDESTRUCT. */
    method ExecState(k: Ops.Kind, ctx: Ctx, stack: seq<Word>) returns (o: Option<Outcome>, stack': seq<Word>)
      requires Valid() && (k.SLoad? || k.SStore? || k.SelfDestruct?) && Ops.Pops(k) <= |stack| <= Ops.STACK_LIMIT &&
               (readOnly ==> !Ops.Writes(k))
      modifies db
      ensures Valid() && Effect(db.out, old(Now()), Now(), readOnly)
      ensures o == (if k.SelfDestruct? then Some(Done([])) else None) && |stack'| <= Ops.STACK_LIMIT
      ensures StateDone(db.out, k, ctx.self, stack, old(db.world), db.world, stack')
    {
      hide Good, Effect, Total, Beyond, Same, NonNegative, Changed, Kept, Emptied, StateOf;
      if k.SLoad? {
        var val := db.GetState(ctx.self, Ops.Back(stack, 0));
        EffectRead(db.out, old(Now()), Now(), readOnly);
        EffectNonNegative(db.out, old(Now()), Now(), readOnly);
        return None, Ops.Drop(stack, 1) + [val];
      }
      NotNegative(db.out, db.world, ctx.self);
      if k.SStore? {
        db.SetStorage(ctx.self, Ops.Back(stack, 0), Ops.Back(stack, 1));
        EffectChange(db.out, old(Now()), Now(), ctx.self,
                     SetState(OrNew(db.out, old(db.world), ctx.self), Ops.Back(stack, 0), Ops.Back(stack, 1)));
        EffectNonNegative(db.out, old(Now()), Now(), readOnly);
        return None, Ops.Drop(stack, 2);
      }
      SelfDestruct(ctx.self, Ops.Back(stack, 0) % Ops.TWO_160);
      return Some(Done([])), Ops.Drop(stack, 1);
    }

    /** opSuicide: the balance goes to the beneficiary, and is lost if that is the contract itself. */
    method SelfDestruct(self: Address, to: Address)
      requires Valid() && !readOnly
      modifies db
      ensures Valid() && Effect(db.out, old(Now()), Now(), readOnly)
      ensures Emptied(db.out, old(db.world), db.world, self, to)
    {
      hide Good, Effect, Total, Beyond, Same, NonNegative, Changed, Kept, Emptied, SameMoney;
      var balance := db.GetBalance(self);
      ghost var s0 := Now();
      EffectRead(db.out, old(Now()), s0, readOnly);
      EffectNonNegative(db.out, old(Now()), s0, readOnly);
      SameBalances(db.out, old(db.world), db.world, self);
      db.AddBalance(to, balance);
      ghost var s1 := Now();
      var ok := db.Suicide(self);
      EffectSuicide(db.out, s0, s1, Now(), self, to, ok);
      MoneySame(db.out, old(db.world), s0.world, self);
      EmptiedAfter(db.out, old(db.world), s0.world, db.world, self, to);
      EffectTwice(db.out, old(Now()), s0, Now(), readOnly);
      EffectNonNegative(db.out, old(Now()), Now(), readOnly);
    }

    /** RevertToSnapshot on the snapshot taken in state s. */
    method Rollback(id: nat, ghost s: Snap)
      requires db.Valid() && Good(db.out, s.world, s.log, s.trace) && NonNegative(db.out, s.world) && RulesOk(rules)
      requires id == s.log.nextId && Beyond(Snapped(s).log, Snapped(s).trace, db.log, db.trace)
      modifies db
      ensures Valid() && Same(db.out, db.world, s.world) && Effect(db.out, s, Now(), readOnly)
    {
      hide Good, Effect, Total, Same, NonNegative, Saves;
      GoodSorted(db.out, db.world, db.log, db.trace);
      GoodSorted(db.out, s.world, s.log, s.trace);
      ghost var l1, t1 := db.log, db.trace;
      SnapshotAt(db.log, db.trace, s, id);
      SnapshotBeyond(s.log, s.trace, s.world);
      BeyondTwice(s.log, s.trace, Snapped(s).log, Snapped(s).trace, db.log, db.trace);
      var ok := db.RevertToSnapshot(id);
      RevertBeyond(s.log, s.trace, l1, t1, db.log, db.trace, id);
      EffectBack(db.out, s, Now(), readOnly);
    }

    /** One round of the interpreter's loop. An instruction that does not halt strictly lowers the gas. */
    method Step(ctx: Ctx, pc: nat, gas: nat, stack: seq<Word>, mem: Memory)
      returns (o: Option<Outcome>, pc': nat, gas': nat, stack': seq<Word>)
      requires Valid() && mem.Valid() && gas < TWO_64 && |stack| <= Ops.STACK_LIMIT
      modifies this`depth, this`callGasTemp, db, mem
      ensures Valid() && Effect(db.out, old(Now()), Now(), readOnly) && depth == old(depth)
      ensures gas' <= gas && (o.None? ==> mem.Valid() && gas' < gas && |stack'| <= Ops.STACK_LIMIT)
      ensures Refusal(ctx, pc, stack, readOnly).Some? ==>
                o == Some(Failed(Refusal(ctx, pc, stack, readOnly).value)) && gas' == gas && db.world == old(db.world)
      ensures o.None? ==>
                && Worked(rules, ctx, pc, stack, old(mem.store), pc', stack', mem.store)
                && Paid(rules, ctx, pc, stack, mem.paid - old(mem.paid), gas - gas')
      decreases gas, 2
    {
      hide Good, Effect, Total, Beyond, Same, NonNegative, Changed, Kept, TotalFee, ExactFee, Ops.MemorySize,
           Ops.TouchedSize,
           PlainStack, PlainStore, PlainGas, Region, Ops.Decode, Fetch, Worked, Paid, Grown, NextPc;
      o, pc', gas', stack' := None, pc, gas, stack;
      EffectNone(db.out, Now(), readOnly);
      var kind := Fetch(ctx, pc);
      if kind.None? { return Some(Failed(InvalidOpcode)), pc, gas, stack; }
      var k := kind.value;
      if |stack| < Ops.Pops(k) { return Some(Failed(StackUnderflow)), pc, gas, stack; }
      if |stack| + Ops.Pushes(k) - Ops.Pops(k) > Ops.STACK_LIMIT { return Some(Failed(StackOverflow)), pc, gas, stack; }
      if readOnly && Ops.Writes(k) { return Some(Failed(WriteProtection)), pc, gas, stack; }
      var size := Ops.MemorySize(k, stack);
      if size.None? { return Some(Failed(GasOverflow)), pc, gas, stack; }
      var cost := Price(k, ctx.self, stack, mem, size.value, gas);
      if cost.None? || gas < cost.value { return Some(Failed(OutOfGas)), pc, gas, stack; }
      ghost var mid := Now();
      mem.Resize(size.value);
      GrownIs(old(mem.store), size.value, mem.store);
      ghost var room := mem.store;
      EffectNone(db.out, Now(), readOnly);
      o, pc', gas', stack' := Execute(k, ctx, pc, gas - cost.value, stack, mem, gas);
      EffectTwice(db.out, old(Now()), mid, Now(), readOnly);
      if o.None? {
        WorkedIs(rules, ctx, pc, stack, old(mem.store), room, pc', stack', mem.store);
        PaidIs(rules, ctx, pc, stack, mem.paid - old(mem.paid), gas - gas');
      }
    }

    /** Execution, once the gas has been paid and the memory resized. */
    method Execute(k: Ops.Kind, ctx: Ctx, pc: nat, gas: nat, stack: seq<Word>, mem: Memory, ghost before: nat)
      returns (o: Option<Outcome>, pc': nat, gas': nat, stack': seq<Word>)
      requires Valid() && mem.Valid() && before < TWO_64 && Ops.Pops(k) <= |stack| <= Ops.STACK_LIMIT
      requires |stack| + Ops.Pushes(k) - Ops.Pops(k) <= Ops.STACK_LIMIT
      requires Ops.TouchedSize(k, stack) <= |mem.store| && (readOnly ==> !Ops.Writes(k)) && gas <= before &&
               (!Ops.Halts(k) ==> gas < before)
      requires k.CallCode? ==> Covered(rules, stack, before - gas, callGasTemp)
      modifies this`depth, this`callGasTemp, db, mem`store
      ensures Valid() && mem.Valid() && Effect(db.out, old(Now()), Now(), readOnly) && depth == old(depth)
      ensures gas' <= before && (o.None? ==> gas' < before && |stack'| <= Ops.STACK_LIMIT)
      ensures IsPlain(k) ==> gas' == gas
      ensures IsPlain(k) && o.None? ==>
                && (k.JumpI? ==> |stack| >= 2)
                && stack' == PlainStack(rules, k, ctx, pc, stack, old(mem.store))
                && mem.store == PlainStore(k, ctx, stack, old(mem.store)) && pc' == NextPc(k, pc, stack)
      decreases before, 1
    {
      hide Good, Effect, Total, Beyond, Same, NonNegative, Changed, Kept, TotalFee, ExactFee, PlainStack, PlainStore,
           NextPc, Region;
      pc', gas', stack' := pc + 1, gas, stack;
      if IsPlain(k) {
        EffectNone(db.out, Now(), readOnly);
        o, pc', stack' := ExecPlain(k, ctx, pc, stack, mem);
      } else if k.CallCode? {
        o, gas', stack' := ExecCall(ctx, gas, stack, mem, before);
      } else {
        o, stack' := ExecState(k, ctx, stack);
      }
    }

    /** opCallCode: the gas handed on is less than the caller had, and what is left comes back. */
    method ExecCall(ctx: Ctx, gas: nat, stack: seq<Word>, mem: Memory, ghost before: nat)
      returns (o: Option<Outcome>, gas': nat, stack': seq<Word>)
      requires Valid() && mem.Valid() && before < TWO_64 && 7 <= |stack| <= Ops.STACK_LIMIT &&
               Ops.TouchedSize(Ops.CallCode, stack) <= |mem.store|
      requires Covered(rules, stack, before - gas, callGasTemp)
      modifies this`depth, this`callGasTemp, db, mem`store
      ensures Valid() && mem.Valid() && Effect(db.out, old(Now()), Now(), readOnly) && depth == old(depth)
      ensures gas' < before && |stack'| <= Ops.STACK_LIMIT && (o.Some? ==> o.value == Crash)
      ensures |stack'| == |stack| - 6 && Ops.Drop(stack', 1) == Ops.Drop(stack, 7) && Ops.Back(stack', 0) <= 1
      ensures o.None? && Ops.Back(stack', 0) == 0 ==>
                Same(db.out, db.world, old(db.world)) && mem.store == old(mem.store)
      ensures Untouched(old(mem.store), mem.store, Ops.Back(stack, 5), Ops.Back(stack, 6))
      decreases before, 0
    {
      hide Good, Effect, Total, Beyond, Same, NonNegative, TotalFee, ExactFee;
      var to, value := Ops.Back(stack, 1) % Ops.TWO_160, Ops.Back(stack, 2) % Ops.TWO_256;
      var args := mem.Read(Ops.Back(stack, 3), Ops.Back(stack, 4));
      var handed := callGasTemp + if value != 0 then rules.stipend else 0;
      var r, left := CallCode(ctx.self, to, args, handed, value);
      gas', stack' := gas + left, Ops.Drop(stack, 7) + [if r.Done? then 1 else 0];
      if r.Crash? { return Some(Crash), gas', stack'; }
      if r.Done? { mem.Set(Ops.Back(stack, 5), Ops.Back(stack, 6), r.ret); }
      return None, gas', stack';
    }

    /** Interpreter.Run: gas never rises, and the loop ends because it falls. */
    method Run(ctx: Ctx, gas: nat) returns (r: Outcome, left: nat)
      requires Valid() && gas < TWO_64
      modifies this`depth, this`callGasTemp, db
      ensures Valid() && Effect(db.out, old(Now()), Now(), readOnly) && depth == old(depth) && left <= gas
      decreases gas, 3
    {
      hide Good, Effect, Total, Beyond, Same, NonNegative, TotalFee, ExactFee;
      depth := depth + 1;
      EffectNone(db.out, Now(), readOnly);
      left := gas;
      if ctx.code == [] {
        depth := depth - 1;
        return Done([]), left;
      }
      var mem := new Memory();
      var pc, stack := 0, [];
      while true
        invariant Valid() && mem.Valid() && fresh(mem) && |stack| <= Ops.STACK_LIMIT && left <= gas &&
                  depth == old(depth) + 1
        invariant Effect(db.out, old(Now()), Now(), readOnly)
        decreases left
      {
        ghost var mid := Now();
        var o;
        o, pc, left, stack := Step(ctx, pc, left, stack, mem);
        EffectTwice(db.out, old(Now()), mid, Now(), readOnly);
        if o.Some? {
          depth := depth - 1;
          return o.value, left;
        }
      }
    }

    /** run: a precompiled contract, or the interpreter. */
    method RunContract(addr: Address, ctx: Ctx, gas: nat) returns (r: Outcome, left: nat)
      requires Valid() && gas < TWO_64
      modifies this`depth, this`callGasTemp, db
      ensures Valid() && Effect(db.out, old(Now()), Now(), readOnly) && depth == old(depth) && left <= gas
      decreases gas, 4
    {
      hide Good, Effect, Total, Beyond, Same, NonNegative;
      EffectNone(db.out, Now(), readOnly);
      if 1 <= addr <= 4 {
        var cost := rules.preGas(addr, ctx.input);
        if gas < cost { return Failed(OutOfGas), gas; }
        return Done(rules.pre(addr, ctx.input)), gas - cost;
      }
      r, left := Run(ctx, gas);
    }

    /** The common part of the calls: run the code at addr in a snapshot, and roll back on failure. */
    method Guarded(caller: Address, self: Address, addr: Address, input: seq<byte>, gas: nat)
      returns (r: Outcome, left: nat)
      requires Valid() && gas < TWO_64
      modifies this`depth, this`callGasTemp, db
      ensures Valid() && Effect(db.out, old(Now()), Now(), readOnly) && depth == old(depth) && left <= gas
      ensures r.Failed? ==> Same(db.out, db.world, old(db.world)) && left == 0
      decreases gas, 5
    {
      hide Good, Effect, Total, Beyond, Same, NonNegative;
      ghost var s := Now();
      var id := db.Snapshot();
      var code := db.GetCode(addr);
      SnapEffect(db.out, s, Now(), readOnly);
      ghost var mid := Now();
      r, left := RunContract(addr, Ctx(caller, self, code, input), gas);
      EffectTwice(db.out, s, mid, Now(), readOnly);
      if r.Failed? {
        EffectBeyond(db.out, mid, Now(), readOnly);
        BeyondTwice(Snapped(s).log, Snapped(s).trace, mid.log, mid.trace, db.log, db.trace);
        Rollback(id, s);
        left := 0;
      }
    }

    /** EVM.CallCode: foreign code runs on the caller's own account. */
    method CallCode(caller: Address, addr: Address, input: seq<byte>, gas: nat, value: nat)
      returns (r: Outcome, left: nat)
      requires Valid() && gas < TWO_64
      modifies this`depth, this`callGasTemp, db
      ensures Valid() && Effect(db.out, old(Now()), Now(), readOnly) && depth == old(depth) && left <= gas
      ensures r.Failed? ==> Same(db.out, db.world, old(db.world))
      decreases gas, 6
    {
      hide Good, Effect, Total, Beyond, Same, NonNegative;
      EffectNone(db.out, Now(), readOnly);
      SameRefl(db.out, db.world);
      if rules.noRecursion && depth > 0 { return Done([]), gas; }
      if depth > CALL_CREATE_DEPTH { return Failed(DepthExceeded), gas; }
      var balance := db.GetBalance(caller);
      EffectRead(db.out, old(Now()), Now(), readOnly);
      EffectNonNegative(db.out, old(Now()), Now(), readOnly);
      if balance < value { return Failed(InsufficientBalance), gas; }
      ghost var mid := Now();
      r, left := Guarded(caller, caller, addr, input, gas);
      EffectTwice(db.out, old(Now()), mid, Now(), readOnly);
      if r.Failed? { SameTrans(db.out, db.world, mid.world, old(db.world)); }
    }

    /** EVM.StaticCall: whatever the code does and however it ends, nothing can be observed afterwards. */
    method StaticCall(caller: Address, addr: Address, input: seq<byte>, gas: nat) returns (r: Outcome, left: nat)
      requires Valid() && gas < TWO_64
      modifies this, db
      ensures Valid() && Effect(db.out, old(Now()), Now(), true) && depth == old(depth) && readOnly == old(readOnly) &&
              left <= gas
      ensures Same(db.out, db.world, old(db.world))
    {
      hide Good, Effect, Total, Beyond, Same, NonNegative;
      EffectNone(db.out, Now(), true);
      SameRefl(db.out, db.world);
      if rules.noRecursion && depth > 0 { return Done([]), gas; }
      if depth > CALL_CREATE_DEPTH { return Failed(DepthExceeded), gas; }
      var was := readOnly;
      readOnly := true;
      r, left := Guarded(caller, addr, addr, input, gas);
      readOnly := was;
      EffectSame(db.out, old(Now()), Now());
    }

    /**
     EVM.Call: moves the value and runs the code. If it fails, nothing can be observed
     afterwards; in any case the sum of all balances does not rise and gas does not
     rise.
     */
    method Call(caller: Address, addr: Address, input: seq<byte>, gas: nat, value: nat) returns (r: Outcome, left: nat)
      requires Valid() && gas < TWO_64 && !readOnly
      modifies this`depth, this`callGasTemp, db
      ensures Valid() && Effect(db.out, old(Now()), Now(), false) && depth == old(depth) && left <= gas
      ensures r.Failed? ==> Same(db.out, db.world, old(db.world))
      ensures Total(db.out, db.world) <= Total(db.out, old(db.world))
    {
      hide Good, Effect, Total, Beyond, Same, NonNegative;
      EffectNone(db.out, Now(), false);
      SameRefl(db.out, db.world);
      if rules.noRecursion && depth > 0 { return Done([]), gas; }
      if depth > CALL_CREATE_DEPTH { return Failed(DepthExceeded), gas; }
      var balance := db.GetBalance(caller);
      SameBalances(db.out, old(db.world), db.world, caller);
      EffectRead(db.out, old(Now()), Now(), false);
      EffectNonNegative(db.out, old(Now()), Now(), false);
      EffectTotal(db.out, old(Now()), Now(), false);
      if balance < value { return Failed(InsufficientBalance), gas; }
      ghost var s := Now();
      var id := db.Snapshot();
      ghost var snapped := Now();
      SameRefl(db.out, db.world);
      SnapEffect(db.out, s, snapped, false);
      Transfer(caller, addr, value);
      ghost var moved := Now();
      EffectTwice(db.out, s, snapped, moved, false);
      EffectBeyond(db.out, snapped, moved, false);
      r, left := RunTransferred(caller, addr, input, gas, id, s);
      EffectTwice(db.out, old(Now()), s, Now(), false);
      EffectTotal(db.out, old(Now()), Now(), false);
      if r.Failed? { SameTrans(db.out, db.world, s.world, old(db.world)); }
    }

    /** The rest of Call, after the transfer: s is the state before the snapshot. */
    method RunTransferred(caller: Address, addr: Address, input: seq<byte>, gas: nat, id: nat, ghost s: Snap)
      returns (r: Outcome, left: nat)
      requires Valid() && gas < TWO_64 && !readOnly && Good(db.out, s.world, s.log, s.trace) &&
               NonNegative(db.out, s.world)
      requires id == s.log.nextId && Effect(db.out, s, Now(), false) &&
               Beyond(Snapped(s).log, Snapped(s).trace, db.log, db.trace)
      modifies this`depth, this`callGasTemp, db
      ensures Valid() && Effect(db.out, s, Now(), false) && depth == old(depth) && left <= gas
      ensures r.Failed? ==> Same(db.out, db.world, s.world)
    {
      hide Good, Effect, Total, Beyond, Same, NonNegative;
      var code := db.GetCode(addr);
      EffectRead(db.out, old(Now()), Now(), false);
      EffectNonNegative(db.out, old(Now()), Now(), false);
      ghost var mid := Now();
      r, left := RunContract(addr, Ctx(caller, addr, code, input), gas);
      EffectTwice(db.out, old(Now()), mid, Now(), false);
      EffectTwice(db.out, s, old(Now()), Now(), false);
      if r.Failed? {
        EffectBeyond(db.out, old(Now()), Now(), false);
        BeyondTwice(Snapped(s).log, Snapped(s).trace, old(db.log), old(db.trace), db.log, db.trace);
        Rollback(id, s);
        left := 0;
      }
    }

    /** CreateAccount if needed, and Transfer: the sum of all balances stays. */
    method Transfer(caller: Address, to: Address, value: nat)
      requires Valid() && value <= Bal(db.out, db.world, caller)
      modifies db
      ensures Valid() && Effect(db.out, old(Now()), Now(), false)
      ensures Moved(db.out, old(db.world), db.world, caller, to, value)
    {
      hide Good, Effect, Total, Beyond, Same, NonNegative, Changed, Kept, OnlyAt, Moved, SameMoney;
      var there := db.Exist(to);
      EffectRead(db.out, old(Now()), Now(), false);
      EffectNonNegative(db.out, old(Now()), Now(), false);
      SameBalances(db.out, old(db.world), db.world, caller);
      ghost var s0 := Now();
      MoneySame(db.out, old(db.world), s0.world, to);
      if !there {
        NotNegative(db.out, db.world, to);
        db.CreateAccount(to);
        EffectChange(db.out, s0, Now(), to, Blank(db.out).(balance := OrNew(db.out, s0.world, to).balance));
        EffectNonNegative(db.out, s0, Now(), false);
        EffectTwice(db.out, old(Now()), s0, Now(), false);
        CreatedMoney(db.out, old(db.world), s0.world, db.world, to);
      }
      MoneyOf(db.out, old(db.world), db.world, caller);
      ghost var s1 := Now();
      db.SubBalance(caller, value);
      ghost var s2 := Now();
      db.AddBalance(to, value);
      EffectTransfer(db.out, s1, s2, Now(), caller, to, value);
      MovedAfter(db.out, old(db.world), s1.world, db.world, caller, to, value);
      EffectNonNegative(db.out, s1, Now(), false);
      EffectTwice(db.out, old(Now()), s1, Now(), false);
    }
  }

  lemma GrownIs(store: seq<byte>, size: nat, after: seq<byte>)
    requires |after| == Max(|store|, size) && after[..|store|] == store
    requires forall i :: |store| <= i < |after| ==> after[i] == 0
    ensures after == Grown(store, size)
  {
    assert after == after[..|store|] + after[|store|..];
  }

  lemma WorkedIs(r: Rules, ctx: Ctx, pc: nat, stack: seq<Word>, store: seq<byte>, room: seq<byte>,
                 pc': nat, stack': seq<Word>, store': seq<byte>)
    requires Fetch(ctx, pc).Some? && |stack| >= Ops.Pops(Fetch(ctx, pc).value)
    requires var k := Fetch(ctx, pc).value;
             Ops.MemorySize(k, stack).Some? && room == Grown(store, Ops.MemorySize(k, stack).value) &&
             Ops.TouchedSize(k, stack) <= |room|
    requires var k := Fetch(ctx, pc).value;
             IsPlain(k) ==>
               && (k.JumpI? ==> |stack| >= 2)
               && stack' == PlainStack(r, k, ctx, pc, stack, room)
               && store' == PlainStore(k, ctx, stack, room) && pc' == NextPc(k, pc, stack)
    ensures Worked(r, ctx, pc, stack, store, pc', stack', store')
  {
    hide PlainStack, PlainStore, NextPc, Fetch, Grown, Ops.MemorySize, Ops.TouchedSize;
  }

  lemma PaidIs(r: Rules, ctx: Ctx, pc: nat, stack: seq<Word>, fee: int, cost: int)
    requires Fetch(ctx, pc).Some? && |stack| >= Ops.Pops(Fetch(ctx, pc).value)
    requires var k := Fetch(ctx, pc).value;
             Ops.MemorySize(k, stack).Some? && Ops.MemorySize(k, stack).value / 32 < 0x1_0000_0000 ==>
               Priced(r, k, stack, fee, cost)
    ensures Paid(r, ctx, pc, stack, fee, cost)
  {
    hide Priced, Fetch, Ops.MemorySize;
  }

  lemma SpliceIs(store: seq<byte>, offset: nat, data: seq<byte>, after: seq<byte>)
    requires (data != [] ==> offset + |data| <= |store|) && |after| == |store|
    requires data != [] ==> after[offset..offset + |data|] == data
    requires forall i :: 0 <= i < |store| && !(offset <= i < offset + |data|) ==> after[i] == store[i]
    ensures after == Splice(store, offset, data)
  {
    if data != [] {
      assert after == after[..offset] + after[offset..offset + |data|] + after[offset + |data|..];
    }
  }

  lemma EffectNonNegative(out: Outside, s: Snap, t: Snap, readOnly: bool)
    requires Effect(out, s, t, readOnly)
    ensures NonNegative(out, t.world)
  {
    hide Beyond, Total, NonNegative, Same;
  }

  /** An instruction that touches no memory has nothing to pay for it. */
  lemma NoMemory(k: Ops.Kind, stack: seq<Word>, mem: Memory, size: nat)
    requires (k.SStore? || k.SelfDestruct?) && |stack| >= Ops.Pops(k) && Ops.MemorySize(k, stack) == Some(size) &&
             mem.Valid()
    ensures mem.Charged(size)
  {
    hide TotalFee, ExactFee;
  }

  lemma NotNegative(out: Outside, w: World, a: Address)
    requires NonNegative(out, w)
    ensures Bal(out, w, a) >= 0
  {
  }

  lemma SameBalances(out: Outside, v: World, w: World, a: Address)
    requires Same(out, w, v)
    ensures Bal(out, w, a) == Bal(out, v, a)
  {
    hide Same;
    TotalSame(out, w, v);
  }

  lemma EffectSuicide(out: Outside, s: Snap, t: Snap, u: Snap, self: Address, to: Address, ok: bool)
    requires NonNegative(out, s.world)
    requires Changed(out, s.world, t.world, to,
                     OrNew(out, s.world, to).(balance := OrNew(out, s.world, to).balance + Bal(out, s.world, self)))
    requires Kept(s.log, t.log, s.trace, t.trace) && Kept(t.log, u.log, t.trace, u.trace) &&
             (ok <==> Get(t.world, self).Some?)
    requires ok ==> Changed(out, t.world, u.world, self, Get(t.world, self).value.(suicided := true, balance := 0))
    requires !ok ==> u.world == t.world
    ensures Effect(out, s, u, false) && Emptied(out, s.world, u.world, self, to)
  {
    hide Total, Beyond;
    KeptBeyond(s.log, t.log, s.trace, t.trace);
    KeptBeyond(t.log, u.log, t.trace, u.trace);
    BeyondTwice(s.log, s.trace, t.log, t.trace, u.log, u.trace);
    TotalChange(out, s.world, t.world, to);
    forall b ensures Bal(out, t.world, b) == Bal(out, s.world, b) + if b == to then Bal(out, s.world, self) else 0 {
      if b != to { SameBal(out, s.world, t.world, b); }
    }
    if ok {
      TotalChange(out, t.world, u.world, self);
      forall b ensures Bal(out, u.world, b) == if b == self then 0 else Bal(out, t.world, b) {
        if b != self { SameBal(out, t.world, u.world, b); }
      }
    }
  }

  lemma MoneySame(out: Outside, v: World, w: World, a: Address)
    requires Same(out, w, v)
    ensures SameMoney(out, v, w) && (Get(v, a).Some? <==> Get(w, a).Some?)
  {
    hide Total, Bal;
    TotalSame(out, w, v);
    assert SameAccount(out, Get(w, a), Get(v, a));
  }

  /** The state right after a snapshot. */
  ghost function Snapped(s: Snap): Snap
  {
    s.(log := s.log.(nextId := s.log.nextId + 1, revisions := s.log.revisions + [Revision(s.log.nextId, |s.log.entries|)]),
       trace := s.trace.(saved := s.trace.saved[s.log.nextId := s.world]))
  }

  /** The snapshot is still where it was put, and no older one has its id. */
  lemma SnapshotAt(log: Log, t: Trace, s: Snap, id: nat)
    requires id == s.log.nextId && Beyond(Snapped(s).log, Snapped(s).trace, log, t)
    requires Sorted(log.revisions, log.nextId, t.base, |log.entries|) &&
             Sorted(s.log.revisions, s.log.nextId, s.trace.base, |s.log.entries|)
    ensures forall i :: 0 <= i < t.base && i < |log.revisions| ==> log.revisions[i].id != id
    ensures exists i :: 0 <= i < |log.revisions| && log.revisions[i].id == id
    ensures id in t.saved && t.saved[id] == s.world
  {
    var n := |s.log.revisions|;
    assert Snapped(s).log.revisions[n].id == id;
    assert log.revisions[n] == Snapped(s).log.revisions[n];
  }

  lemma EffectBack(out: Outside, s: Snap, t: Snap, readOnly: bool)
    requires Same(out, t.world, s.world) && Beyond(s.log, s.trace, t.log, t.trace) && NonNegative(out, s.world)
    ensures Effect(out, s, t, readOnly) && NonNegative(out, t.world)
  {
    hide Total, Same, Beyond;
    TotalSame(out, t.world, s.world);
  }

  lemma SnapEffect(out: Outside, s: Snap, t: Snap, readOnly: bool)
    requires Good(out, s.world, s.log, s.trace) && NonNegative(out, s.world)
    requires Same(out, t.world, s.world) && t.log == Snapped(s).log && t.trace == Snapped(s).trace
    ensures Effect(out, s, t, readOnly) && NonNegative(out, t.world)
  {
    hide Good, Total, Same;
    GoodSorted(out, s.world, s.log, s.trace);
    SnapshotBeyond(s.log, s.trace, s.world);
    EffectBack(out, s, t, readOnly);
  }

  lemma EffectBeyond(out: Outside, s: Snap, t: Snap, readOnly: bool)
    requires Effect(out, s, t, readOnly)
    ensures Beyond(s.log, s.trace, t.log, t.trace)
  {
    hide Beyond, Total, NonNegative, Same;
  }

  lemma EffectTotal(out: Outside, s: Snap, t: Snap, readOnly: bool)
    requires Effect(out, s, t, readOnly)
    ensures Total(out, t.world) <= Total(out, s.world)
  {
    hide Beyond, Total, NonNegative, Same;
  }

  lemma EffectSame(out: Outside, s: Snap, t: Snap)
    requires Effect(out, s, t, true)
    ensures Same(out, t.world, s.world)
  {
    hide Beyond, Total, NonNegative, Same;
  }

  lemma CreatedMoney(out: Outside, u: World, v: World, w: World, to: Address)
    requires SameMoney(out, u, v) && Changed(out, v, w, to, Blank(out).(balance := OrNew(out, v, to).balance))
    ensures SameMoney(out, u, w)
  {
    hide Total;
    TotalChange(out, v, w, to);
    forall b ensures Bal(out, w, b) == Bal(out, u, b) {
      if b != to { SameBal(out, v, w, b); }
    }
  }

  lemma MoneyOf(out: Outside, v: World, w: World, a: Address)
    requires SameMoney(out, v, w)
    ensures Bal(out, w, a) == Bal(out, v, a)
  {
  }

  lemma EffectTransfer(out: Outside, s: Snap, t: Snap, u: Snap, caller: Address, to: Address, value: nat)
    requires NonNegative(out, s.world) && value <= Bal(out, s.world, caller)
    requires Changed(out, s.world, t.world, caller,
                     OrNew(out, s.world, caller).(balance := OrNew(out, s.world, caller).balance - value))
    requires Changed(out, t.world, u.world, to,
                     OrNew(out, t.world, to).(balance := OrNew(out, t.world, to).balance + value))
    requires Kept(s.log, t.log, s.trace, t.trace) && Kept(t.log, u.log, t.trace, u.trace)
    ensures Effect(out, s, u, false) && Moved(out, s.world, u.world, caller, to, value)
  {
    hide Total, Beyond;
    KeptBeyond(s.log, t.log, s.trace, t.trace);
    KeptBeyond(t.log, u.log, t.trace, u.trace);
    BeyondTwice(s.log, s.trace, t.log, t.trace, u.log, u.trace);
    TotalChange(out, s.world, t.world, caller);
    TotalChange(out, t.world, u.world, to);
    forall b ensures Bal(out, t.world, b) == Bal(out, s.world, b) - if b == caller then value else 0 {
      if b != caller { SameBal(out, s.world, t.world, b); }
    }
    forall b ensures Bal(out, u.world, b) == Bal(out, t.world, b) + if b == to then value else 0 {
      if b != to { SameBal(out, t.world, u.world, b); }
    }
  }
}
