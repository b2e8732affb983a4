/**
 Memory of the virtual machine and what it costs (core/vm/memory.go, common.go,
 gas_table.go). Machine words are 64 bits wide and wrap around.
 */
module EvmMemory {
  import opened Bytes

  const MEMORY_GAS := 3
  const QUAD_COEFF_DIV := 512

  /** The greatest memory size that can be paid for. */
  const MAX_MEM := 0xff_ffff_ffe0

  const MAX_UINT64 := TWO_64 - 1

  /** toWordSize */
  function ToWordSize(size: nat): (words: nat)
    requires size < TWO_64
    ensures size <= MAX_UINT64 - 31 ==> words * 32 >= size && words * 32 < size + 32
  {
    if size > MAX_UINT64 - 31 then MAX_UINT64 / 32 + 1 else (size + 31) / 32
  }

  /** The fee for memory of that many words as computed, with wrap-around. */
  function TotalFee(words: nat): nat { WrappedFee(words, words * words) }

  function WrappedFee(words: nat, square: nat): nat
  {
    var linCoef := (words * MEMORY_GAS) % TWO_64;
    var quadCoef := (square % TWO_64) / QUAD_COEFF_DIV;
    (linCoef + quadCoef) % TWO_64
  }

  /** The fee of the Yellow Paper (Appendix H). */
  function ExactFee(words: nat): nat { MEMORY_GAS * words + words * words / QUAD_COEFF_DIV }

  /** As far as memory can be paid for, the fee is right exactly up to 2^32 - 1 words. */
  lemma FeeExact(words: nat)
    requires words * 32 <= MAX_MEM
    ensures TotalFee(words) == ExactFee(words) <==> words < 0x1_0000_0000
  {
    hide WrappedFee;
    SquareSize(words);
    SquareFee(words, words * words);
  }

  lemma SquareSize(words: nat)
    ensures words < 0x1_0000_0000 <==> words * words < TWO_64
  {
    if words < 0x1_0000_0000 {
      MulUp(words, words, 0xffff_ffff, 0xffff_ffff);
    } else {
      MulUp(0x1_0000_0000, 0x1_0000_0000, words, words);
    }
  }

  lemma SquareFee(words: nat, square: nat)
    requires words * 32 <= MAX_MEM
    ensures WrappedFee(words, square) == MEMORY_GAS * words + square / QUAD_COEFF_DIV <==> square < TWO_64
  {
    if square >= TWO_64 { Wraps(square); }
  }

  lemma MulUp(a: nat, b: nat, c: nat, d: nat)
    requires a <= c && b <= d
    ensures a * b <= c * d
  {
    assert a * b <= c * b;
    assert c * b <= c * d;
  }

  lemma Wraps(square: nat)
    requires square >= TWO_64
    ensures (square % TWO_64) / QUAD_COEFF_DIV < square / QUAD_COEFF_DIV
  {
    assert square % TWO_64 <= square - TWO_64;
  }

  /** More memory costs more, as long as the fee is right. */
  lemma FeeGrows(v: nat, w: nat)
    requires v <= w
    ensures ExactFee(v) <= ExactFee(w)
  {
    MulUp(v, v, w, w);
  }

  // ----- memory -----

  class Memory {
    var store: seq<byte>
    var lastGasCost: nat
    /** All that has been charged for memory. */
    ghost var paid: int

    /** Whole words; the last fee is the one for the present size, and it is what has been paid in all. */
    ghost predicate Valid()
      reads this
    {
      && |store| % 32 == 0 && |store| <= MAX_MEM && lastGasCost == TotalFee(|store| / 32)
      && (|store| / 32 < 0x1_0000_0000 ==> paid == lastGasCost == ExactFee(|store| / 32))
    }

    /** The fee for a size has been charged; the memory has still to be resized. */
    ghost predicate Charged(size: nat)
      reads this
    {
      var words := Max(|store|, size) / 32;
      && |store| % 32 == 0 && |store| <= MAX_MEM && size % 32 == 0 && size <= MAX_MEM
      && lastGasCost == TotalFee(words) && (words < 0x1_0000_0000 ==> paid == lastGasCost == ExactFee(words))
    }

    constructor ()
      ensures Valid() && store == [] && fresh(this)
    {
      store, lastGasCost, paid := [], 0, 0;
    }

    /** memoryGasCost: what growing to a size of whole words costs. */
    method GasCost(size: nat) returns (fee: Option<nat>)
      requires Valid() && size % 32 == 0 && size < TWO_64
      modifies this`lastGasCost, this`paid
      ensures fee.None? <==> size > MAX_MEM
      ensures fee.Some? ==> Charged(size) && fee.value < TWO_64
      ensures fee.Some? && size / 32 < 0x1_0000_0000 ==> fee.value == paid - old(paid)
      ensures fee.Some? && size <= |store| ==> fee.value == 0
    {
      hide TotalFee, ExactFee;
      if size == 0 { return Some(0); }
      if size > MAX_MEM { return None; }
      var words := ToWordSize(size);
      if words * 32 > |store| {
        var newTotalFee := TotalFee(words);
        FeeSize(words);
        FeeExact(words);
        FeeGrows(|store| / 32, words);
        var gas := (newTotalFee - lastGasCost) % TWO_64;
        lastGasCost := newTotalFee;
        paid := paid + gas;
        return Some(gas);
      }
      return Some(0);
    }

    /** Resize */
    method Resize(size: nat)
      requires Charged(size)
      modifies this`store
      ensures Valid() && |store| == Max(|old(store)|, size) && store[..|old(store)|] == old(store)
      ensures forall i :: |old(store)| <= i < |store| ==> store[i] == 0
    {
      if |store| < size { store := store + seq(size - |store|, _ => 0 as byte); }
    }

    /** Set: writes as many bytes as there are, within the region. */
    method Set(offset: nat, size: nat, value: seq<byte>)
      requires Valid() && (size > 0 ==> offset + size <= |store|)
      modifies this`store
      ensures Valid() && |store| == |old(store)|
      ensures var n := if size == 0 then 0 else Min(size, |value|);
              && (n > 0 ==> store[offset..offset + n] == value[..n])
              && (forall i :: 0 <= i < |store| && !(offset <= i < offset + n) ==> store[i] == old(store)[i])
    {
      if size > 0 {
        var n := Min(size, |value|);
        store := store[..offset] + value[..n] + store[offset + n..];
      }
    }

    /** Get and GetPtr */
    method Read(offset: nat, size: nat) returns (data: seq<byte>)
      requires Valid() && (size > 0 ==> offset + size <= |store|)
      ensures data == if size == 0 then [] else store[offset..offset + size]
    {
      if size == 0 { return []; }
      return store[offset..offset + size];
    }
  }

  lemma FeeSize(words: nat)
    ensures TotalFee(words) < TWO_64
  {
  }
}
