/**
 The instruction set of the virtual machine (core/vm/jump_table.go, opcodes.go,
 stack_table.go, memory_table.go): what each instruction pops, pushes, costs at least
 and how much memory it touches. Instructions that are not listed are invalid.
 */
module EvmOps {
  import opened Bytes
  import opened EvmMemory

  type Word = nat

  const TWO_160: nat := 0x1_0000_0000_0000_0000_0000_0000_0000_0000_0000_0000
  const TWO_256: nat := TWO_160 * 0x1_0000_0000_0000_0000_0000_0000
  const STACK_LIMIT := 1024

  datatype Kind =
    | Stop | IsZero | Sha3 | Self | Caller | CallDataLoad | CallDataCopy | MLoad | MStore | MStore8
    | SLoad | SStore | JumpI | MSize | JumpDest | Push(n: nat) | Dup1 | CallCode | Return | SelfDestruct

  /** The instruction table: the valid opcodes. */
  function Decode(op: byte): Option<Kind>
  {
    if op == 0x00 then Some(Stop)
    else if op == 0x15 then Some(IsZero)
    else if op == 0x20 then Some(Sha3)
    else if op == 0x30 then Some(Self)
    else if op == 0x33 then Some(Caller)
    else if op == 0x35 then Some(CallDataLoad)
    else if op == 0x37 then Some(CallDataCopy)
    else if op == 0x51 then Some(MLoad)
    else if op == 0x52 then Some(MStore)
    else if op == 0x53 then Some(MStore8)
    else if op == 0x54 then Some(SLoad)
    else if op == 0x55 then Some(SStore)
    else if op == 0x57 then Some(JumpI)
    else if op == 0x59 then Some(MSize)
    else if op == 0x5b then Some(JumpDest)
    else if 0x60 <= op <= 0x7f then Some(Push(op - 0x5f))
    else if op == 0x80 then Some(Dup1)
    else if op == 0xf2 then Some(CallCode)
    else if op == 0xf3 then Some(Return)
    else if op == 0xff then Some(SelfDestruct)
    else None
  }

  predicate Halts(k: Kind) { k.Stop? || k.Return? || k.SelfDestruct? }

  predicate Writes(k: Kind) { k.SStore? || k.SelfDestruct? }

  /** What the table says is popped; for JUMPI that is one less than what is popped. */
  function Pops(k: Kind): nat
  {
    match k
    case IsZero => 1
    case Sha3 => 2
    case CallDataLoad => 1
    case CallDataCopy => 3
    case MLoad => 1
    case MStore => 2
    case MStore8 => 2
    case SLoad => 1
    case SStore => 2
    case JumpI => 1
    case Dup1 => 1
    case CallCode => 7
    case Return => 2
    case SelfDestruct => 1
    case _ => 0
  }

  function Pushes(k: Kind): nat
  {
    match k
    case IsZero => 1
    case Sha3 => 1
    case Self => 1
    case Caller => 1
    case CallDataLoad => 1
    case MLoad => 1
    case SLoad => 1
    case MSize => 1
    case Push(_) => 1
    case Dup1 => 2
    case CallCode => 1
    case _ => 0
  }

  /** The element at depth i of the stack, whose top is the last element. */
  function Back(stack: seq<Word>, i: nat): Word
    requires i < |stack|
  {
    stack[|stack| - 1 - i]
  }

  function Drop(stack: seq<Word>, n: nat): seq<Word>
    requires n <= |stack|
  {
    stack[..|stack| - n]
  }

  /** calcMemSize */
  function CalcMemSize(off: nat, len: nat): nat { if len == 0 then 0 else off + len }

  /** memorySize of an instruction, before rounding up to whole words. */
  function TouchedSize(k: Kind, stack: seq<Word>): nat
    requires |stack| >= Pops(k)
  {
    match k
    case Sha3 => CalcMemSize(Back(stack, 0), Back(stack, 1))
    case CallDataCopy => CalcMemSize(Back(stack, 0), Back(stack, 2))
    case MLoad => CalcMemSize(Back(stack, 0), 32)
    case MStore => CalcMemSize(Back(stack, 0), 32)
    case MStore8 => CalcMemSize(Back(stack, 0), 1)
    case Return => CalcMemSize(Back(stack, 0), Back(stack, 1))
    case CallCode => Max(CalcMemSize(Back(stack, 5), Back(stack, 6)), CalcMemSize(Back(stack, 3), Back(stack, 4)))
    case _ => 0
  }

  /** The memory size in whole words, or an overflow. */
  function MemorySize(k: Kind, stack: seq<Word>): (r: Option<nat>)
    requires |stack| >= Pops(k)
    ensures r.Some? ==> r.value % 32 == 0 && r.value < TWO_64 && r.value >= TouchedSize(k, stack)
    ensures r.Some? && TouchedSize(k, stack) == 0 ==> r.value == 0
  {
    var size := TouchedSize(k, stack);
    if size >= TWO_64 then None
    else
      var words := ToWordSize(size);
      if words * 32 >= TWO_64 then None else Some(words * 32)
  }

  // ----- data -----

  /** RightPadBytes */
  function RightPad(data: seq<byte>, size: nat): (r: seq<byte>)
    ensures |r| >= size && (|data| <= size ==> |r| == size)
  {
    if |data| >= size then data else data + seq(size - |data|, _ => 0 as byte)
  }

  /** getDataBig: bytes from start on, filled up with zeroes. */
  function GetData(data: seq<byte>, start: nat, size: nat): (r: seq<byte>)
    ensures |r| == size
    ensures forall i :: 0 <= i < size ==> r[i] == if start + i < |data| then data[start + i] else 0
  {
    var s := Min(start, |data|);
    var e := Min(s + size, |data|);
    RightPad(data[s..e], size)
  }

  /** 32 bytes, big-endian. */
  function Bytes32(v: Word, n: nat): (r: seq<byte>)
    ensures |r| == n
  {
    if n == 0 then [] else Bytes32(v / 256, n - 1) + [v % 256]
  }

  /** What is stored as bytes is read back as the same word. */
  lemma {:induction false} Bytes32Inverse(v: Word, n: nat)
    requires v < Pow256(n)
    ensures BigEndian(Bytes32(v, n)) == v
    decreases n
  {
    if n > 0 {
      Bytes32Inverse(v / 256, n - 1);
      BigEndianSnoc(Bytes32(v / 256, n - 1), v % 256);
    }
  }

  lemma BigEndianSnoc(b: seq<byte>, x: byte)
    ensures BigEndian(b + [x]) == BigEndian(b) * 256 + x
  {
    assert (b + [x])[..|b|] == b;
  }

  // ----- code -----

  /** The bytes that follow a PUSH are data. */
  predicate IsCode(code: seq<byte>, at: nat, pos: nat)
    decreases |code| - at
  {
    if at >= |code| || at >= pos then at == pos
    else
      var skip := if 0x60 <= code[at] <= 0x7f then code[at] - 0x5f else 0;
      IsCode(code, at + 1 + skip, pos)
  }

  /** destinations.has */
  predicate JumpTarget(code: seq<byte>, pos: Word)
  {
    pos < |code| && pos < 0x4000_0000_0000_0000 && code[pos] == 0x5b && IsCode(code, 0, pos)
  }

  /** makePush: the bytes after the opcode, filled up with zeroes at the end of the code. */
  function PushData(code: seq<byte>, pc: nat, n: nat): Word
  {
    BigEndian(GetData(code, pc + 1, n))
  }
}
