/** Instructions that touch only their own frame: stack, memory and program counter (vm/ethvm/instructions.go). */
module Instructions {
  import opened Words
  import opened BigEndian
  import opened Memories
  import opened Analysis
  import opened Contracts
  import opened Stacks
  import opened JumpTable

  /** What belongs to one call frame. */
  class ScopeContext {
    const memory: Memory
    const stack: Stack
    const contract: Contract

    constructor (contract: Contract)
      ensures this.contract == contract && fresh(memory) && fresh(stack)
      ensures memory.Valid() && memory.store == [] && stack.data == []
    {
      memory := new Memory();
      stack := new Stack();
      this.contract := contract;
    }
  }

  /** The operands are there, and memory holds every region that the instruction will touch. */
  ghost predicate Ready(exec: Exec, scope: ScopeContext)
    reads scope.memory, scope.stack
  {
    && scope.memory.Valid()
    && Pops(exec) <= |scope.stack.data|
    && AllInside(|scope.memory.store|, Regions(exec, scope.stack.data))
  }

  // ---------------------------------------------------------------- operands

  /** w.Uint64(): the low 64 bits. */
  function Low64(w: Word): uint64 {
    w % TWO_64
  }

  /** byte(w.Uint64()). */
  function LowByte(w: Word): byte {
    w % 0x100
  }

  /** Memory that was paid for is so small that truncating the operands of an access loses nothing. */
  lemma AccessIsExact(n: nat, offset: Word, size: Word)
    requires n <= MAX_MEMORY && Inside(n, offset, size)
    ensures Low64(size) == size <= MAX_MEMORY && (size != 0 ==> Low64(offset) == offset <= MAX_MEMORY)
  {}

  lemma NoWrap256(x: nat)
    requires x < TWO_256
    ensures x % TWO_256 == x
  {}

  /** int64(x), as Go converts. */
  function ToInt64(x: uint64): int {
    if x <= MAX_INT then x else x - TWO_64
  }

  function Slice(store: seq<byte>, offset: nat, size: nat): seq<byte>
    requires Inside(|store|, offset, size)
  {
    if size == 0 then [] else store[offset..offset + size]
  }

  /** Memory.GetPtr(int64(offset.Uint64()), int64(size.Uint64())): the truncations and casts are exact. */
  function ReadMemory(mem: Memory, offset: Word, size: Word): (r: seq<byte>)
    requires |mem.store| <= MAX_MEMORY && Inside(|mem.store|, offset, size)
    reads mem
    ensures r == Slice(mem.store, offset, size)
  {
    AccessIsExact(|mem.store|, offset, size);
    mem.GetPtr(ToInt64(Low64(offset)), ToInt64(Low64(size)))
  }

  function Written(store: seq<byte>, offset: nat, size: nat, value: seq<byte>): (r: seq<byte>)
    requires Inside(|store|, offset, size)
    ensures |r| == |store|
  {
    if size == 0 then store
    else store[..offset] + Copy(store[offset..offset + size], value) + store[offset + size..]
  }

  /** Memory.Set(offset.Uint64(), size.Uint64(), value). */
  method WriteMemory(mem: Memory, offset: Word, size: Word, value: seq<byte>)
    requires |mem.store| <= MAX_MEMORY && Inside(|mem.store|, offset, size)
    modifies mem`store
    ensures mem.store == Written(old(mem.store), offset, size, value)
  {
    AccessIsExact(|mem.store|, offset, size);
    mem.Set(Low64(offset), Low64(size), value);
  }

  /** getData: a window of data, padded with zeros past its end, wherever the window starts. */
  function GetData(data: seq<byte>, start: uint64, size: uint64): (r: seq<byte>)
    requires |data| + size <= MAX_UINT64
    ensures |r| == size
    ensures forall i | 0 <= i < size :: r[i] == if start + i < |data| then data[start + i] else 0
  {
    var from := if start > |data| then |data| else start;
    var end := WrapAdd(from, size);
    var to := if end > |data| then |data| else end;
    data[from..to] + Zeros(size - (to - from))
  }

  // ---------------------------------------------------------------- program counter

  /** pc is where an instruction begins, or past the end of the code. */
  ghost predicate AtInstruction(code: Code, pc: nat) {
    pc >= |code| || IsBoundary(code, pc)
  }

  /** Falling through, or past a PUSH argument, leads to the next instruction. */
  lemma FallThrough(code: Code, pc: nat)
    requires pc < |code| && AtInstruction(code, pc)
    ensures AtInstruction(code, pc + InstructionLength(code[pc]))
  {
    ScansExtends(code, 0, pc);
  }

  /** The jump's `pos - 1` and the loop's `pc++` cancel out, at target 0 too, where both wrap around. */
  lemma JumpLands(pos: uint64)
    ensures WrapAdd(WrapSub(pos, 1), 1) == pos
  {}

  // ---------------------------------------------------------------- PUSH

  /** makePush: the bytes after the opcode that lie inside the code, padded with zeros on the right. */
  function PushedBytes(code: Code, pc: nat, n: nat): (r: seq<byte>)
    requires n <= 32
    ensures |r| == n
  {
    var startMin := Min(|code|, pc + 1);
    var endMin := Min(|code|, startMin + n);
    code[startMin..endMin] + Zeros(n - (endMin - startMin))
  }

  /** The pushed word is spelled by the n bytes after the opcode, the code being followed by zeros. */
  lemma PushReadsArgument(code: Code, pc: nat, n: nat, i: nat)
    requires n <= 32 && i < n
    ensures PushedBytes(code, pc, n)[i] == if pc + 1 + i < |code| then code[pc + 1 + i] else 0
  {}

  function PushedWord(code: Code, pc: nat, n: nat): (w: Word)
    requires n <= 32
    ensures w == FromBytes(PushedBytes(code, pc, n))
  {
    FromBytesBound(PushedBytes(code, pc, n));
    PowMonotone(n, 32);
    Pow256Of32();
    FromBytes(PushedBytes(code, pc, n))
  }

  lemma {:induction false} PowMonotone(m: nat, n: nat)
    requires m <= n
    ensures Pow256(m) <= Pow256(n)
    decreases n
  {
    if m < n {
      PowMonotone(m, n - 1);
    }
  }

  /** opPush1 and makePush, and opPush0 for n == 0. */
  method OpPush(n: nat, pc: uint64, scope: ScopeContext) returns (next: uint64)
    requires n <= 32 && |scope.contract.code| <= MAX_INT && pc < |scope.contract.code|
    modifies scope.stack
    ensures scope.stack.data == old(scope.stack.data) + [PushedWord(scope.contract.code, pc, n)]
    ensures next == pc + n
  {
    var code := scope.contract.code;
    if n == 0 {
      scope.stack.Push(0);
    } else if n == 1 {
      next := pc + 1;
      if next < |code| {
        SingleByte(code[next]);
        assert PushedBytes(code, pc, 1) == [code[next]];
        scope.stack.Push(code[next]);
      } else {
        SingleByte(0);
        assert PushedBytes(code, pc, 1) == [0];
        scope.stack.Push(0);
      }
      return;
    } else {
      scope.stack.Push(PushedWord(code, pc, n));
    }
    next := pc + n;
  }

  lemma SingleByte(b: byte)
    ensures FromBytes([b]) == b
  {
    assert [b][..0] == [];
  }

  // ---------------------------------------------------------------- memory instructions

  method OpKeccak256(scope: ScopeContext, keccak: seq<byte> -> Hash)
    requires scope.memory.Valid() && 2 <= |scope.stack.data|
    requires Inside(|scope.memory.store|, scope.stack.Back(0), scope.stack.Back(1))
    modifies scope.stack
    ensures |scope.stack.data| == |old(scope.stack.data)| - 1
    ensures scope.stack.data[..|scope.stack.data| - 1] == old(scope.stack.data)[..|scope.stack.data| - 1]
    ensures scope.stack.Back(0) == keccak(Slice(scope.memory.store, old(scope.stack.Back(0)), old(scope.stack.Back(1)))).bits
  {
    var offset := scope.stack.Pop();
    var size := scope.stack.Pop();
    var data := ReadMemory(scope.memory, offset, size);
    scope.stack.Push(keccak(data).bits);
  }

  method OpMload(scope: ScopeContext)
    requires scope.memory.Valid() && 1 <= |scope.stack.data|
    requires Inside(|scope.memory.store|, scope.stack.Back(0), 32)
    modifies scope.stack
    ensures |scope.stack.data| == |old(scope.stack.data)|
    ensures scope.stack.data[..|scope.stack.data| - 1] == old(scope.stack.data)[..|scope.stack.data| - 1]
    ensures scope.stack.Back(0) == FromBytes(Slice(scope.memory.store, old(scope.stack.Back(0)), 32))
  {
    var offset := scope.stack.Pop();
    var bytes := ReadMemory(scope.memory, offset, 32);
    FromBytesBound(bytes);
    Pow256Of32();
    scope.stack.Push(FromBytes(bytes));
  }

  method OpMstore(scope: ScopeContext)
    requires scope.memory.Valid() && 2 <= |scope.stack.data|
    requires Inside(|scope.memory.store|, scope.stack.Back(0), 32)
    modifies scope.stack, scope.memory`store
    ensures scope.stack.data == old(scope.stack.data)[..|old(scope.stack.data)| - 2]
    ensures scope.memory.store == Written(old(scope.memory.store), old(scope.stack.Back(0)), 32, ToBytes(old(scope.stack.Back(1)), 32))
  {
    AccessIsExact(|scope.memory.store|, scope.stack.Back(0), 32);
    var mStart := scope.stack.Pop();
    var val := scope.stack.Pop();
    scope.memory.Set32(Low64(mStart), val);
  }

  method OpMstore8(scope: ScopeContext)
    requires scope.memory.Valid() && 2 <= |scope.stack.data|
    requires Inside(|scope.memory.store|, scope.stack.Back(0), 1)
    modifies scope.stack, scope.memory`store
    ensures scope.stack.data == old(scope.stack.data)[..|old(scope.stack.data)| - 2]
    ensures scope.memory.store == old(scope.memory.store)[old(scope.stack.Back(0)) := LowByte(old(scope.stack.Back(1)))]
  {
    AccessIsExact(|scope.memory.store|, scope.stack.Back(0), 1);
    var off := scope.stack.Pop();
    var val := scope.stack.Pop();
    scope.memory.SetByte(Low64(off), LowByte(val));
  }

  /** size bytes of data from start on, the data being followed by zeros. */
  function Window(data: seq<byte>, start: nat, size: nat): (w: seq<byte>)
    ensures |w| == size && forall i | 0 <= i < size :: w[i] == if start + i < |data| then data[start + i] else 0
  {
    seq(size, i requires 0 <= i => if start + i < |data| then data[start + i] else 0)
  }

  /** opCallDataCopy and opCodeCopy, and opExtCodeCopy once the account has been popped. */
  method OpCopy(from: seq<byte>, scope: ScopeContext)
    requires scope.memory.Valid() && 3 <= |scope.stack.data| && |from| <= MAX_INT
    requires Inside(|scope.memory.store|, scope.stack.Back(0), scope.stack.Back(2))
    modifies scope.stack, scope.memory`store
    ensures scope.stack.data == old(scope.stack.data)[..|old(scope.stack.data)| - 3]
    ensures scope.memory.store == Written(old(scope.memory.store), old(scope.stack.Back(0)), old(scope.stack.Back(2)),
                                          Window(from, old(scope.stack.Back(1)), old(scope.stack.Back(2))))
  {
    var memOffset := scope.stack.Pop();
    var dataOffset := scope.stack.Pop();
    var length := scope.stack.Pop();
    var dataOffset64: uint64 := if dataOffset > MAX_UINT64 then MAX_UINT64 else dataOffset;
    AccessIsExact(|scope.memory.store|, memOffset, length);
    var window := GetData(from, dataOffset64, Low64(length));
    assert window == Window(from, dataOffset, length);
    WriteMemory(scope.memory, memOffset, length, window);
  }

  /** opReturnDataCopy refuses to read past the end of the return data. */
  method OpReturnDataCopy(returnData: seq<byte>, scope: ScopeContext) returns (ok: bool)
    requires scope.memory.Valid() && 3 <= |scope.stack.data| && |returnData| <= MAX_INT
    requires Inside(|scope.memory.store|, scope.stack.Back(0), scope.stack.Back(2))
    modifies scope.stack, scope.memory`store
    ensures scope.stack.data == old(scope.stack.data)[..|old(scope.stack.data)| - 3]
    ensures ok <==> old(scope.stack.Back(1)) + old(scope.stack.Back(2)) <= |returnData|
    ensures scope.memory.store
            == if ok then Written(old(scope.memory.store), old(scope.stack.Back(0)), old(scope.stack.Back(2)),
                                  Window(returnData, old(scope.stack.Back(1)), old(scope.stack.Back(2))))
               else old(scope.memory.store)
  {
    var memOffset := scope.stack.Pop();
    var dataOffset := scope.stack.Pop();
    var length := scope.stack.Pop();
    if dataOffset > MAX_UINT64 {
      return false;
    }
    AccessIsExact(|scope.memory.store|, memOffset, length);
    NoWrap256(dataOffset + length);
    var end: Word := (dataOffset + length) % TWO_256;
    if end > MAX_UINT64 || |returnData| < end {
      return false;
    }
    assert returnData[dataOffset..end] == Window(returnData, dataOffset, length);
    WriteMemory(scope.memory, memOffset, length, returnData[dataOffset..end]);
    return true;
  }

  /** A computed result: what it is belongs to uint256 and to the state, so it is left open. */
  method OpCompute(pops: nat, scope: ScopeContext)
    requires pops <= |scope.stack.data|
    modifies scope.stack
    ensures |scope.stack.data| == |old(scope.stack.data)| - pops + 1
    ensures scope.stack.data[..|scope.stack.data| - 1] == old(scope.stack.data)[..|scope.stack.data| - 1]
  {
    var operands := scope.stack.PopN(pops);
    var result: Word :| 0 <= result;
    scope.stack.Push(result);
  }
}
