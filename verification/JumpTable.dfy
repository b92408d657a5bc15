/** The instruction table (vm/ethvm/jump_table.go, stack_table.go, memory_table.go). */
module JumpTable {
  import opened Words
  import opened Params
  import opened Memories
  import opened Analysis
  import opened CallGas

  datatype CopySource = CallData | Code | ExtCode | ReturnData

  datatype Exec =
    | Undefined
    | Stop
    | Compute(pops: nat)
    | Exp
    | AccountRead
    | Keccak256
    | CopyTo(source: CopySource)
    | Pop
    | MLoad
    | MStore
    | MStore8
    | SLoad
    | SStore
    | Jump
    | JumpI
    | Pc
    | MSize
    | GasLeft
    | JumpDest
    | Push(size: nat)
    | Dup(n: nat)
    | Swap(n: nat)
    | MakeLog(topics: nat)
    | Create
    | Create2
    | CallOp(kind: CallKind)
    | Return
    | Revert
    | SelfDestruct

  datatype Operation = Operation(exec: Exec, constantGas: uint64, minStack: nat, maxStack: nat)

  function MinStack(pops: nat, push: nat): nat {
    pops
  }

  function MaxStack(pop: nat, push: nat): nat
    requires push <= STACK_LIMIT
  {
    STACK_LIMIT + pop - push
  }

  function Op(exec: Exec, constantGas: uint64, pops: nat, push: nat): Operation
    requires push <= STACK_LIMIT
  {
    Operation(exec, constantGas, MinStack(pops, push), MaxStack(pops, push))
  }

  function Pure(pops: nat, constantGas: uint64): Operation {
    Op(Compute(pops), constantGas, pops, 1)
  }

  /** newFrontierInstructionSet; slots left empty there hold opUndefined. */
  function Lookup(op: byte): Operation {
    if op < 0x20 then LookupArithmetic(op)
    else if op < 0x50 then LookupEnvironment(op)
    else if op < 0x60 then LookupFlow(op)
    else if op < 0x80 then Op(Push(op - 0x5f), 3, 0, 1)
    else if op < 0x90 then Op(Dup(op - 0x7f), 3, op - 0x7f, op - 0x7f + 1)
    else if op < 0xa0 then Op(Swap(op - 0x8e), 3, op - 0x8e, op - 0x8e)
    else if op <= 0xa4 then Op(MakeLog(op - 0xa0), 0, op - 0xa0 + 2, 0)
    else LookupSystem(op)
  }

  function LookupArithmetic(op: byte): Operation {
    match op
    case 0x00 => Op(Stop, 0, 0, 0)
    case 0x01 | 0x03 => Pure(2, 3)
    case 0x02 | 0x04 | 0x05 | 0x06 | 0x07 | 0x0b => Pure(2, 5)
    case 0x08 | 0x09 => Pure(3, 8)
    case 0x0a => Op(Exp, 0, 2, 1)
    case 0x15 | 0x19 => Pure(1, 3)
    case _ => if 0x10 <= op <= 0x1d then Pure(2, 3) else Op(Undefined, 0, 0, 0)
  }

  function LookupEnvironment(op: byte): Operation {
    match op
    case 0x20 => Op(Keccak256, KECCAK256_GAS, 2, 1)
    case 0x31 | 0x3b | 0x3f => Op(AccountRead, WARM_STORAGE_READ_COST, 1, 1)
    case 0x35 => Pure(1, 3)
    case 0x37 => Op(CopyTo(CallData), 3, 3, 0)
    case 0x39 => Op(CopyTo(Code), 3, 3, 0)
    case 0x3c => Op(CopyTo(ExtCode), WARM_STORAGE_READ_COST, 4, 0)
    case 0x3e => Op(CopyTo(ReturnData), 3, 3, 0)
    case 0x40 => Pure(1, 20)
    case 0x47 => Pure(0, 5)
    case _ => if 0x30 <= op <= 0x48 then Pure(0, 2) else Op(Undefined, 0, 0, 0)
  }

  function LookupFlow(op: byte): Operation {
    match op
    case 0x50 => Op(Pop, 2, 1, 0)
    case 0x51 => Op(MLoad, 3, 1, 1)
    case 0x52 => Op(MStore, 3, 2, 0)
    case 0x53 => Op(MStore8, 3, 2, 0)
    case 0x54 => Op(SLoad, 0, 1, 1)
    case 0x55 => Op(SStore, 0, 2, 0)
    case 0x56 => Op(Jump, 8, 1, 0)
    case 0x57 => Op(JumpI, 10, 2, 0)
    case 0x58 => Op(Pc, 2, 0, 1)
    case 0x59 => Op(MSize, 2, 0, 1)
    case 0x5a => Op(GasLeft, 2, 0, 1)
    case 0x5b => Op(JumpDest, JUMPDEST_GAS, 0, 0)
    case 0x5f => Op(Push(0), 2, 0, 1)
    case _ => Op(Undefined, 0, 0, 0)
  }

  function LookupSystem(op: byte): Operation {
    match op
    case 0xf0 => Op(Create, CREATE_GAS, 3, 1)
    case 0xf1 => Op(CallOp(Call), WARM_STORAGE_READ_COST, 7, 1)
    case 0xf2 => Op(CallOp(CallCode), WARM_STORAGE_READ_COST, 7, 1)
    case 0xf3 => Op(Return, 0, 2, 0)
    case 0xf4 => Op(CallOp(DelegateCall), WARM_STORAGE_READ_COST, 6, 1)
    case 0xf5 => Op(Create2, CREATE2_GAS, 4, 1)
    case 0xfa => Op(CallOp(StaticCall), WARM_STORAGE_READ_COST, 6, 1)
    case 0xfd => Op(Revert, 0, 2, 0)
    case 0xff => Op(SelfDestruct, SELFDESTRUCT_GAS_EIP150, 1, 0)
    case _ => Op(Undefined, 0, 0, 0)
  }

  /** Items that the execution function takes off the stack, and items it puts there. */
  function Pops(exec: Exec): nat {
    match exec
    case Compute(n) => n
    case Exp | Keccak256 | MStore | MStore8 | SStore | JumpI | Return | Revert => 2
    case CopyTo(source) => if source == ExtCode then 4 else 3
    case AccountRead | Pop | MLoad | SLoad | Jump | SelfDestruct => 1
    case Dup(n) => n
    case Swap(n) => n
    case MakeLog(n) => n + 2
    case Create => 3
    case Create2 => 4
    case CallOp(kind) => if kind == Call || kind == CallCode then 7 else 6
    case _ => 0
  }

  /** The value operand of a call: only CALL and CALLCODE have one. */
  function TransferredValue(kind: CallKind, data: seq<Word>): Word
    requires Pops(CallOp(kind)) <= |data|
  {
    if kind == Call || kind == CallCode then data[|data| - 3] else 0
  }

  function Pushes(exec: Exec): nat {
    match exec
    case Compute(_) | Exp | AccountRead | Keccak256 | MLoad | SLoad | Pc | MSize | GasLeft | Push(_) | Create | Create2 | CallOp(_) => 1
    case Dup(n) => n + 1
    case Swap(n) => n
    case _ => 0
  }

  /** The table's stack bounds are what the execution function needs. */
  predicate BoundsMatch(o: Operation) {
    o.minStack == Pops(o.exec) && o.maxStack == STACK_LIMIT + Pops(o.exec) - Pushes(o.exec)
  }

  lemma TableBoundsMatch(op: byte)
    ensures BoundsMatch(Lookup(op))
  {
    if op < 0x20 {
      ArithmeticBoundsMatch(op);
    } else if op < 0x50 {
      EnvironmentBoundsMatch(op);
    } else if op < 0x60 {
      FlowBoundsMatch(op);
    } else if op > 0xa4 {
      SystemBoundsMatch(op);
    }
  }

  lemma ArithmeticBoundsMatch(op: byte)
    ensures BoundsMatch(LookupArithmetic(op))
  {}

  lemma EnvironmentBoundsMatch(op: byte)
    ensures BoundsMatch(LookupEnvironment(op))
  {}

  lemma FlowBoundsMatch(op: byte)
    ensures BoundsMatch(LookupFlow(op))
  {}

  lemma SystemBoundsMatch(op: byte)
    ensures BoundsMatch(LookupSystem(op))
  {}

  /** The stack checks of Run rule out underflow and keep the stack within 1024 items, whatever the instruction. */
  lemma TableGuardsStack(op: byte, len: nat)
    requires Lookup(op).minStack <= len <= Lookup(op).maxStack
    ensures Pops(Lookup(op).exec) <= len
    ensures len - Pops(Lookup(op).exec) + Pushes(Lookup(op).exec) <= STACK_LIMIT
  {
    TableBoundsMatch(op);
  }

  /** The parameters that occur in the table. */
  predicate InTable(exec: Exec) {
    match exec
    case Push(n) => n <= 32
    case Dup(n) => 1 <= n <= 16
    case Swap(n) => 2 <= n <= 17
    case MakeLog(n) => n <= 4
    case _ => true
  }

  /** Bytes after the opcode that belong to the instruction. */
  function ArgumentLength(exec: Exec): nat {
    if exec.Push? then exec.size else 0
  }

  lemma TableParameters(op: byte)
    ensures InTable(Lookup(op).exec)
    ensures InstructionLength(op) == 1 + ArgumentLength(Lookup(op).exec)
  {}

  predicate Halts(exec: Exec) {
    exec.Undefined? || exec.Stop? || exec.Return? || exec.Revert? || exec.SelfDestruct?
  }

  /** Instructions whose price is, at least in part, their dynamic gas. */
  predicate HasDynamicGas(exec: Exec) {
    match exec
    case Exp | AccountRead | Keccak256 | CopyTo(_) | MLoad | MStore | MStore8 | SLoad | SStore | MakeLog(_) | Create | Create2
       | CallOp(_) | Return | Revert | SelfDestruct => true
    case _ => false
  }

  /** No instruction that lets the run go on is free. */
  lemma NothingIsFree(op: byte)
    ensures var o := Lookup(op);
            Halts(o.exec) || 1 <= o.constantGas || 1 <= MinimalDynamicGas(o.exec)
  {}

  /** A lower bound on the dynamic gas of an instruction, forwarded gas aside. */
  function MinimalDynamicGas(exec: Exec): nat {
    match exec
    case Exp => EXP_GAS
    case SLoad => WARM_STORAGE_READ_COST
    case SStore => WARM_STORAGE_READ_COST
    case MakeLog(n) => LOG_GAS
    case _ => 0
  }

  // ---------------------------------------------------------------- memory

  /** memory_table.go: the memory size an instruction requires, None on uint64 overflow. */
  function MemorySize(exec: Exec, data: seq<Word>): (r: Option<uint64>)
    requires Pops(exec) <= |data|
  {
    var back := (n: nat) requires n < |data| => data[|data| - n - 1];
    match exec
    case Keccak256 | MakeLog(_) | Return | Revert => CalcMemSize64(back(0), back(1))
    case CopyTo(source) => if source == ExtCode then CalcMemSize64(back(1), back(3)) else CalcMemSize64(back(0), back(2))
    case MLoad | MStore => CalcMemSize64WithUint(back(0), 32)
    case MStore8 => CalcMemSize64WithUint(back(0), 1)
    case Create | Create2 => CalcMemSize64(back(1), back(2))
    case CallOp(kind) =>
      var i := if kind == Call || kind == CallCode then 3 else 2;
      MemoryCall(CalcMemSize64(back(i + 2), back(i + 3)), CalcMemSize64(back(i), back(i + 1)))
    case _ => Some(0)
  }

  function MemoryCall(x: Option<uint64>, y: Option<uint64>): Option<uint64> {
    if x.None? || y.None? then None else if x.value > y.value then x else y
  }

  /** The memory size in whole words, in bytes; both steps are checked for overflow. */
  method RoundedMemorySize(exec: Exec, data: seq<Word>) returns (r: Result<uint64>)
    requires Pops(exec) <= |data|
    ensures r.Success? <==> MemorySize(exec, data).Some? && 32 * Words32(MemorySize(exec, data).value) <= MAX_UINT64
    ensures r.Success? ==> r.value == 32 * Words32(MemorySize(exec, data).value)
    ensures r.Failure? ==> r.error == GasUintOverflow
  {
    var memSize := MemorySize(exec, data);
    if memSize.None? {
      return Failure(GasUintOverflow);
    }
    var memorySize := SafeMul(ToWordSize(memSize.value), 32);
    if memorySize.None? {
      return Failure(GasUintOverflow);
    }
    return Success(memorySize.value);
  }

  datatype Region = Region(offset: Word, size: Word)

  /** The memory that the execution functions of instructions.go read or write, as (offset, size) pairs. */
  function Regions(exec: Exec, data: seq<Word>): seq<Region>
    requires Pops(exec) <= |data|
  {
    var n := |data|;
    match exec
    case Keccak256 | MakeLog(_) | Return | Revert => [Region(data[n - 1], data[n - 2])]
    case CopyTo(source) =>
      if source == ExtCode then [Region(data[n - 2], data[n - 4])] else [Region(data[n - 1], data[n - 3])]
    case MLoad | MStore => [Region(data[n - 1], 32)]
    case MStore8 => [Region(data[n - 1], 1)]
    case Create | Create2 => [Region(data[n - 2], data[n - 3])]
    case CallOp(kind) =>
      if kind == Call || kind == CallCode
      then [Region(data[n - 4], data[n - 5]), Region(data[n - 6], data[n - 7])]
      else [Region(data[n - 3], data[n - 4]), Region(data[n - 5], data[n - 6])]
    case _ => []
  }

  predicate AllInside(store: nat, regions: seq<Region>) {
    forall i | 0 <= i < |regions| :: Inside(store, regions[i].offset, regions[i].size)
  }

  /** The memory-size functions cover every later access of the execution functions. */
  lemma MemorySizeCovers(exec: Exec, data: seq<Word>, store: nat)
    requires Pops(exec) <= |data|
    requires MemorySize(exec, data).Some? && MemorySize(exec, data).value <= store
    ensures AllInside(store, Regions(exec, data))
  {}

  /** And none of them asks for more than some access needs. */
  lemma MemorySizeIsTight(exec: Exec, data: seq<Word>)
    requires Pops(exec) <= |data|
    requires MemorySize(exec, data).Some? && MemorySize(exec, data).value != 0
    ensures exists i :: 0 <= i < |Regions(exec, data)|
                        && Regions(exec, data)[i].offset + Regions(exec, data)[i].size == MemorySize(exec, data).value
  {
    var m, regions := MemorySize(exec, data).value, Regions(exec, data);
    var fits := (r: Region) => r.offset + r.size == m;
    if exec.CallOp? && fits(regions[1]) {
      assert fits(regions[1]);
    } else {
      assert fits(regions[0]);
    }
  }
}
