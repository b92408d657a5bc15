/** Dynamic gas of the instructions other than calls (vm/ethvm/gas_table.go, operations_acl.go). What the access list,
    the slots and the accounts of the state database hold is a parameter. */
module GasTable {
  import opened Words
  import opened Params
  import opened BigEndian
  import opened Memories
  import opened JumpTable
  import Metering = SStore

  /** The part of the price that grows linearly with an operand: words copied or hashed, bytes logged, exponent bytes. */
  function LinearGas(exec: Exec, data: seq<Word>): nat
    requires Pops(exec) <= |data|
  {
    var n := |data|;
    match exec
    case Exp => EXP_GAS + EXP_BYTE_EIP158 * ByteLen(data[n - 2])
    case Keccak256 => KECCAK256_WORD_GAS * Words32(data[n - 2])
    case CopyTo(source) => COPY_GAS * Words32(if source == ExtCode then data[n - 4] else data[n - 3])
    case MakeLog(topics) => LOG_GAS + LOG_TOPIC_GAS * topics + LOG_DATA_GAS * data[n - 2]
    case Create => INIT_CODE_WORD_GAS * Words32(data[n - 3])
    case Create2 => (INIT_CODE_WORD_GAS + KECCAK256_WORD_GAS) * Words32(data[n - 3])
    case _ => 0
  }

  /** What else an access depends on: a slot's original and current value, and whether SELFDESTRUCT brings an account to life. */
  datatype Answers = Answers(original: Word, current: Word, revives: bool)

  /** The addresses and slots accessed so far. */
  class AccessList {
    var addresses: set<Address>
    var slots: set<Metering.Slot>

    constructor (addresses: set<Address>, slots: set<Metering.Slot>)
      ensures this.addresses == addresses && this.slots == slots
    {
      this.addresses, this.slots := addresses, slots;
    }

    /** AddAddressToAccessList, and whether it was there. */
    method TouchAddress(a: Address) returns (warm: bool)
      modifies this`addresses
      ensures warm == (a in old(addresses)) && addresses == old(addresses) + {a}
    {
      warm := a in addresses;
      if !warm {
        addresses := addresses + {a};
      }
    }

    /** AddSlotToAccessList, which adds the slot's account as well. */
    method TouchSlot(k: Metering.Slot) returns (warm: bool)
      modifies this
      ensures warm == (k in old(slots)) && slots == old(slots) + {k}
      ensures addresses == if warm then old(addresses) else old(addresses) + {k.account}
    {
      warm := k in slots;
      if !warm {
        slots, addresses := slots + {k}, addresses + {k.account};
      }
    }

    /** RevertToSnapshot. */
    method Restore(addresses: set<Address>, slots: set<Metering.Slot>)
      modifies this
      ensures this.addresses == addresses && this.slots == slots
    {
      this.addresses, this.slots := addresses, slots;
    }

    /** SSTORE panics on a slot of an account that are both not in the list. */
    predicate Panics(exec: Exec, contractGas: uint64, self: Address, data: seq<Word>)
      requires Pops(exec) <= |data|
      reads this
    {
      exec.SStore? && SSTORE_SENTRY_GAS < contractGas && self !in addresses && Metering.Slot(self, Hash(data[|data| - 1])) !in slots
    }

    /** What the instruction accesses is in the list. */
    predicate Warm(exec: Exec, self: Address, data: seq<Word>)
      requires Pops(exec) <= |data|
      reads this
    {
      match exec
      case AccountRead | SelfDestruct => ToAddress(data[|data| - 1]) in addresses
      case CopyTo(source) => source != ExtCode || ToAddress(data[|data| - 1]) in addresses
      case SLoad | SStore => Metering.Slot(self, Hash(data[|data| - 1])) in slots
      case _ => true
    }
  }

  /** The price of an access: cold accounts and slots, the SSTORE schedule, accounts brought to life. */
  function AccessCost(exec: Exec, warm: bool, data: seq<Word>, answers: Answers): nat
    requires Pops(exec) <= |data|
  {
    match exec
    case AccountRead => if warm then 0 else COLD_ACCOUNT_ACCESS_COST - WARM_STORAGE_READ_COST
    case CopyTo(_) => if warm then 0 else COLD_ACCOUNT_ACCESS_COST - WARM_STORAGE_READ_COST
    case SLoad => if warm then WARM_STORAGE_READ_COST else COLD_SLOAD_COST
    case SStore =>
      var s := Metering.Eip2929(SSTORE_CLEARS_REFUND_EIP3529);
      s.ColdCost(warm) + Metering.WriteGas(s, answers.original, answers.current, data[|data| - 2])
    case SelfDestruct => (if warm then 0 else COLD_ACCOUNT_ACCESS_COST) + if answers.revives then CREATE_BY_SELFDESTRUCT_GAS else 0
    case _ => 0
  }

  /** The operand that a linear charge is computed from, and the largest that is not refused outright. */
  function LengthOperand(exec: Exec, data: seq<Word>): Word
    requires Pops(exec) <= |data|
  {
    var n := |data|;
    match exec
    case Keccak256 | MakeLog(_) => data[n - 2]
    case CopyTo(source) => if source == ExtCode then data[n - 4] else data[n - 3]
    case Create | Create2 => data[n - 3]
    case _ => 0
  }

  function MaxLength(exec: Exec): nat {
    if exec.Create? || exec.Create2? then 2 * MAX_CODE_SIZE else MAX_UINT64
  }

  /** gasKeccak256, memoryCopierGas and the price of an additional sum: fee plus a price per word, overflow checked. */
  method WordGas(memoryGas: uint64, length: Word, perWord: uint64) returns (r: Result<uint64>)
    ensures r.Success? <==> length <= MAX_UINT64 && memoryGas + perWord * Words32(length) <= MAX_UINT64
    ensures r.Success? ==> r.value == memoryGas + perWord * Words32(length)
    ensures r.Failure? ==> r.error == GasUintOverflow
  {
    if length > MAX_UINT64 {
      return Failure(GasUintOverflow);
    }
    var words := SafeMul(ToWordSize(length), perWord);
    if words.None? {
      return Failure(GasUintOverflow);
    }
    var gas := SafeAdd(memoryGas, words.value);
    if gas.None? {
      return Failure(GasUintOverflow);
    }
    return Success(gas.value);
  }

  /** makeGasLog. */
  method LogGas(memoryGas: uint64, requestedSize: Word, n: nat) returns (r: Result<uint64>)
    requires n <= 4
    ensures r.Success? <==> requestedSize <= MAX_UINT64
                            && memoryGas + LOG_GAS + LOG_TOPIC_GAS * n + LOG_DATA_GAS * requestedSize <= MAX_UINT64
    ensures r.Success? ==> r.value == memoryGas + LOG_GAS + LOG_TOPIC_GAS * n + LOG_DATA_GAS * requestedSize
    ensures r.Failure? ==> r.error == GasUintOverflow
  {
    if requestedSize > MAX_UINT64 {
      return Failure(GasUintOverflow);
    }
    var gas := SafeAdd(memoryGas, LOG_GAS);
    if gas.None? {
      return Failure(GasUintOverflow);
    }
    gas := SafeAdd(gas.value, n * LOG_TOPIC_GAS);
    if gas.None? {
      return Failure(GasUintOverflow);
    }
    var memorySizeGas := SafeMul(requestedSize, LOG_DATA_GAS);
    if memorySizeGas.None? {
      return Failure(GasUintOverflow);
    }
    gas := SafeAdd(gas.value, memorySizeGas.value);
    if gas.None? {
      return Failure(GasUintOverflow);
    }
    return Success(gas.value);
  }

  /** gasCreateEip3860 and gasCreate2Eip3860: initcode is priced per word and limited to twice the code size limit. */
  method InitCodeGas(memoryGas: uint64, size: Word, perWord: uint64) returns (r: Result<uint64>)
    requires perWord <= 8
    ensures r.Success? <==> size <= 2 * MAX_CODE_SIZE && memoryGas + perWord * Words32(size) <= MAX_UINT64
    ensures r.Success? ==> r.value == memoryGas + perWord * Words32(size)
    ensures r.Failure? ==> r.error == GasUintOverflow
  {
    if size > MAX_UINT64 || size > MAX_CODE_SIZE * 2 {
      return Failure(GasUintOverflow);
    }
    var moreGas: uint64 := perWord * ((size + 31) / 32);
    var gas := SafeAdd(memoryGas, moreGas);
    if gas.None? {
      return Failure(GasUintOverflow);
    }
    return Success(gas.value);
  }

  /** The gas functions that ask the access list. */
  method AccessGas(exec: Exec, contractGas: uint64, self: Address, data: seq<Word>, list: AccessList, answers: Answers)
    returns (r: Result<uint64>)
    requires Pops(exec) <= |data|
    modifies list
    ensures r.Success? <==> !(exec.SStore? && contractGas <= SSTORE_SENTRY_GAS) && !old(list.Panics(exec, contractGas, self, data))
    ensures r.Failure? ==> r.error == if old(list.Panics(exec, contractGas, self, data)) then Panicked else ReentrancySentry
    ensures r.Success? ==> r.value == AccessCost(exec, old(list.Warm(exec, self, data)), data, answers)
    ensures r.Success? ==> list.Warm(exec, self, data)
    ensures old(list.addresses) <= list.addresses <= old(list.addresses) + {self} + if data == [] then {} else {ToAddress(data[|data| - 1])}
    ensures old(list.slots) <= list.slots <= old(list.slots) + if data == [] then {} else {Metering.Slot(self, Hash(data[|data| - 1]))}
  {
    var warm;
    match exec {
      case AccountRead =>
        warm := list.TouchAddress(ToAddress(data[|data| - 1]));
        return Success(if warm then 0 else COLD_ACCOUNT_ACCESS_COST - WARM_STORAGE_READ_COST);
      case CopyTo(source) =>
        if source != ExtCode {
          return Success(0);
        }
        warm := list.TouchAddress(ToAddress(data[|data| - 1]));
        return Success(if warm then 0 else COLD_ACCOUNT_ACCESS_COST - WARM_STORAGE_READ_COST);
      case SLoad =>
        warm := list.TouchSlot(Metering.Slot(self, Hash(data[|data| - 1])));
        return Success(if warm then WARM_STORAGE_READ_COST else COLD_SLOAD_COST);
      case SStore =>
        if contractGas <= SSTORE_SENTRY_GAS {
          return Failure(ReentrancySentry);
        }
        var addrPresent := self in list.addresses;
        warm := list.TouchSlot(Metering.Slot(self, Hash(data[|data| - 1])));
        if !warm && !addrPresent {
          return Failure(Panicked);
        }
        var cold: uint64 := if warm then 0 else COLD_SLOAD_COST;
        return Success(cold + Metering.WriteGas(Metering.Eip2929(SSTORE_CLEARS_REFUND_EIP3529), answers.original, answers.current,
                                                data[|data| - 2]));
      case SelfDestruct =>
        warm := list.TouchAddress(ToAddress(data[|data| - 1]));
        return Success((if warm then 0 else COLD_ACCOUNT_ACCESS_COST) + if answers.revives then CREATE_BY_SELFDESTRUCT_GAS else 0);
      case _ =>
        return Success(0);
    }
  }

  /** gasExpEIP158. */
  method ExpGas(exponent: Word) returns (gas: uint64)
    ensures gas == EXP_GAS + EXP_BYTE_EIP158 * ByteLen(exponent) <= EXP_GAS + EXP_BYTE_EIP158 * 32
  {
    Pow256Of32();
    ByteLenBound(exponent, 32);
    var expByteLen: uint64 := ByteLen(exponent);
    gas := expByteLen * EXP_BYTE_EIP158 + EXP_GAS;
  }

  /** The linear part of the price on top of the memory fee. */
  method AddLinearGas(exec: Exec, memoryGas: uint64, data: seq<Word>) returns (r: Result<uint64>)
    requires Pops(exec) <= |data| && (exec.MakeLog? ==> exec.topics <= 4)
    requires memoryGas < 0x100_0000_0000_0000
    ensures r.Success? <==> LengthOperand(exec, data) <= MaxLength(exec) && memoryGas + LinearGas(exec, data) <= MAX_UINT64
    ensures r.Success? ==> r.value == memoryGas + LinearGas(exec, data)
    ensures r.Failure? ==> r.error == GasUintOverflow
  {
    var n := |data|;
    match exec {
      case Exp =>
        var gas := ExpGas(data[n - 2]);
        return Success(memoryGas + gas);
      case Keccak256 =>
        r := WordGas(memoryGas, data[n - 2], KECCAK256_WORD_GAS);
      case CopyTo(source) =>
        r := WordGas(memoryGas, if source == ExtCode then data[n - 4] else data[n - 3], COPY_GAS);
      case MakeLog(topics) =>
        r := LogGas(memoryGas, data[n - 2], topics);
      case Create =>
        r := InitCodeGas(memoryGas, data[n - 3], INIT_CODE_WORD_GAS);
      case Create2 =>
        r := InitCodeGas(memoryGas, data[n - 3], INIT_CODE_WORD_GAS + KECCAK256_WORD_GAS);
      case _ =>
        return Success(memoryGas);
    }
  }

  /** Memory expansion, linear part and access of one instruction. */
  function DynamicCost(exec: Exec, data: seq<Word>, words: nat, memorySize: nat, warm: bool, answers: Answers): int
    requires Pops(exec) <= |data|
  {
    Fee(Grown(words, memorySize)) - Fee(words) + LinearGas(exec, data) + AccessCost(exec, warm, data, answers)
  }

  /** The memory fee and the linear part. */
  method BaseGas(exec: Exec, data: seq<Word>, mem: Memory, memorySize: uint64) returns (r: Result<uint64>)
    requires mem.Valid()
    requires Pops(exec) <= |data| && (exec.MakeLog? ==> exec.topics <= 4)
    modifies mem`lastGasCost, mem`paid
    ensures r.Success? <==>
              && memorySize <= MAX_MEMORY && LengthOperand(exec, data) <= MaxLength(exec)
              && Fee(Grown(|mem.store| / 32, memorySize)) - Fee(|mem.store| / 32) + LinearGas(exec, data) <= MAX_UINT64
    ensures r.Success? ==> mem.PaidFor(Grown(|mem.store| / 32, memorySize))
    ensures r.Success? ==> r.value == Fee(Grown(|mem.store| / 32, memorySize)) - Fee(|mem.store| / 32) + LinearGas(exec, data)
    ensures exec.SStore? && memorySize <= MAX_MEMORY ==> r.Success?
    ensures r.Failure? ==> r.error == GasUintOverflow
  {
    var memoryGas: uint64 :- mem.GasCost(memorySize);
    r := AddLinearGas(exec, memoryGas, data);
  }

  /** Dynamic gas of any instruction but a call. It fails exactly when memory or a length is beyond its limit, when SSTORE is left
      with no more than its sentry or panics, or when the sum does not fit. */
  method DynamicGas(exec: Exec, contractGas: uint64, self: Address, data: seq<Word>, mem: Memory, memorySize: uint64,
                    list: AccessList, answers: Answers)
    returns (r: Result<uint64>)
    requires mem.Valid() && !exec.CallOp?
    requires Pops(exec) <= |data| && (exec.MakeLog? ==> exec.topics <= 4)
    modifies mem`lastGasCost, mem`paid, list
    ensures r.Success? <==>
              && memorySize <= MAX_MEMORY && LengthOperand(exec, data) <= MaxLength(exec)
              && !(exec.SStore? && contractGas <= SSTORE_SENTRY_GAS) && !old(list.Panics(exec, contractGas, self, data))
              && DynamicCost(exec, data, |mem.store| / 32, memorySize, old(list.Warm(exec, self, data)), answers) <= MAX_UINT64
    ensures r == Failure(Panicked) <==> memorySize <= MAX_MEMORY && old(list.Panics(exec, contractGas, self, data))
    ensures old(list.addresses) <= list.addresses
    ensures r.Success? ==> mem.PaidFor(Grown(|mem.store| / 32, memorySize)) && list.Warm(exec, self, data)
    ensures r.Success? ==> r.value == DynamicCost(exec, data, |mem.store| / 32, memorySize, old(list.Warm(exec, self, data)), answers)
    ensures r.Success? ==> MinimalDynamicGas(exec) <= r.value
  {
    ghost var warm := list.Warm(exec, self, data);
    var gas: uint64 :- BaseGas(exec, data, mem, memorySize);
    var access: uint64 :- AccessGas(exec, contractGas, self, data, list, answers);
    var total := SafeAdd(gas, access);
    if total.None? {
      return Failure(GasUintOverflow);
    }
    FeeMonotone(|mem.store| / 32, Grown(|mem.store| / 32, memorySize));
    DynamicGasIsMinimal(exec, data, warm, answers);
    return Success(total.value);
  }

  lemma DynamicGasIsMinimal(exec: Exec, data: seq<Word>, warm: bool, answers: Answers)
    requires Pops(exec) <= |data|
    ensures MinimalDynamicGas(exec) <= LinearGas(exec, data) + AccessCost(exec, warm, data, answers)
  {}
}
