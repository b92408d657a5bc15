/** The virtual machine (vm/ethvm/interpreter.go, ethvm.go and the instructions that reach beyond their frame).
    What the state database, the precompiled contracts and the abort flag answer is decided arbitrarily, so every
    theorem holds for all of their behaviours. */
module Interpreter {
  import opened Words
  import opened Params
  import opened BigEndian
  import opened Memories
  import opened Analysis
  import opened Contracts
  import opened Stacks
  import opened JumpTable
  import opened CallGas
  import opened GasTable
  import Metering = SStore
  import opened WriteSets
  import opened TxContexts
  import opened Instructions

  /** What execute leaves: the program counter before the loop's increment, or the error that ends the loop. */
  datatype Outcome = Continue(pc: uint64) | Halt(ret: GoBytes, error: Error)

  /** A turn of the run loop as it begins: where it fetches, how many items are on the stack, how large memory is, and the fees
      paid for it. */
  datatype Turn = Turn(pc: nat, items: nat, words: nat, paid: nat)

  type StorageSlot = Metering.Slot

  datatype CallOperands = CallOperands(to: Address, value: Word, input: GoBytes, retOffset: Word, retSize: Word)

  /** The word that BytesToHash makes of a stored byte string. */
  function BytesToWord(b: seq<byte>): Word {
    var low := if |b| > 32 then b[|b| - 32..] else b;
    FromBytesBound(low);
    PowMonotone(|low|, 32);
    Pow256Of32();
    FromBytes(low)
  }

  /** A stored word is read back as it was written. */
  lemma StoredWordRoundTrip(w: Word)
    ensures BytesToWord(WordBytes(w)) == w
  {
    ByteLenSuffices(w);
    FromToBytes(w, ByteLen(w));
  }

  /** The caches that a call on behalf of caller may add analyses to. */
  function CachesOf(caller: ContractRef): set<object> {
    match caller
    case Parent(contract) => {contract.jumpdests}
    case AccountRef(_) => {}
  }

  function AddressOf(caller: ContractRef): Address {
    match caller
    case Parent(contract) => contract.self
    case AccountRef(address) => address
  }

  /** Errors found before a callee starts. */
  predicate Refused(err: Option<Error>) {
    err == Some(Depth) || err == Some(InsufficientBalance) || err == Some(NonceUintOverflow)
  }

  /** Errors that a run may end with: none of those that belong to calls and creations themselves. */
  predicate FromRun(err: Option<Error>) {
    !Refused(err) && err != Some(ContractAddressCollision) && err != Some(CodeStoreOutOfGas)
  }

  /** What the caller of a failed call gets back: nothing, unless the callee reverted. */
  function LeftOver(gas: uint64, err: Option<Error>): (r: uint64)
    ensures r <= gas
    ensures err.None? || err.value == ExecutionReverted ==> r == gas
    ensures err.Some? && err.value != ExecutionReverted ==> r == 0
  {
    if err.Some? && err.value != ExecutionReverted then 0 else gas
  }

  /** What a call gives back: all the gas if it was refused, else what its callee left unused, forfeited if it failed. */
  function Settled(gas: uint64, unused: uint64, err: Option<Error>): uint64 {
    if Refused(err) then gas else LeftOver(unused, err)
  }

  /** And a creation: code that could not be paid for forfeits nothing either. */
  function SettledCreate(gas: uint64, unused: uint64, err: Option<Error>): uint64 {
    if err == Some(CodeStoreOutOfGas) then unused else Settled(gas, unused, err)
  }

  /** Deployed code is bounded and does not start with 0xEF. */
  function CheckCode(ret: GoBytes): (err: Option<Error>)
    ensures err.None? <==> |ret| <= MAX_CODE_SIZE && (ret != [] ==> ret[0] != 0xEF)
  {
    if |ret| > MAX_CODE_SIZE then Some(MaxCodeSizeExceeded)
    else if |ret| >= 1 && ret[0] == 0xEF then Some(InvalidCode)
    else None
  }

  /** An instruction takes its operands off the stack, leaves its results there, and touches nothing beneath. */
  ghost predicate Balanced(exec: Exec, before: seq<Word>, after: seq<Word>) {
    && Pops(exec) <= |before|
    && |after| == |before| - Pops(exec) + Pushes(exec)
    && forall i | 0 <= i < |before| - Pops(exec) :: after[i] == before[i]
  }

  ghost predicate Swapped(n: nat, before: seq<Word>, after: seq<Word>)
    requires 1 <= n <= |before| == |after|
  {
    var top, other := |before| - 1, |before| - n;
    && after[top] == before[other] && after[other] == before[top]
    && forall i | 0 <= i < |before| && i != top && i != other :: after[i] == before[i]
  }

  /** The results of the instructions on the stack alone, those of arithmetic and of the environment aside. */
  ghost predicate StackResult(exec: Exec, pc: nat, code: Code, size: nat, gas: nat, before: seq<Word>, after: seq<Word>)
    requires Balanced(exec, before, after) && InTable(exec)
  {
    match exec
    case Push(n) => after[|after| - 1] == PushedWord(code, pc, n)
    case Dup(n) => after[|after| - 1] == before[|before| - n] && forall i | 0 <= i < |before| :: after[i] == before[i]
    case Swap(n) => Swapped(n, before, after)
    case Pc => after[|after| - 1] == pc
    case MSize => after[|after| - 1] == size
    case GasLeft => after[|after| - 1] == gas
    case _ => true
  }

  /** Where a jump may land. */
  ghost predicate ValidTarget(code: Code, pos: nat) {
    pos < |code| && code[pos] == JUMPDEST && IsBoundary(code, pos)
  }

  /** The instruction at p may be followed by the one at q: the next one, or, after a jump, a valid target. */
  ghost predicate Follows(code: Code, p: nat, q: nat) {
    && p < |code| && AtInstruction(code, q)
    && (q == p + InstructionLength(code[p]) || (IsJump(Lookup(code[p]).exec) && ValidTarget(code, q)))
  }

  predicate IsJump(exec: Exec) {
    exec.Jump? || exec.JumpI?
  }

  /** A run may end without an error at these instructions: a jump notices that the machine was stopped. */
  predicate MayStop(exec: Exec) {
    exec.Stop? || exec.Return? || exec.SelfDestruct? || IsJump(exec)
  }

  lemma OneResult(exec: Exec, before: seq<Word>, result: Word)
    requires Pops(exec) <= |before| && Pushes(exec) == 1
    ensures Balanced(exec, before, before[..|before| - Pops(exec)] + [result])
  {}

  class ETHVM {
    const tx: TxContext
    const accessList: AccessList
    var depth: nat
    var readOnly: bool
    var callGasTemp: uint64
    var returnData: GoBytes
    const keccak: seq<byte> -> Hash
    // Equal nonzero code hashes mean equal code: the code that each of them stands for.
    const preimage: Hash -> Code

    constructor (tx: TxContext, accessList: AccessList, keccak: seq<byte> -> Hash, preimage: Hash -> Code)
      ensures this.tx == tx && this.accessList == accessList && this.preimage == preimage && this.keccak == keccak
      ensures depth == 0 && !readOnly
    {
      this.tx, this.accessList := tx, accessList;
      depth, readOnly, callGasTemp, returnData := 0, false, 0, [];
      this.keccak, this.preimage := keccak, preimage;
    }

    /** A contract whose cached analyses can be trusted. */
    ghost predicate SharesHashes(contract: Contract)
      reads contract, contract.jumpdests
    {
      contract.Valid() && contract.jumpdests.preimage == preimage
    }

    ghost predicate CallerOk(caller: ContractRef)
      reads CachesOf(caller)
    {
      caller.Parent? ==> caller.contract.jumpdests.Valid() && caller.contract.jumpdests.preimage == preimage
    }

    /** What every operation keeps: call depth and read-only mode are restored, no address leaves the access list, and the
        transaction's books are kept. */
    twostate predicate Kept(frozen: bool)
      reads this, accessList, tx, tx.writeSet, tx.readSet
    {
      depth == old(depth) && readOnly == old(readOnly) && old(accessList.addresses) <= accessList.addresses && tx.Kept(frozen)
    }

    /** A frame that fails takes back what it put in the access list. A panic passes through it. */
    twostate predicate Reverted(err: Option<Error>)
      reads accessList
    {
      err.Some? && err != Some(Panicked) ==> accessList.addresses == old(accessList.addresses) && accessList.slots == old(accessList.slots)
    }

    // ------------------------------------------------------------ external answers

    /** Code and code hash of an account: written earlier in the transaction, or the state database's. */
    method CodeAndHash(addr: Address) returns (code: GoBytes, hash: Hash)
      ensures hash != NO_HASH ==> preimage(hash) == code
    {
      var written := tx.writeSet.GetAddressAndKey(addr, SetCodeKey);
      if written.None? {
        code :| 0 <= |code|;
      } else {
        code := BytesOf(written.value);
      }
      hash := HashFor(code);
    }

    /** Some hash under which this code, and no other, is known in the call tree; or none. */
    method HashFor(code: Code) returns (hash: Hash)
      ensures hash != NO_HASH ==> preimage(hash) == code
    {
      hash :| 0 <= hash.bits;
      if preimage(hash) != code {
        hash := NO_HASH;
      }
    }

    /** RunRrecompiledContractPre: whatever the contract does, it leaves at most the gas it was given. */
    method RunPrecompiled(gas: uint64) returns (ret: GoBytes, leftOverGas: uint64, err: Option<Error>)
      ensures leftOverGas <= gas && FromRun(err) && err != Some(Panicked)
    {
      var gasCost: uint64 :| 0 <= gasCost;
      if gas < gasCost {
        return [], 0, Some(OutOfGas);
      }
      var failed: bool := *;
      ret :| 0 <= |ret|;
      return ret, gas - gasCost, if failed then Some(PrecompileFailed) else None;
    }

    // ------------------------------------------------------------ calls

    method Call(caller: ContractRef, addr: Address, input: GoBytes, gas: uint64, value: Word)
      returns (ret: GoBytes, leftOverGas: uint64, err: Option<Error>, ghost unused: uint64)
      requires tx.Valid() && CallerOk(caller)
      modifies this, accessList, tx, tx.writeSet, tx.readSet, CachesOf(caller)
      ensures Kept(old(readOnly) && value == 0) && CallerOk(caller)
      ensures err == Some(Depth) <==> depth > CALL_CREATE_DEPTH
      ensures err == Some(InsufficientBalance)
              <==> depth <= CALL_CREATE_DEPTH && value != 0 && !old(tx.CanTransfer(AddressOf(caller), value))
      ensures unused <= gas && leftOverGas == Settled(gas, unused, err)
      ensures Reverted(err) && (err == Some(Panicked) ==> addr !in old(accessList.addresses))
      ensures !Refused(err) ==> FromRun(err) && (AddressOf(caller), BalanceKey) in tx.books.seen
      decreases gas, 7
    {
      if depth > CALL_CREATE_DEPTH {
        return [], gas, Some(Depth), gas;
      }
      if value != 0 && !tx.CanTransfer(AddressOf(caller), value) {
        return [], gas, Some(InsufficientBalance), gas;
      }
      ghost var existing;
      var found;
      found, existing := tx.EnterAccount(AddressOf(caller), addr, value);
      if !found {
        return [], gas, None, gas;
      }
      ret, leftOverGas, err, unused := CallEntered(caller, addr, input, gas, value);
    }

    /** The rest of Call: the account's code, if it has any, is run. */
    method CallEntered(caller: ContractRef, addr: Address, input: GoBytes, gas: uint64, value: Word)
      returns (ret: GoBytes, leftOverGas: uint64, err: Option<Error>, ghost unused: uint64)
      requires tx.Valid() && CallerOk(caller) && depth <= CALL_CREATE_DEPTH
      modifies this, accessList, tx, tx.writeSet, tx.readSet, CachesOf(caller)
      ensures Kept(old(readOnly)) && CallerOk(caller)
      ensures unused <= gas && leftOverGas == LeftOver(unused, err) && FromRun(err)
      ensures Reverted(err) && (err == Some(Panicked) ==> addr !in old(accessList.addresses))
      decreases gas, 6, 1
    {
      var contract := new Contract(caller, addr, value, gas, preimage);
      var code, codeHash := CodeAndHash(addr);
      contract.SetCallCode(codeHash, code);
      if !tx.isPrecompile(addr) && |code| == 0 {
        return [], gas, None, gas;
      }
      ret, leftOverGas, err, unused := RunCallee(contract, addr, input, false);
    }

    /** The common end of all calls: a precompiled contract or a run, what it accessed if it failed, and what is left of the gas. */
    method RunCallee(contract: Contract, codeAddr: Address, input: GoBytes, isStatic: bool)
      returns (ret: GoBytes, leftOverGas: uint64, err: Option<Error>, ghost unused: uint64)
      requires tx.Valid() && SharesHashes(contract) && depth <= CALL_CREATE_DEPTH
      modifies this, accessList, tx, tx.writeSet, tx.readSet, contract, contract.jumpdests
      ensures Kept(old(readOnly) || isStatic) && SharesHashes(contract)
      ensures unused <= old(contract.gas) && leftOverGas == LeftOver(unused, err) && FromRun(err)
      ensures Reverted(err) && (err == Some(Panicked) ==> contract.self !in old(accessList.addresses))
      ensures !tx.isPrecompile(codeAddr) ==> unused == contract.gas
      decreases contract.gas, 6, 0
    {
      var addresses, slots := accessList.addresses, accessList.slots;
      if tx.isPrecompile(codeAddr) {
        ret, leftOverGas, err := RunPrecompiled(contract.gas);
      } else {
        ghost var turns;
        ret, err, turns := Run(contract, input, isStatic);
        leftOverGas := contract.gas;
      }
      unused := leftOverGas;
      if err.Some? && err.value != Panicked {
        accessList.Restore(addresses, slots);
      }
      leftOverGas := LeftOver(leftOverGas, err);
    }

    /** CallCode and DelegateCall: the callee's code runs as the caller. Neither moves value. */
    method CallAsCaller(kind: CallKind, caller: Contract, addr: Address, input: GoBytes, gas: uint64, value: Word)
      returns (ret: GoBytes, leftOverGas: uint64, err: Option<Error>, ghost unused: uint64)
      requires kind == CallCode || kind == DelegateCall
      requires tx.Valid() && CallerOk(Parent(caller))
      modifies this, accessList, tx, tx.writeSet, tx.readSet, caller.jumpdests
      ensures Kept(old(readOnly)) && CallerOk(Parent(caller))
      ensures err == Some(Depth) <==> depth > CALL_CREATE_DEPTH
      ensures err == Some(InsufficientBalance)
              <==> depth <= CALL_CREATE_DEPTH && kind == CallCode && !old(tx.CanTransfer(caller.self, value))
      ensures unused <= gas && leftOverGas == Settled(gas, unused, err)
      ensures !Refused(err) ==> FromRun(err)
      ensures Reverted(err) && (err == Some(Panicked) ==> caller.self !in old(accessList.addresses))
      decreases gas, 7
    {
      if depth > CALL_CREATE_DEPTH {
        return [], gas, Some(Depth), gas;
      }
      if kind == CallCode && !tx.CanTransfer(caller.self, value) {
        return [], gas, Some(InsufficientBalance), gas;
      }
      var contract := new Contract(Parent(caller), caller.self, if kind == CallCode then value else 0, gas, preimage);
      if kind == DelegateCall {
        contract.AsDelegate(caller);
      }
      var code, codeHash := CodeAndHash(addr);
      contract.SetCallCode(codeHash, code);
      ret, leftOverGas, err, unused := RunCallee(contract, addr, input, false);
    }

    method StaticCall(caller: ContractRef, addr: Address, input: GoBytes, gas: uint64)
      returns (ret: GoBytes, leftOverGas: uint64, err: Option<Error>, ghost unused: uint64)
      requires tx.Valid() && CallerOk(caller)
      modifies this, accessList, tx, tx.writeSet, tx.readSet, CachesOf(caller)
      ensures Kept(true) && CallerOk(caller)
      ensures err == Some(Depth) <==> depth > CALL_CREATE_DEPTH
      ensures unused <= gas && leftOverGas == Settled(gas, unused, err)
      ensures !Refused(err) ==> FromRun(err)
      ensures Reverted(err) && (err == Some(Panicked) ==> addr !in old(accessList.addresses))
      decreases gas, 7
    {
      if depth > CALL_CREATE_DEPTH {
        return [], gas, Some(Depth), gas;
      }
      var contract := new Contract(caller, addr, 0, gas, preimage);
      var code: GoBytes :| 0 <= |code|;
      var codeHash := HashFor(code);
      contract.SetCallCode(codeHash, code);
      ret, leftOverGas, err, unused := RunCallee(contract, addr, input, true);
    }

    /** create: run the initcode and store what it returns as the new account's code. The new address stays in the access list
        even if that fails, so no panic comes of it. */
    method CreateAccount(caller: ContractRef, code: GoBytes, codeHash: Hash, gas: uint64, value: Word, address: Address)
      returns (ret: GoBytes, leftOverGas: uint64, err: Option<Error>, ghost unused: uint64)
      requires tx.Valid() && CallerOk(caller)
      requires codeHash != NO_HASH ==> preimage(codeHash) == code
      modifies this, accessList, tx, tx.writeSet, tx.readSet, CachesOf(caller)
      ensures Kept(false) && CallerOk(caller)
      ensures err == Some(Depth) <==> depth > CALL_CREATE_DEPTH
      ensures err == Some(InsufficientBalance) <==> depth <= CALL_CREATE_DEPTH && !old(tx.CanTransfer(AddressOf(caller), value))
      ensures !Refused(err) ==> (err == Some(ContractAddressCollision) <==> tx.occupied(address))
      ensures err != Some(Panicked)
      ensures if Refused(err) then accessList.addresses == old(accessList.addresses) else address in accessList.addresses
      ensures err.Some? && !Refused(err) && err != Some(CodeStoreOutOfGas) ==> accessList.addresses == old(accessList.addresses) + {address}
      ensures unused <= gas && leftOverGas == SettledCreate(gas, unused, err)
      decreases gas, 7
    {
      if depth > CALL_CREATE_DEPTH {
        return [], gas, Some(Depth), gas;
      }
      if !tx.CanTransfer(AddressOf(caller), value) {
        return [], gas, Some(InsufficientBalance), gas;
      }
      var bumped, nonce := tx.BumpNonce(AddressOf(caller));
      if !bumped {
        return [], gas, Some(NonceUintOverflow), gas;
      }
      var _ := accessList.TouchAddress(address);
      if tx.occupied(address) {
        return [], 0, Some(ContractAddressCollision), gas;
      }
      tx.EnterCreated(AddressOf(caller), address, value);
      ret, leftOverGas, err, unused := CreateEntered(caller, code, codeHash, gas, value, address);
    }

    /** The rest of create, once the new account is entered. */
    method CreateEntered(caller: ContractRef, code: GoBytes, codeHash: Hash, gas: uint64, value: Word, address: Address)
      returns (ret: GoBytes, leftOverGas: uint64, err: Option<Error>, ghost unused: uint64)
      requires tx.Valid() && CallerOk(caller) && depth <= CALL_CREATE_DEPTH && address in accessList.addresses
      requires codeHash != NO_HASH ==> preimage(codeHash) == code
      modifies this, accessList, tx, tx.writeSet, tx.readSet, CachesOf(caller)
      ensures Kept(false) && CallerOk(caller)
      ensures unused <= gas && leftOverGas == SettledCreate(gas, unused, err)
      ensures !Refused(err) && err != Some(ContractAddressCollision) && err != Some(Panicked)
      ensures err != Some(CodeStoreOutOfGas) ==> Reverted(err)
      ensures err.None? ==> Entry(tx.writeSet.cache, address, SetCodeKey) == Some(Bytes(ret))
      decreases gas, 6, 1
    {
      var addresses, slots := accessList.addresses, accessList.slots;
      var contract := new Contract(caller, address, value, gas, preimage);
      contract.SetCallCode(codeHash, code);
      ret, err, unused := Deploy(contract, address);
      leftOverGas := contract.gas;
      if err.Some? && err.value != CodeStoreOutOfGas {
        accessList.Restore(addresses, slots);
      }
    }

    /** The second half of create: the initcode runs, and its result is stored. */
    method Deploy(contract: Contract, address: Address) returns (ret: GoBytes, err: Option<Error>, ghost unused: uint64)
      requires tx.Valid() && SharesHashes(contract) && depth <= CALL_CREATE_DEPTH
      modifies this, accessList, tx, tx.writeSet, tx.readSet, contract, contract.jumpdests
      ensures Kept(false) && SharesHashes(contract)
      ensures unused <= old(contract.gas) && contract.gas == SettledCreate(old(contract.gas), unused, err)
      ensures !Refused(err) && err != Some(ContractAddressCollision)
      ensures err == Some(Panicked) ==> contract.self !in old(accessList.addresses)
      ensures err.None? ==> Entry(tx.writeSet.cache, address, SetCodeKey) == Some(Bytes(ret))
      decreases contract.gas, 6, 0
    {
      ghost var turns;
      ret, err, turns := Run(contract, [], false);
      unused := contract.gas;
      err := StoreCode(contract, address, ret, err);
      unused := if err.None? then contract.gas else unused;
    }

    /** Code is stored exactly when the initcode succeeded, its result is no longer than the limit and does not start with 0xEF,
        and it can be paid for; then it is paid for. Otherwise no entry changes, and an error that is no revert forfeits the
        gas, except this last one. */
    method StoreCode(contract: Contract, address: Address, ret: GoBytes, runErr: Option<Error>) returns (err: Option<Error>)
      requires tx.Valid() && FromRun(runErr)
      modifies tx`books, tx.writeSet, contract`gas
      ensures tx.Kept(false)
      ensures err.None? <==> runErr.None? && |ret| <= MAX_CODE_SIZE && (ret != [] ==> ret[0] != 0xEF)
                             && |ret| * CREATE_DATA_GAS <= old(contract.gas)
      ensures err.None? ==> contract.gas == old(contract.gas) - |ret| * CREATE_DATA_GAS
      ensures err.None? ==> tx.writeSet.cache == Updated(old(tx.writeSet.cache), address, SetCodeKey, Bytes(ret))
      ensures err.Some? ==> tx.writeSet.cache == old(tx.writeSet.cache)
      ensures err.Some? ==> contract.gas == if err.value == CodeStoreOutOfGas then old(contract.gas) else LeftOver(old(contract.gas), err)
      ensures runErr.Some? ==> err == runErr
      ensures err == Some(Panicked) ==> runErr == err
      ensures !Refused(err) && err != Some(ContractAddressCollision)
    {
      err := runErr;
      if err.None? {
        err := CheckCode(ret);
      }
      if err.None? {
        var paid := contract.UseGas(|ret| * CREATE_DATA_GAS);
        if paid {
          tx.SetEntry(address, SetCodeKey, Bytes(ret));
        } else {
          err := Some(CodeStoreOutOfGas);
        }
      } else if err.value != ExecutionReverted {
        var _ := contract.UseGas(contract.gas);
      }
    }

    // ------------------------------------------------------------ instructions that reach beyond the frame

    /** A frame ready to execute exec: trusted analyses, paid-for memory, operands on the stack. */
    ghost predicate CanExecute(exec: Exec, scope: ScopeContext)
      reads tx, tx.writeSet, tx.readSet, scope.contract, scope.contract.jumpdests, scope.memory, scope.stack
    {
      tx.Valid() && SharesHashes(scope.contract) && Ready(exec, scope)
    }

    /** Gas that a child may start with on top of what the caller keeps, all below the caller's gas before the step; and the
        callee's address has been accessed. */
    ghost predicate CallPaid(kind: CallKind, scope: ScopeContext, bound: uint64)
      requires Pops(CallOp(kind)) <= |scope.stack.data|
      reads this, accessList, scope.contract, scope.stack
    {
      var charge := if TransferredValue(kind, scope.stack.data) != 0 then CALL_VALUE_TRANSFER_GAS else 0;
      callGasTemp + scope.contract.gas + charge < bound && ToAddress(scope.stack.Back(1)) in accessList.addresses
    }

    /** The pops that a call opcode starts with, and its arguments read from memory. */
    method PopCall(kind: CallKind, scope: ScopeContext) returns (operands: CallOperands)
      requires Ready(CallOp(kind), scope)
      modifies scope.stack
      ensures scope.stack.data == old(scope.stack.data)[..|old(scope.stack.data)| - Pops(CallOp(kind))]
      ensures OperandsOf(kind, old(scope.stack.data), scope.memory.store, operands)
      ensures Inside(|scope.memory.store|, operands.retOffset, operands.retSize)
    {
      ghost var regions := Regions(CallOp(kind), scope.stack.data);
      assert Inside(|scope.memory.store|, regions[0].offset, regions[0].size);
      assert Inside(|scope.memory.store|, regions[1].offset, regions[1].size);
      var head := scope.stack.PopN(if kind.Call? || kind.CallCode? then 3 else 2);
      operands := PopRegions(scope, ToAddress(head[1]), if kind.Call? || kind.CallCode? then head[2] else 0);
    }

    /** The last four operands of a call: where its arguments are, and where the returned data goes. */
    method PopRegions(scope: ScopeContext, to: Address, value: Word) returns (operands: CallOperands)
      requires scope.memory.Valid() && 4 <= |scope.stack.data|
      requires Inside(|scope.memory.store|, scope.stack.Back(0), scope.stack.Back(1))
      modifies scope.stack
      ensures scope.stack.data == old(scope.stack.data)[..|old(scope.stack.data)| - 4]
      ensures operands == CallOperands(to, value, Slice(scope.memory.store, old(scope.stack.Back(0)), old(scope.stack.Back(1))),
                                       old(scope.stack.Back(2)), old(scope.stack.Back(3)))
    {
      var items := scope.stack.PopN(4);
      var args := ReadMemory(scope.memory, items[0], items[1]);
      return CallOperands(to, value, args, items[2], items[3]);
    }

    /** What a call leaves in its caller's frame: a flag that says whether it succeeded, and the returned data unless it failed
        outright. */
    ghost predicate CallFinished(operands: CallOperands, before: seq<Word>, store: seq<byte>, ret: GoBytes, suberr: Option<Error>,
                                 scope: ScopeContext)
      reads scope.stack, scope.memory
    {
      && Inside(|store|, operands.retOffset, operands.retSize)
      && scope.stack.data == before + [if suberr.None? then 1 else 0]
      && scope.memory.store == if suberr.None? || suberr == Some(ExecutionReverted)
                               then Written(store, operands.retOffset, operands.retSize, ret) else store
    }

    /** opCall, opCallCode, opDelegateCall and opStaticCall. */
    method OpCalls(kind: CallKind, scope: ScopeContext, ghost bound: uint64)
      returns (err: Option<Error>, ghost operands: CallOperands, ghost ret: GoBytes, ghost suberr: Option<Error>)
      requires CanExecute(CallOp(kind), scope) && CallPaid(kind, scope, bound)
      modifies this, accessList, tx, tx.writeSet, tx.readSet, scope.stack, scope.memory`store, scope.contract`gas, scope.contract.jumpdests
      ensures Kept(old(readOnly)) && SharesHashes(scope.contract)
      ensures |scope.memory.store| == |old(scope.memory.store)|
      ensures err == if kind.Call? && old(readOnly) && TransferredValue(kind, old(scope.stack.data)) != 0 then Some(WriteProtection)
                     else if suberr == Some(Panicked) then suberr else None
      ensures suberr == Some(Panicked) ==> PanicsAsCaller(kind, scope.contract, old(accessList.addresses))
      ensures OperandsOf(kind, old(scope.stack.data), old(scope.memory.store), operands)
      ensures err.None? ==>
                var before := old(scope.stack.data)[..|old(scope.stack.data)| - Pops(CallOp(kind))];
                CallFinished(operands, before, old(scope.memory.store), ret, suberr, scope) && returnData == ret
      ensures scope.contract.gas < bound
      decreases bound, 0
    {
      ret, suberr := [], None;
      var popped := PopCall(kind, scope);
      operands := popped;
      if kind.Call? && readOnly && popped.value != 0 {
        return Some(WriteProtection), operands, ret, suberr;
      }
      err, ret, suberr := MakeCall(kind, scope, popped, bound);
    }

    /** A call can only panic in its caller's own account, when that was not accessed before. */
    ghost predicate PanicsAsCaller(kind: CallKind, caller: Contract, accessed: set<Address>) {
      (kind.CallCode? || kind.DelegateCall?) && caller.self !in accessed
    }

    /** Where a call's operands come from. */
    ghost predicate OperandsOf(kind: CallKind, data: seq<Word>, store: seq<byte>, operands: CallOperands) {
      var transfers := kind.Call? || kind.CallCode?;
      var n := |data| - if transfers then 3 else 2;
      && Pops(CallOp(kind)) <= |data|
      && operands.to == ToAddress(data[|data| - 2])
      && operands.value == TransferredValue(kind, data)
      && Inside(|store|, data[n - 1], data[n - 2]) && operands.input == Slice(store, data[n - 1], data[n - 2])
      && operands.retOffset == data[n - 3] && operands.retSize == data[n - 4]
    }

    /** The call itself, once its operands are popped. */
    method MakeCall(kind: CallKind, scope: ScopeContext, operands: CallOperands, ghost bound: uint64)
      returns (err: Option<Error>, ghost ret: GoBytes, ghost suberr: Option<Error>)
      requires tx.Valid() && SharesHashes(scope.contract) && scope.memory.Valid()
      requires Inside(|scope.memory.store|, operands.retOffset, operands.retSize)
      requires callGasTemp + scope.contract.gas + (if operands.value != 0 then CALL_VALUE_TRANSFER_GAS else 0) < bound
      requires kind.Call? && readOnly ==> operands.value == 0
      requires operands.to in accessList.addresses
      modifies this, accessList, tx, tx.writeSet, tx.readSet, scope.stack, scope.memory`store, scope.contract`gas, scope.contract.jumpdests
      ensures Kept(old(readOnly)) && SharesHashes(scope.contract)
      ensures err == if suberr == Some(Panicked) then suberr else None
      ensures err.None? ==> CallFinished(operands, old(scope.stack.data), old(scope.memory.store), ret, suberr, scope) && returnData == ret
      ensures |scope.memory.store| == |old(scope.memory.store)|
      ensures err.Some? ==> PanicsAsCaller(kind, scope.contract, old(accessList.addresses))
      ensures suberr == Some(Depth) <==> depth > CALL_CREATE_DEPTH
      ensures scope.contract.gas < bound
      decreases bound, 0, 0
    {
      var gas := callGasTemp;
      if operands.value != 0 {
        gas := gas + CALL_STIPEND;
      }
      var r, returnGas, e := Dispatch(kind, scope.contract, operands.to, operands.input, gas, operands.value);
      if e == Some(Panicked) {
        return e, r, e;
      }
      FinishCall(scope, operands, r, e);
      scope.contract.gas := scope.contract.gas + returnGas;
      returnData := r;
      err, ret, suberr := None, r, e;
    }

    method FinishCall(scope: ScopeContext, operands: CallOperands, ret: GoBytes, suberr: Option<Error>)
      requires scope.memory.Valid()
      requires Inside(|scope.memory.store|, operands.retOffset, operands.retSize)
      modifies scope.stack, scope.memory`store
      ensures CallFinished(operands, old(scope.stack.data), old(scope.memory.store), ret, suberr, scope)
    {
      scope.stack.Push(if suberr.None? then 1 else 0);
      if suberr.None? || suberr.value == ExecutionReverted {
        WriteMemory(scope.memory, operands.retOffset, operands.retSize, ret);
      }
    }

    method Dispatch(kind: CallKind, contract: Contract, addr: Address, args: GoBytes, gas: uint64, value: Word)
      returns (ret: GoBytes, leftOverGas: uint64, err: Option<Error>)
      requires tx.Valid() && CallerOk(Parent(contract))
      requires kind.Call? && readOnly ==> value == 0
      requires addr in accessList.addresses
      modifies this, accessList, tx, tx.writeSet, tx.readSet, contract.jumpdests
      ensures Kept(old(readOnly)) && CallerOk(Parent(contract))
      ensures leftOverGas <= gas && (err == Some(Depth) <==> depth > CALL_CREATE_DEPTH)
      ensures Refused(err) ==> leftOverGas == gas
      ensures err.Some? && !Refused(err) && err.value != ExecutionReverted ==> leftOverGas == 0
      ensures err == Some(Panicked) ==> PanicsAsCaller(kind, contract, old(accessList.addresses))
      decreases gas, 8
    {
      ghost var unused;
      match kind {
        case Call() =>
          ret, leftOverGas, err, unused := Call(Parent(contract), addr, args, gas, value);
        case StaticCall() =>
          ret, leftOverGas, err, unused := StaticCall(Parent(contract), addr, args, gas);
        case _ =>
          ret, leftOverGas, err, unused := CallAsCaller(kind, contract, addr, args, gas, value);
      }
    }

    /** The pops that a create opcode starts with, and the initcode read from memory. */
    method PopCreate(exec: Exec, scope: ScopeContext) returns (value: Word, input: GoBytes)
      requires exec.Create? || exec.Create2?
      requires Ready(exec, scope)
      modifies scope.stack
      ensures scope.stack.data == old(scope.stack.data)[..|old(scope.stack.data)| - Pops(exec)]
    {
      ghost var region := Regions(exec, scope.stack.data)[0];
      assert Inside(|scope.memory.store|, region.offset, region.size);
      var items := scope.stack.PopN(if exec.Create2? then 4 else 3);
      return items[0], ReadMemory(scope.memory, items[1], items[2]);
    }

    /** The new account's address. CREATE passes the creator's own; CREATE2 derives one from a hash. */
    method NewAddress(exec: Exec, contract: Contract) returns (address: Address)
      ensures exec.Create? ==> address == contract.self
    {
      if exec.Create? {
        return contract.self;
      }
      var hashed: Word :| 0 <= hashed;
      return ToAddress(hashed);
    }

    /** The gas side of a create opcode. What is forwarded is all but a 64th for CREATE2, all but a sixth for CREATE: the same
        only below six. As CREATE's new account is the creator's own, it fails when that has code or a nonce, and loses what was
        forwarded unless refused. */
    method RunCreate(exec: Exec, contract: Contract, value: Word, input: GoBytes)
      returns (ret: GoBytes, address: Address, suberr: Option<Error>, ghost forwarded: uint64, ghost returned: uint64)
      requires exec.Create? || exec.Create2?
      requires tx.Valid() && SharesHashes(contract)
      modifies this, accessList, tx, tx.writeSet, tx.readSet, contract`gas, contract.jumpdests
      ensures Kept(false) && SharesHashes(contract)
      ensures exec.Create2? ==> forwarded == AllButOne64th(old(contract.gas))
      ensures exec.Create? ==> forwarded == old(contract.gas) - old(contract.gas) / 6
      ensures exec.Create? ==> (forwarded == AllButOne64th(old(contract.gas)) <==> old(contract.gas) < 6)
      ensures returned <= forwarded && contract.gas == old(contract.gas) - forwarded + returned
      ensures Refused(suberr) ==> returned == forwarded
      ensures exec.Create? && tx.occupied(contract.self) && !Refused(suberr) ==> suberr == Some(ContractAddressCollision) && returned == 0
      decreases contract.gas, 8
    {
      var gas := contract.gas;
      SixthIsA64thIff(gas);
      gas := gas - gas / (if exec.Create2? then 64 else 6);
      forwarded := gas;
      var _ := contract.UseGas(gas);
      address := NewAddress(exec, contract);
      var codeHash := NO_HASH;
      if exec.Create2? {
        codeHash := HashFor(input);
      }
      var returnGas;
      ghost var unused;
      ret, returnGas, suberr, unused := CreateAccount(Parent(contract), input, codeHash, gas, value, address);
      returned := returnGas;
      contract.gas := contract.gas + returnGas;
    }

    /** opCreate and opCreate2. */
    method OpCreates(exec: Exec, scope: ScopeContext, ghost bound: uint64)
      returns (err: Option<Error>, ghost address: Address, ghost suberr: Option<Error>)
      requires exec.Create? || exec.Create2?
      requires CanExecute(exec, scope) && scope.contract.gas < bound
      modifies this, accessList, tx, tx.writeSet, tx.readSet, scope.stack, scope.contract`gas, scope.contract.jumpdests
      ensures Kept(old(readOnly)) && SharesHashes(scope.contract)
      ensures err == if old(readOnly) then Some(WriteProtection) else None
      ensures err.None? ==> scope.stack.data == old(scope.stack.data)[..|old(scope.stack.data)| - Pops(exec)] + [CreateResult(exec, address, suberr)]
      ensures err.None? && suberr != Some(ExecutionReverted) ==> returnData == []
      ensures err.None? && exec.Create? && tx.occupied(scope.contract.self) ==> CreateResult(exec, address, suberr) == 0
      ensures scope.contract.gas < bound
      decreases bound, 0
    {
      address, suberr := scope.contract.self, None;
      if readOnly {
        return Some(WriteProtection), address, suberr;
      }
      var value, input := PopCreate(exec, scope);
      address, suberr := MakeCreate(exec, scope, value, input);
      err := None;
    }

    /** The creation itself, once its operands are popped. */
    method MakeCreate(exec: Exec, scope: ScopeContext, value: Word, input: GoBytes)
      returns (ghost address: Address, ghost suberr: Option<Error>)
      requires exec.Create? || exec.Create2?
      requires tx.Valid() && SharesHashes(scope.contract)
      modifies this, accessList, tx, tx.writeSet, tx.readSet, scope.stack, scope.contract`gas, scope.contract.jumpdests
      ensures Kept(false) && SharesHashes(scope.contract)
      ensures scope.stack.data == old(scope.stack.data) + [CreateResult(exec, address, suberr)]
      ensures suberr != Some(ExecutionReverted) ==> returnData == []
      ensures exec.Create? && tx.occupied(scope.contract.self) ==> CreateResult(exec, address, suberr) == 0
      ensures scope.contract.gas <= old(scope.contract.gas)
      decreases scope.contract.gas, 9
    {
      var ret, a, e;
      ghost var forwarded, returned;
      ret, a, e, forwarded, returned := RunCreate(exec, scope.contract, value, input);
      scope.stack.Push(CreateResult(exec, a, e));
      returnData := if e == Some(ExecutionReverted) then ret else [];
      address, suberr := a, e;
    }

    /** The new address, or zero if the creation failed; CREATE counts code that was not paid for as created. */
    function CreateResult(exec: Exec, address: Address, suberr: Option<Error>): Word {
      if suberr.None? || (exec.Create? && suberr.value == CodeStoreOutOfGas) then address.bits else 0
    }

    /** opSload reads the transaction's own writes first. */
    method OpSload(scope: ScopeContext)
      requires CanExecute(SLoad, scope)
      modifies tx`books, tx.readSet, scope.stack
      ensures tx.Kept(true) && Balanced(SLoad, old(scope.stack.data), scope.stack.data)
      ensures var key := StorageKey(Hash(old(scope.stack.Back(0))));
              && (scope.contract.self, key) in tx.books.seen
              && (Entry(tx.writeSet.cache, scope.contract.self, key).Some? ==>
                    scope.stack.Back(0) == BytesToWord(BytesOf(Entry(tx.writeSet.cache, scope.contract.self, key).value)))
    {
      var loc := scope.stack.Pop();
      var key := StorageKey(Hash(loc));
      var written := tx.writeSet.GetAddressAndKey(scope.contract.self, key);
      var val: Word :| 0 <= val;
      if written.Some? {
        val := BytesToWord(BytesOf(written.value));
      }
      tx.Read(scope.contract.self, key, Bytes(WordBytes(val)));
      scope.stack.Push(val);
    }

    method OpSstore(scope: ScopeContext) returns (err: Option<Error>)
      requires CanExecute(SStore, scope)
      modifies tx`books, tx.writeSet, scope.stack
      ensures tx.Kept(readOnly)
      ensures err == if readOnly then Some(WriteProtection) else None
      ensures err.None? ==> Balanced(SStore, old(scope.stack.data), scope.stack.data)
      ensures err.None? ==> tx.writeSet.cache == Updated(old(tx.writeSet.cache), scope.contract.self,
                                                         StorageKey(Hash(old(scope.stack.Back(0)))), Bytes(WordBytes(old(scope.stack.Back(1)))))
    {
      if readOnly {
        return Some(WriteProtection);
      }
      var loc := scope.stack.Pop();
      var val := scope.stack.Pop();
      tx.SetEntry(scope.contract.self, StorageKey(Hash(loc)), Bytes(WordBytes(val)));
      return None;
    }

    /** makeLog's record: the top two items give the data, the n below them the topics. */
    ghost predicate IsLog(n: nat, data: seq<Word>, store: seq<byte>, self: Address, log: Log) {
      && n + 2 <= |data|
      && log.address == self
      && |log.topics| == n && (forall i | 0 <= i < n :: log.topics[i] == data[|data| - i - 3])
      && Inside(|store|, data[|data| - 1], data[|data| - 2]) && log.data == Slice(store, data[|data| - 1], data[|data| - 2])
    }

    method PopLog(n: nat, scope: ScopeContext) returns (log: Log)
      requires Ready(MakeLog(n), scope)
      modifies scope.stack
      ensures scope.stack.data == old(scope.stack.data)[..|old(scope.stack.data)| - n - 2]
      ensures IsLog(n, old(scope.stack.data), scope.memory.store, scope.contract.self, log)
    {
      ghost var region := Regions(MakeLog(n), scope.stack.data)[0];
      assert Inside(|scope.memory.store|, region.offset, region.size);
      var items := scope.stack.PopN(n + 2);
      var d := ReadMemory(scope.memory, items[0], items[1]);
      return Log(scope.contract.self, items[2..], d);
    }

    method OpLog(n: nat, scope: ScopeContext) returns (err: Option<Error>, ghost log: Log)
      requires CanExecute(MakeLog(n), scope)
      modifies tx, scope.stack
      ensures tx.Kept(readOnly)
      ensures err == if readOnly then Some(WriteProtection) else None
      ensures err.None? ==> Balanced(MakeLog(n), old(scope.stack.data), scope.stack.data)
      ensures err.None? ==> IsLog(n, old(scope.stack.data), scope.memory.store, scope.contract.self, log)
      ensures tx.logs == if err.None? then old(tx.logs) + [log] else old(tx.logs)
    {
      if readOnly {
        return Some(WriteProtection), Log(scope.contract.self, [], []);
      }
      var record := PopLog(n, scope);
      tx.AddLog(record);
      return None, record;
    }

    /** opJump and opJumpi. A jump that is taken lands on its destination, which must be an instruction and a JUMPDEST; one that
        is not taken falls through. */
    method OpJumps(conditional: bool, pc: uint64, scope: ScopeContext) returns (outcome: Outcome)
      requires CanExecute(if conditional then JumpI else Jump, scope)
      requires pc < |scope.contract.code| && AtInstruction(scope.contract.code, pc)
      requires InstructionLength(scope.contract.code[pc]) == 1
      modifies scope.stack, scope.contract`analysis, scope.contract.jumpdests
      ensures SharesHashes(scope.contract)
      ensures var code, taken := scope.contract.code, !conditional || old(scope.stack.Back(1)) != 0;
              var valid := taken ==> ValidTarget(code, old(scope.stack.Back(0)));
              && (outcome.Continue? ==> valid && WrapAdd(outcome.pc, 1) == if taken then old(scope.stack.Back(0)) else pc + 1)
              && (outcome.Continue? ==> AtInstruction(code, WrapAdd(outcome.pc, 1)))
              && (outcome.Halt? ==> outcome.error == StopToken || (outcome.error == InvalidJump && !valid))
      ensures outcome.Continue? ==> Balanced(if conditional then JumpI else Jump, old(scope.stack.data), scope.stack.data)
    {
      FallThrough(scope.contract.code, pc);
      var aborted: bool := *;
      if aborted {
        return Halt([], StopToken);
      }
      var pos := scope.stack.Pop();
      var cond: Word := 1;
      if conditional {
        cond := scope.stack.Pop();
      }
      if cond == 0 {
        return Continue(pc);
      }
      var valid := scope.contract.ValidJumpdest(pos);
      if !valid {
        return Halt([], InvalidJump);
      }
      JumpLands(pos);
      return Continue(WrapSub(pos, 1));
    }

    // ------------------------------------------------------------ execute

    /** DUP and SWAP. */
    method ExecuteShuffle(exec: Exec, scope: ScopeContext)
      requires (exec.Dup? || exec.Swap?) && InTable(exec) && Pops(exec) <= |scope.stack.data|
      modifies scope.stack
      ensures Balanced(exec, old(scope.stack.data), scope.stack.data)
      ensures exec.Dup? ==> scope.stack.data == old(scope.stack.data) + [old(scope.stack.Back(exec.n - 1))]
      ensures exec.Swap? ==> Swapped(exec.n, old(scope.stack.data), scope.stack.data)
    {
      if exec.Dup? {
        scope.stack.Dup(exec.n);
      } else {
        scope.stack.Swap(exec.n);
      }
    }

    /** Instructions on the stack alone. */
    method ExecuteStack(exec: Exec, pc: uint64, scope: ScopeContext) returns (next: uint64)
      requires exec.Compute? || exec.Exp? || exec.AccountRead? || exec.Pop? || exec.Pc? || exec.MSize? || exec.GasLeft?
               || exec.JumpDest? || exec.Push?
      requires InTable(exec) && Pops(exec) <= |scope.stack.data| && |scope.memory.store| <= MAX_MEMORY
      requires pc < |scope.contract.code| <= MAX_INT
      modifies scope.stack
      ensures Balanced(exec, old(scope.stack.data), scope.stack.data)
      ensures next == pc + ArgumentLength(exec)
      ensures StackResult(exec, pc, scope.contract.code, |scope.memory.store|, scope.contract.gas, old(scope.stack.data), scope.stack.data)
    {
      next := pc;
      if exec.Pop? {
        var _ := scope.stack.Pop();
      } else if exec.Pc? {
        scope.stack.Push(pc);
      } else if exec.MSize? {
        scope.stack.Push(|scope.memory.store|);
      } else if exec.GasLeft? {
        scope.stack.Push(scope.contract.gas);
      } else if exec.Push? {
        next := OpPush(exec.size, pc, scope);
      } else if !exec.JumpDest? {
        OpCompute(Pops(exec), scope);
      }
    }

    /** Instructions on stack and memory. */
    method ExecuteMemory(exec: Exec, scope: ScopeContext) returns (ok: bool)
      requires exec.Keccak256? || exec.MLoad? || exec.MStore? || exec.MStore8? || exec.CopyTo?
      requires Ready(exec, scope) && |scope.contract.code| <= MAX_INT && |scope.contract.input| <= MAX_INT
      modifies scope.stack, scope.memory`store
      ensures |scope.memory.store| == |old(scope.memory.store)|
      ensures Balanced(exec, old(scope.stack.data), scope.stack.data)
      ensures exec.Keccak256? || exec.MLoad? ==> scope.memory.store == old(scope.memory.store)
      ensures !ok ==> exec == CopyTo(ReturnData)
    {
      ok := true;
      ghost var region := Regions(exec, scope.stack.data)[0];
      assert Inside(|scope.memory.store|, region.offset, region.size);
      match exec {
        case Keccak256 =>
          OpKeccak256(scope, keccak);
        case MLoad =>
          OpMload(scope);
        case MStore =>
          OpMstore(scope);
        case MStore8 =>
          OpMstore8(scope);
        case CopyTo(source) =>
          if source == ExtCode {
            CopyExternal(scope);
          } else {
            ok := ExecuteCopy(source, scope);
          }
      }
    }

    ghost predicate CopyFits(scope: ScopeContext)
      reads scope.memory, scope.stack
    {
      scope.memory.Valid() && 3 <= |scope.stack.data| && Inside(|scope.memory.store|, scope.stack.Back(0), scope.stack.Back(2))
    }

    method ExecuteCopy(source: CopySource, scope: ScopeContext) returns (ok: bool)
      requires source != ExtCode && CopyFits(scope)
      requires |scope.contract.code| <= MAX_INT && |scope.contract.input| <= MAX_INT
      modifies scope.stack, scope.memory`store
      ensures |scope.memory.store| == |old(scope.memory.store)|
      ensures scope.stack.data == old(scope.stack.data)[..|old(scope.stack.data)| - 3]
      ensures ok <==> source == ReturnData ==> old(scope.stack.Back(1)) + old(scope.stack.Back(2)) <= |returnData|
      ensures ok ==> scope.memory.store
                     == Written(old(scope.memory.store), old(scope.stack.Back(0)), old(scope.stack.Back(2)),
                                Window(SourceOf(source, scope.contract), old(scope.stack.Back(1)), old(scope.stack.Back(2))))
    {
      if source == ReturnData {
        ok := OpReturnDataCopy(returnData, scope);
      } else {
        OpCopy(SourceOf(source, scope.contract), scope);
        ok := true;
      }
    }

    function SourceOf(source: CopySource, contract: Contract): seq<byte>
      requires source != ExtCode
      reads this, contract
    {
      match source
      case CallData => contract.input
      case Code => contract.code
      case ReturnData => returnData
    }

    /** opExtCodeCopy: the code is whatever the state database says. */
    method CopyExternal(scope: ScopeContext)
      requires Ready(CopyTo(ExtCode), scope)
      modifies scope.stack, scope.memory`store
      ensures |scope.memory.store| == |old(scope.memory.store)|
      ensures scope.stack.data == old(scope.stack.data)[..|old(scope.stack.data)| - 4]
    {
      ghost var region := Regions(CopyTo(ExtCode), scope.stack.data)[0];
      assert Inside(|scope.memory.store|, region.offset, region.size);
      var _ := scope.stack.Pop();
      var from: GoBytes :| 0 <= |from|;
      OpCopy(from, scope);
    }

    /** opReturn and opRevert: a region of memory, and the token that ends the loop. */
    method OpReturns(exec: Exec, scope: ScopeContext) returns (outcome: Outcome)
      requires (exec.Return? || exec.Revert?) && Ready(exec, scope)
      modifies this`returnData, scope.stack
      ensures var data := old(scope.stack.data);
              Inside(|scope.memory.store|, data[|data| - 1], data[|data| - 2]) &&
              outcome == Halt(Slice(scope.memory.store, data[|data| - 1], data[|data| - 2]),
                              if exec.Return? then StopToken else ExecutionReverted)
      ensures returnData == if exec.Revert? then outcome.ret else old(returnData)
    {
      ghost var region := Regions(exec, scope.stack.data)[0];
      assert Inside(|scope.memory.store|, region.offset, region.size);
      var offset := scope.stack.Pop();
      var size := scope.stack.Pop();
      var ret: GoBytes := ReadMemory(scope.memory, offset, size);
      if exec.Revert? {
        returnData := ret;
      }
      return Halt(ret, if exec.Return? then StopToken else ExecutionReverted);
    }

    /** operation.execute, on a frame that Run has checked and paid for. bound is the gas before the step. */
    method Execute(exec: Exec, pc: uint64, scope: ScopeContext, ghost bound: uint64) returns (outcome: Outcome)
      requires CanExecute(exec, scope) && InTable(exec) && |scope.contract.input| <= MAX_INT
      requires AtInstruction(scope.contract.code, pc)
      requires if pc < |scope.contract.code| then InstructionLength(scope.contract.code[pc]) == 1 + ArgumentLength(exec) else exec.Stop?
      requires exec.CallOp? ==> CallPaid(exec.kind, scope, bound)
      requires scope.contract.gas <= bound && (!Halts(exec) ==> scope.contract.gas < bound)
      modifies this, accessList, tx, tx.writeSet, tx.readSet, scope.stack, scope.memory`store
      modifies scope.contract`gas, scope.contract`analysis, scope.contract.jumpdests
      ensures Kept(old(readOnly)) && SharesHashes(scope.contract)
      ensures |scope.memory.store| == |old(scope.memory.store)|
      ensures scope.contract.gas <= bound
      ensures outcome.Continue? ==>
                && scope.contract.gas < bound
                && pc < |scope.contract.code|
                && Balanced(exec, old(scope.stack.data), scope.stack.data)
                && StackResult(exec, pc, scope.contract.code, |scope.memory.store|, scope.contract.gas, old(scope.stack.data), scope.stack.data)
                && (WrapAdd(outcome.pc, 1) == pc + 1 + ArgumentLength(exec)
                    || (IsJump(exec) && ValidTarget(scope.contract.code, WrapAdd(outcome.pc, 1))))
      ensures outcome.Halt? ==> FromRun(Some(outcome.error)) && (outcome.error == StopToken ==> MayStop(exec))
      ensures outcome.Halt? && outcome.error == Panicked ==>
                exec.CallOp? && PanicsAsCaller(exec.kind, scope.contract, old(accessList.addresses))
      decreases bound, 2
    {
      if Halts(exec) || IsJump(exec) {
        outcome := ExecuteFlow(exec, pc, scope);
      } else {
        var err, next := ExecuteNext(exec, pc, scope, bound);
        outcome := if err.Some? then Halt([], err.value) else Continue(next);
      }
    }

    /** Instructions that end the run or jump. */
    method ExecuteFlow(exec: Exec, pc: uint64, scope: ScopeContext) returns (outcome: Outcome)
      requires Halts(exec) || IsJump(exec)
      requires CanExecute(exec, scope) && AtInstruction(scope.contract.code, pc)
      requires if pc < |scope.contract.code| then InstructionLength(scope.contract.code[pc]) == 1 + ArgumentLength(exec) else exec.Stop?
      modifies this`returnData, scope.stack, scope.contract`analysis, scope.contract.jumpdests
      ensures SharesHashes(scope.contract)
      ensures outcome.Continue? ==>
                && IsJump(exec) && pc < |scope.contract.code| && Balanced(exec, old(scope.stack.data), scope.stack.data)
                && (WrapAdd(outcome.pc, 1) == pc + 1 || ValidTarget(scope.contract.code, WrapAdd(outcome.pc, 1)))
      ensures outcome.Halt? ==> FromRun(Some(outcome.error)) && (outcome.error == StopToken ==> MayStop(exec)) && outcome.error != Panicked
    {
      if Halts(exec) {
        outcome := ExecuteHalting(exec, scope);
      } else {
        outcome := OpJumps(exec.JumpI?, pc, scope);
      }
    }

    /** Instructions after which the next one follows. */
    method ExecuteNext(exec: Exec, pc: uint64, scope: ScopeContext, ghost bound: uint64) returns (err: Option<Error>, next: uint64)
      requires !Halts(exec) && !IsJump(exec)
      requires CanExecute(exec, scope) && InTable(exec) && |scope.contract.input| <= MAX_INT && pc < |scope.contract.code|
      requires exec.CallOp? ==> CallPaid(exec.kind, scope, bound)
      requires scope.contract.gas < bound
      modifies this, accessList, tx, tx.writeSet, tx.readSet, scope.stack, scope.memory`store, scope.contract`gas, scope.contract.jumpdests
      ensures Kept(old(readOnly)) && SharesHashes(scope.contract)
      ensures |scope.memory.store| == |old(scope.memory.store)|
      ensures scope.contract.gas < bound
      ensures err.None? ==>
                && Balanced(exec, old(scope.stack.data), scope.stack.data)
                && StackResult(exec, pc, scope.contract.code, |scope.memory.store|, scope.contract.gas, old(scope.stack.data), scope.stack.data)
      ensures next == pc + ArgumentLength(exec) && FromRun(err) && err != Some(StopToken)
      ensures err == Some(Panicked) ==> exec.CallOp? && PanicsAsCaller(exec.kind, scope.contract, old(accessList.addresses))
      decreases bound, 1, 1
    {
      next := pc;
      if exec.CallOp? || exec.Create? || exec.Create2? {
        err := ExecuteNested(exec, scope, bound);
      } else if exec.SLoad? || exec.SStore? || exec.MakeLog? {
        err := ExecuteEffect(exec, scope);
      } else {
        err, next := ExecuteLocal(exec, pc, scope);
      }
    }

    /** Instructions that run other frames. */
    method ExecuteNested(exec: Exec, scope: ScopeContext, ghost bound: uint64) returns (err: Option<Error>)
      requires exec.CallOp? || exec.Create? || exec.Create2?
      requires CanExecute(exec, scope) && scope.contract.gas < bound
      requires exec.CallOp? ==> CallPaid(exec.kind, scope, bound)
      modifies this, accessList, tx, tx.writeSet, tx.readSet, scope.stack, scope.memory`store, scope.contract`gas, scope.contract.jumpdests
      ensures Kept(old(readOnly)) && SharesHashes(scope.contract)
      ensures |scope.memory.store| == |old(scope.memory.store)|
      ensures err.None? ==> Balanced(exec, old(scope.stack.data), scope.stack.data)
      ensures scope.contract.gas < bound && (err.None? || err == Some(WriteProtection) || err == Some(Panicked))
      ensures err == Some(Panicked) ==> exec.CallOp? && PanicsAsCaller(exec.kind, scope.contract, old(accessList.addresses))
      decreases bound, 1, 0
    {
      if exec.CallOp? {
        ghost var operands, ret, suberr;
        err, operands, ret, suberr := OpCalls(exec.kind, scope, bound);
        OneResult(exec, old(scope.stack.data), if suberr.None? then 1 else 0);
      } else {
        ghost var address, suberr;
        err, address, suberr := OpCreates(exec, scope, bound);
        OneResult(exec, old(scope.stack.data), CreateResult(exec, address, suberr));
      }
    }

    /** Instructions that stay within the frame. */
    method ExecuteLocal(exec: Exec, pc: uint64, scope: ScopeContext) returns (err: Option<Error>, next: uint64)
      requires !Halts(exec) && !exec.Jump? && !exec.JumpI? && !exec.CallOp? && !exec.Create? && !exec.Create2?
      requires !exec.SLoad? && !exec.SStore? && !exec.MakeLog?
      requires InTable(exec) && Ready(exec, scope) && |scope.contract.input| <= MAX_INT && pc < |scope.contract.code| <= MAX_INT
      modifies scope.stack, scope.memory`store
      ensures |scope.memory.store| == |old(scope.memory.store)|
      ensures err.None? ==>
                && Balanced(exec, old(scope.stack.data), scope.stack.data)
                && StackResult(exec, pc, scope.contract.code, |scope.memory.store|, scope.contract.gas, old(scope.stack.data), scope.stack.data)
      ensures next == pc + ArgumentLength(exec) && (err.None? || err == Some(ReturnDataOutOfBounds))
    {
      err, next := None, pc;
      if exec.Keccak256? || exec.MLoad? || exec.MStore? || exec.MStore8? || exec.CopyTo? {
        var ok := ExecuteMemory(exec, scope);
        err := if ok then None else Some(ReturnDataOutOfBounds);
      } else if exec.Dup? || exec.Swap? {
        ExecuteShuffle(exec, scope);
      } else {
        next := ExecuteStack(exec, pc, scope);
      }
    }

    /** Instructions that end the run. SELFDESTRUCT is refused in read-only mode. */
    method ExecuteHalting(exec: Exec, scope: ScopeContext) returns (outcome: Outcome)
      requires Halts(exec) && Ready(exec, scope)
      modifies this`returnData, scope.stack
      ensures outcome.Halt?
      ensures outcome.error == if exec.Undefined? then InvalidOpCode
                               else if exec.SelfDestruct? && readOnly then WriteProtection
                               else if exec.Revert? then ExecutionReverted
                               else StopToken
    {
      match exec {
        case Undefined =>
          outcome := Halt([], InvalidOpCode);
        case Stop =>
          outcome := Halt([], StopToken);
        case Return =>
          outcome := OpReturns(exec, scope);
        case Revert =>
          outcome := OpReturns(exec, scope);
        case SelfDestruct =>
          outcome := Halt([], if readOnly then WriteProtection else StopToken);
      }
    }

    /** Instructions that read or write the transaction's sets or logs. */
    method ExecuteEffect(exec: Exec, scope: ScopeContext) returns (err: Option<Error>)
      requires exec.SLoad? || exec.SStore? || exec.MakeLog?
      requires CanExecute(exec, scope)
      modifies tx, tx.writeSet, tx.readSet, scope.stack
      ensures tx.Kept(readOnly)
      ensures err == if readOnly && !exec.SLoad? then Some(WriteProtection) else None
      ensures err.None? ==> Balanced(exec, old(scope.stack.data), scope.stack.data)
    {
      err := None;
      match exec {
        case SLoad =>
          OpSload(scope);
        case SStore =>
          err := OpSstore(scope);
        case MakeLog(n) =>
          ghost var log;
          err, log := OpLog(n, scope);
      }
    }

    // ------------------------------------------------------------ the run loop

    /** A frame between two steps. Memory fees paid so far are those of the present size; the stack is within bounds. */
    ghost predicate Running(scope: ScopeContext)
      reads tx, tx.writeSet, tx.readSet, scope.contract, scope.contract.jumpdests, scope.memory, scope.stack
    {
      && tx.Valid() && SharesHashes(scope.contract)
      && scope.memory.Valid()
      && |scope.stack.data| <= STACK_LIMIT
      && |scope.contract.input| <= MAX_INT
    }

    /** SSTORE, about to be priced, panics: neither the frame's account nor the slot has been accessed. */
    ghost predicate StorePanics(exec: Exec, scope: ScopeContext)
      reads accessList, scope.contract, scope.stack
    {
      Pops(exec) <= |scope.stack.data| && accessList.Panics(exec, scope.contract.gas, scope.contract.self, scope.stack.data)
    }

    /** Dynamic gas of one instruction, priced and paid. */
    method Charge(exec: Exec, scope: ScopeContext, memorySize: uint64) returns (err: Option<Error>)
      requires scope.memory.Valid() && Pops(exec) <= |scope.stack.data| && InTable(exec)
      modifies this`callGasTemp, accessList, scope.contract`gas, scope.memory`lastGasCost, scope.memory`paid
      ensures scope.contract.gas <= old(scope.contract.gas)
      ensures old(accessList.addresses) <= accessList.addresses
      ensures err.None? || err == Some(OutOfGas) || err == Some(Panicked)
      ensures err == Some(Panicked) <==> memorySize <= MAX_MEMORY && old(StorePanics(exec, scope))
      ensures err.None? ==> scope.memory.PaidFor(Grown(|scope.memory.store| / 32, memorySize))
      ensures err.None? ==> scope.contract.gas + MinimalDynamicGas(exec) <= old(scope.contract.gas)
      ensures err.None? && exec.CallOp? ==>
                && ToAddress(scope.stack.Back(1)) in accessList.addresses
                && callGasTemp + scope.contract.gas
                + (if TransferredValue(exec.kind, scope.stack.data) != 0 then CALL_VALUE_TRANSFER_GAS else 0) <= old(scope.contract.gas)
    {
      var data := scope.stack.data;
      if exec.CallOp? {
        var toEmpty: bool := *;
        var warm := accessList.TouchAddress(ToAddress(data[|data| - 2]));
        FeeMonotone(|scope.memory.store| / 32, Grown(|scope.memory.store| / 32, memorySize));
        var paid;
        paid, callGasTemp := PayForCall(exec.kind, TransferredValue(exec.kind, data) != 0, toEmpty, data[|data| - 1], warm,
                                        scope.contract, scope.memory, memorySize);
        return if paid then None else Some(OutOfGas);
      }
      var original: Word :| 0 <= original;
      var current: Word :| 0 <= current;
      var revives: bool := *;
      var cost := DynamicGas(exec, scope.contract.gas, scope.contract.self, data, scope.memory, memorySize, accessList,
                             Answers(original, current, revives));
      if cost.Failure? {
        return Some(if cost.error == Panicked then Panicked else OutOfGas);
      }
      var paid := scope.contract.UseGas(cost.value);
      FeeMonotone(|scope.memory.store| / 32, Grown(|scope.memory.store| / 32, memorySize));
      return if paid then None else Some(OutOfGas);
    }

    /** The checks of the run loop before an instruction executes: stack, constant gas, memory size, dynamic gas, resize. */
    method Prepare(op: byte, scope: ScopeContext) returns (err: Option<Error>)
      requires Running(scope)
      modifies this`callGasTemp, accessList, scope.contract`gas, scope.memory
      ensures scope.contract.gas <= old(scope.contract.gas) && FromRun(err) && err != Some(StopToken)
      ensures old(accessList.addresses) <= accessList.addresses
      ensures err == Some(Panicked) <==> old(StorePanics(Lookup(op).exec, scope))
      ensures err.None? ==>
                var exec := Lookup(op).exec;
                && Ready(exec, scope) && InTable(exec)
                && |scope.stack.data| - Pops(exec) + Pushes(exec) <= STACK_LIMIT
                && (Halts(exec) || scope.contract.gas < old(scope.contract.gas))
                && (exec.CallOp? ==> CallPaid(exec.kind, scope, old(scope.contract.gas)))
    {
      var operation := Lookup(op);
      var exec := operation.exec;
      TableBoundsMatch(op);
      TableParameters(op);
      NothingIsFree(op);
      if |scope.stack.data| < operation.minStack {
        return Some(StackUnderflow);
      } else if |scope.stack.data| > operation.maxStack {
        return Some(StackOverflow);
      }
      var paid := scope.contract.UseGas(operation.constantGas);
      if !paid {
        return Some(OutOfGas);
      }
      if HasDynamicGas(exec) {
        err := Grow(exec, scope);
      } else {
        err := None;
      }
    }

    /** The dynamic part of the checks. Memory ends up holding every region that the instruction will touch. */
    method Grow(exec: Exec, scope: ScopeContext) returns (err: Option<Error>)
      requires scope.memory.Valid() && Pops(exec) <= |scope.stack.data| && InTable(exec)
      modifies this`callGasTemp, accessList, scope.contract`gas, scope.memory
      ensures scope.contract.gas <= old(scope.contract.gas) && FromRun(err) && err != Some(StopToken)
      ensures old(accessList.addresses) <= accessList.addresses
      ensures err == Some(Panicked) <==> old(StorePanics(exec, scope))
      ensures err.None? ==> Ready(exec, scope)
      ensures err.None? ==> scope.contract.gas + MinimalDynamicGas(exec) <= old(scope.contract.gas)
      ensures err.None? && exec.CallOp? ==>
                && ToAddress(scope.stack.Back(1)) in accessList.addresses
                && callGasTemp + scope.contract.gas
                + (if TransferredValue(exec.kind, scope.stack.data) != 0 then CALL_VALUE_TRANSFER_GAS else 0) <= old(scope.contract.gas)
    {
      var memorySize := RoundedMemorySize(exec, scope.stack.data);
      if memorySize.Failure? {
        return Some(memorySize.error);
      }
      err := PayAndResize(exec, scope, memorySize.value);
    }

    method PayAndResize(exec: Exec, scope: ScopeContext, memorySize: uint64) returns (err: Option<Error>)
      requires scope.memory.Valid() && Pops(exec) <= |scope.stack.data| && InTable(exec)
      requires MemorySize(exec, scope.stack.data).Some? && memorySize % 32 == 0 && MemorySize(exec, scope.stack.data).value <= memorySize
      modifies this`callGasTemp, accessList, scope.contract`gas, scope.memory
      ensures scope.contract.gas <= old(scope.contract.gas) && (err.None? || err == Some(OutOfGas) || err == Some(Panicked))
      ensures old(accessList.addresses) <= accessList.addresses
      ensures err == Some(Panicked) <==> memorySize <= MAX_MEMORY && old(StorePanics(exec, scope))
      ensures err.None? ==> Ready(exec, scope)
      ensures err.None? ==> scope.contract.gas + MinimalDynamicGas(exec) <= old(scope.contract.gas)
      ensures err.None? && exec.CallOp? ==>
                && ToAddress(scope.stack.Back(1)) in accessList.addresses
                && callGasTemp + scope.contract.gas
                + (if TransferredValue(exec.kind, scope.stack.data) != 0 then CALL_VALUE_TRANSFER_GAS else 0) <= old(scope.contract.gas)
    {
      err := Charge(exec, scope, memorySize);
      if err.Some? {
        return;
      }
      ResizePaid(scope.memory, memorySize);
      MemorySizeCovers(exec, scope.stack.data, |scope.memory.store|);
    }

    /** The instruction fetched has the length that its table entry says; past the end of the code it is a STOP. */
    lemma Fetched(code: Code, pc: uint64, op: byte)
      requires AtInstruction(code, pc) && op == if pc < |code| then code[pc] else 0
      ensures InTable(Lookup(op).exec)
      ensures if pc < |code| then InstructionLength(code[pc]) == 1 + ArgumentLength(Lookup(op).exec) else Lookup(op).exec.Stop?
      ensures pc < |code| ==> AtInstruction(code, pc + InstructionLength(code[pc]))
    {
      TableParameters(op);
      if pc < |code| {
        FallThrough(code, pc);
      }
    }

    lemma Leads(code: Code, p: uint64, q: nat)
      requires p < |code| && AtInstruction(code, p)
      requires var exec := Lookup(code[p]).exec;
               q == p + 1 + ArgumentLength(exec) || (IsJump(exec) && ValidTarget(code, q))
      ensures Follows(code, p, q)
    {
      Fetched(code, p, code[p]);
    }

    /** One turn of the run loop. A turn that goes on has cost gas and leads to an instruction. */
    method Step(pc: uint64, scope: ScopeContext) returns (outcome: Outcome)
      requires Running(scope) && AtInstruction(scope.contract.code, pc)
      modifies this, accessList, tx, tx.writeSet, tx.readSet, scope.stack, scope.memory
      modifies scope.contract`gas, scope.contract`analysis, scope.contract.jumpdests
      ensures Kept(old(readOnly)) && SharesHashes(scope.contract)
      ensures scope.contract.gas <= old(scope.contract.gas)
      ensures outcome.Continue? ==>
                && Running(scope)
                && scope.contract.gas < old(scope.contract.gas)
                && Follows(scope.contract.code, pc, WrapAdd(outcome.pc, 1))
      ensures outcome.Halt? ==> FromRun(Some(outcome.error))
      ensures outcome.Halt? && outcome.error == StopToken && pc < |scope.contract.code| ==>
                MayStop(Lookup(scope.contract.code[pc]).exec)
      ensures outcome.Halt? && outcome.error == Panicked ==> scope.contract.self !in old(accessList.addresses)
      ensures var exec := Lookup(scope.contract.GetOp(pc)).exec;
              !exec.CallOp? ==> (outcome.Halt? && outcome.error == Panicked <==> old(StorePanics(exec, scope)))
      decreases scope.contract.gas, 3, 0
    {
      ghost var bound := scope.contract.gas;
      var op := scope.contract.GetOp(pc);
      var err := Prepare(op, scope);
      if err.Some? {
        return Halt([], err.value);
      }
      Fetched(scope.contract.code, pc, op);
      outcome := Execute(Lookup(op).exec, pc, scope, bound);
      if outcome.Continue? {
        Leads(scope.contract.code, pc, WrapAdd(outcome.pc, 1));
      }
    }

    /** The trace of a run of code: it starts at the first instruction, each turn follows the one before, the stack is within
        its limit, and the memory fees paid are those of the memory's size. */
    ghost predicate Traces(code: Code, turns: seq<Turn>) {
      && (turns != [] ==> turns[0].pc == 0)
      && (forall i | 0 <= i < |turns| :: Sound(code, turns[i]))
      && forall i | 0 < i < |turns| :: Follows(code, turns[i - 1].pc, turns[i].pc)
    }

    ghost predicate Sound(code: Code, turn: Turn) {
      AtInstruction(code, turn.pc) && turn.items <= STACK_LIMIT && turn.paid == Fee(turn.words)
    }

    lemma TraceExtends(code: Code, turns: seq<Turn>, turn: Turn)
      requires Traces(code, turns) && Sound(code, turn)
      requires if turns == [] then turn.pc == 0 else Follows(code, turns[|turns| - 1].pc, turn.pc)
      ensures Traces(code, turns + [turn])
    {}

    /** A run that ends without an error has come to the end of the code, or to an instruction that stops it. */
    ghost predicate EndsAt(code: Code, turns: seq<Turn>, err: Option<Error>)
    {
      if code == [] then turns == [] && err.None?
      else turns != [] && (err.None? ==> turns[|turns| - 1].pc >= |code| || MayStop(Lookup(code[turns[|turns| - 1].pc]).exec))
    }

    /** The run loop. Every turn but the last has cost gas. */
    method RunLoop(contract: Contract, input: GoBytes) returns (ret: GoBytes, err: Option<Error>, ghost turns: seq<Turn>)
      requires tx.Valid() && SharesHashes(contract)
      modifies this, accessList, tx, tx.writeSet, tx.readSet, contract`gas, contract`input, contract`analysis, contract.jumpdests
      ensures Kept(old(readOnly)) && SharesHashes(contract) && FromRun(err)
      ensures err == Some(Panicked) ==> contract.self !in old(accessList.addresses)
      ensures contract.gas <= old(contract.gas)
      ensures Traces(contract.code, turns) && EndsAt(contract.code, turns, err)
      ensures |turns| <= old(contract.gas) - contract.gas + 1
      decreases contract.gas, 4
    {
      turns := [];
      returnData := [];
      if |contract.code| == 0 {
        return [], None, turns;
      }
      var scope := new ScopeContext(contract);
      contract.input := input;
      ret, err, turns := Loop(scope);
    }

    method Loop(scope: ScopeContext) returns (ret: GoBytes, err: Option<Error>, ghost turns: seq<Turn>)
      requires Running(scope) && scope.contract.code != []
      modifies this, accessList, tx, tx.writeSet, tx.readSet, scope.stack, scope.memory
      modifies scope.contract`gas, scope.contract`analysis, scope.contract.jumpdests
      ensures Kept(old(readOnly)) && SharesHashes(scope.contract) && FromRun(err)
      ensures err == Some(Panicked) ==> scope.contract.self !in old(accessList.addresses)
      ensures scope.contract.gas <= old(scope.contract.gas)
      ensures Traces(scope.contract.code, turns) && EndsAt(scope.contract.code, turns, err)
      ensures |turns| <= old(scope.contract.gas) - scope.contract.gas + 1
      decreases scope.contract.gas, 3, 1
    {
      turns := [];
      ghost var code := scope.contract.code;
      var pc: uint64 := 0;
      while true
        invariant Running(scope) && Kept(old(readOnly)) && scope.contract.code == code
        invariant |turns| + scope.contract.gas <= old(scope.contract.gas)
        invariant AtInstruction(code, pc)
        invariant Traces(code, turns)
        invariant if turns == [] then pc == 0 else Follows(code, turns[|turns| - 1].pc, pc)
        decreases scope.contract.gas
      {
        ghost var turn := Turn(pc, |scope.stack.data|, |scope.memory.store| / 32, scope.memory.paid);
        var outcome := Step(pc, scope);
        TraceExtends(code, turns, turn);
        turns := turns + [turn];
        if outcome.Halt? {
          return outcome.ret, if outcome.error == StopToken then None else Some(outcome.error), turns;
        }
        pc := WrapAdd(outcome.pc, 1);
      }
    }

    /** Run. It ends, gives back at most the gas supplied, and keeps what Kept says; and its trace is one of its code. */
    method Run(contract: Contract, input: GoBytes, isStatic: bool)
      returns (ret: GoBytes, err: Option<Error>, ghost turns: seq<Turn>)
      requires tx.Valid() && SharesHashes(contract) && depth <= CALL_CREATE_DEPTH
      modifies this, accessList, tx, tx.writeSet, tx.readSet, contract`gas, contract`input, contract`analysis, contract.jumpdests
      ensures Kept(old(readOnly) || isStatic) && SharesHashes(contract) && FromRun(err)
      ensures err == Some(Panicked) ==> contract.self !in old(accessList.addresses)
      ensures contract.gas <= old(contract.gas)
      ensures Traces(contract.code, turns) && EndsAt(contract.code, turns, err)
      ensures |turns| <= old(contract.gas) - contract.gas + 1
      decreases contract.gas, 5
    {
      depth := depth + 1;
      var entersReadOnly := isStatic && !readOnly;
      if entersReadOnly {
        readOnly := true;
      }
      ret, err, turns := RunLoop(contract, input);
      if entersReadOnly {
        readOnly := false;
      }
      depth := depth - 1;
    }
  }
}
