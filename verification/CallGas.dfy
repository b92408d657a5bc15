/** Gas that a call opcode charges and forwards (vm/ethvm/gas.go, gasCall* in gas_table.go, operations_acl.go). */
module CallGas {
  import opened Words
  import opened Params
  import opened Memories
  import opened Contracts

  /** L(n) of Appendix H.1: all but one 64th. */
  function AllButOne64th(n: nat): nat {
    n - n / 64
  }

  /** callGas. When base exceeds availableGas the subtraction wraps and the result is far more than there is. */
  function CallGas(availableGas: uint64, base: uint64, callCost: Word): (r: uint64) {
    var available := WrapSub(availableGas, base);
    var gas := available - available / 64;
    if callCost > MAX_UINT64 || gas < callCost then gas else callCost
  }

  /** Without wrap-around callGas is EIP-150's rule: the request, capped at all but one 64th of what remains. */
  lemma CallGasCaps(availableGas: uint64, base: uint64, callCost: Word)
    requires base <= availableGas
    ensures CallGas(availableGas, base, callCost) == Min(callCost, AllButOne64th(availableGas - base))
  {}

  /** Prices below this bound, memory included, keep even a wrapped callGas from overflowing later sums. */
  const BASE_BOUND: nat := 0x200_0000_0000_0000

  /** With wrap-around, the sums that follow do not overflow and come to more than there is: the charge must fail. */
  lemma WrappedCallGasCannotBePaid(availableGas: uint64, base: uint64, callCost: Word)
    requires availableGas < base < BASE_BOUND
    ensures availableGas < base + CallGas(availableGas, base, callCost)
    ensures base + CallGas(availableGas, base, callCost) + COLD_ACCOUNT_ACCESS_COST <= MAX_UINT64
  {
    var wrapped := WrapSub(availableGas, base);
    assert CallGas(availableGas, base, callCost) <= wrapped - wrapped / 64;
  }

  datatype CallKind = Call | CallCode | DelegateCall | StaticCall

  /** opCreate keeps a sixth of the gas for the creator, where EIP-150 has it keep a 64th: that is the same only below six. */
  lemma SixthIsA64thIff(gas: nat)
    ensures gas - gas / 6 == AllButOne64th(gas) <==> gas < 6
  {}

  /** With 64 units of gas, the callee gets 54 of the 63. */
  lemma SixthOf64()
    ensures 64 - 64 / 6 == 54 && AllButOne64th(64) == 63
  {}

  /** The part of a call's price that depends on neither memory nor access list. */
  function ValueCost(kind: CallKind, transfersValue: bool, toEmpty: bool): (r: uint64)
    ensures r <= 34000
    ensures (kind == Call || kind == CallCode) && transfersValue ==> CALL_VALUE_TRANSFER_GAS <= r
  {
    if !transfersValue then 0
    else match kind
      case Call => (if toEmpty then CALL_NEW_ACCOUNT_GAS else 0) + CALL_VALUE_TRANSFER_GAS
      case CallCode => CALL_VALUE_TRANSFER_GAS
      case _ => 0
  }

  /** gasCall, gasCallCode, gasDelegateCall and gasStaticCall, which differ in ValueCost only. */
  method OldCalculator(kind: CallKind, transfersValue: bool, toEmpty: bool, requested: Word,
                       contract: Contract, mem: Memory, memorySize: uint64)
    returns (r: Result<uint64>, callGasTemp: uint64)
    requires mem.Valid()
    modifies mem`lastGasCost, mem`paid
    ensures r.Success? <==> memorySize <= MAX_MEMORY
    ensures r.Failure? ==> mem.Valid()
    ensures r.Success? ==> mem.PaidFor(Grown(|mem.store| / 32, memorySize))
    ensures r.Success? ==>
              var base := ValueCost(kind, transfersValue, toEmpty) + Fee(Grown(|mem.store| / 32, memorySize)) - Fee(|mem.store| / 32);
              && 0 <= base < BASE_BOUND
              && callGasTemp == CallGas(contract.gas, base, requested)
              && r.value == base + callGasTemp
  {
    callGasTemp := 0;
    var gas := ValueCost(kind, transfersValue, toEmpty);
    var memoryGas := mem.GasCost(memorySize);
    if memoryGas.Failure? {
      return Failure(memoryGas.error), callGasTemp;
    }
    var sum := SafeAdd(gas, memoryGas.value);
    if sum.None? {
      return Failure(GasUintOverflow), callGasTemp;
    }
    gas := sum.value;
    callGasTemp := CallGas(contract.gas, gas, requested);
    if gas <= contract.gas {
      CallGasCaps(contract.gas, gas, requested);
    } else {
      WrappedCallGasCannotBePaid(contract.gas, gas, requested);
    }
    var total := SafeAdd(gas, callGasTemp);
    if total.None? {
      return Failure(GasUintOverflow), callGasTemp;
    }
    return Success(total.value), callGasTemp;
  }

  /** coldCost: what a cold address costs beyond the warm price already charged as constant gas. */
  function ColdCost(warmAccess: bool): uint64 {
    if warmAccess then 0 else COLD_ACCOUNT_ACCESS_COST - WARM_STORAGE_READ_COST
  }

  /** makeCallVariantGasCallEIP2929: charge the cold access, price the call, then give the cold charge back and
      add it to the price. The last addition is unchecked; it never overflows. */
  method CallVariant(kind: CallKind, transfersValue: bool, toEmpty: bool, requested: Word, warmAccess: bool,
                     contract: Contract, mem: Memory, memorySize: uint64)
    returns (r: Result<uint64>, callGasTemp: uint64)
    requires mem.Valid()
    modifies contract`gas, mem`lastGasCost, mem`paid
    ensures contract.gas <= old(contract.gas)
    ensures r.Success? <==> memorySize <= MAX_MEMORY && ColdCost(warmAccess) <= old(contract.gas)
    ensures r.Success? ==> contract.gas == old(contract.gas)
    ensures r.Success? ==> mem.PaidFor(Grown(|mem.store| / 32, memorySize))
    ensures r.Success? ==>
              var base := ColdCost(warmAccess) + ValueCost(kind, transfersValue, toEmpty)
                          + Fee(Grown(|mem.store| / 32, memorySize)) - Fee(|mem.store| / 32);
              if base <= contract.gas
              then callGasTemp == Min(requested, AllButOne64th(contract.gas - base)) && r.value == base + callGasTemp
              else contract.gas < r.value
  {
    callGasTemp := 0;
    var coldCost: uint64 := COLD_ACCOUNT_ACCESS_COST - WARM_STORAGE_READ_COST;
    if !warmAccess {
      var paid := contract.UseGas(coldCost);
      if !paid {
        return Failure(OutOfGas), callGasTemp;
      }
    }
    ghost var available := contract.gas;
    r, callGasTemp := OldCalculator(kind, transfersValue, toEmpty, requested, contract, mem, memorySize);
    if r.Success? {
      ghost var base := r.value - callGasTemp;
      if base <= available {
        CallGasCaps(available, base, requested);
      } else {
        WrappedCallGasCannotBePaid(available, base, requested);
      }
    }
    if warmAccess || r.Failure? {
      return r, callGasTemp;
    }
    contract.gas := contract.gas + coldCost;
    return Success(r.value + coldCost), callGasTemp;
  }

  /** What Run does with a call opcode's dynamic gas: price it and pay. It succeeds exactly when the price without the
      forwarded gas can be paid, and then the caller keeps at least one 64th of what remains. */
  method PayForCall(kind: CallKind, transfersValue: bool, toEmpty: bool, requested: Word, warmAccess: bool,
                    contract: Contract, mem: Memory, memorySize: uint64)
    returns (ok: bool, callGasTemp: uint64)
    requires mem.Valid()
    modifies contract`gas, mem`lastGasCost, mem`paid
    ensures contract.gas <= old(contract.gas)
    ensures var base := ColdCost(warmAccess) + ValueCost(kind, transfersValue, toEmpty)
                        + Fee(Grown(|mem.store| / 32, memorySize)) - Fee(|mem.store| / 32);
            && (ok <==> memorySize <= MAX_MEMORY && base <= old(contract.gas))
            && (ok ==>
                  var rem := old(contract.gas) - base;
                  && callGasTemp == Min(requested, AllButOne64th(rem))
                  && contract.gas == rem - callGasTemp
                  && rem / 64 <= contract.gas)
    ensures ok ==> mem.PaidFor(Grown(|mem.store| / 32, memorySize))
  {
    FeeMonotone(|mem.store| / 32, Grown(|mem.store| / 32, memorySize));
    var price;
    price, callGasTemp := CallVariant(kind, transfersValue, toEmpty, requested, warmAccess, contract, mem, memorySize);
    if price.Failure? {
      return false, callGasTemp;
    }
    ok := contract.UseGas(price.value);
  }
}
