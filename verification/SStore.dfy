/** Net gas metering of SSTORE: gasSStore (EIP-1283), gasSStoreEIP2200 and makeGasSStoreFunc (EIP-2929, EIP-3529). */
module SStore {
  import opened Words
  import opened Params
  import opened Sums

  datatype Slot = Slot(account: Address, key: Hash)

  datatype Schedule =
    | Eip1283
    | Eip2200
    | Eip2929(clearingRefund: uint64)
  {
    /** W: a write that changes nothing, or changes a slot already dirty. */
    function WarmGas(): uint64 {
      match this
      case Eip1283 => NET_SSTORE_NOOP_GAS
      case Eip2200 => SLOAD_GAS_EIP2200
      case Eip2929(_) => WARM_STORAGE_READ_COST
    }

    /** The first change of a slot whose original value is zero, or is not. */
    function FirstGas(original: Word): uint64 {
      if original == 0 then (if Eip1283? then NET_SSTORE_INIT_GAS else SSTORE_SET_GAS)
      else match this
        case Eip1283 => NET_SSTORE_CLEAN_GAS
        case Eip2200 => SSTORE_RESET_GAS
        case Eip2929(_) => SSTORE_RESET_GAS - COLD_SLOAD_COST
    }

    /** R: the refund that is pending while an originally nonzero slot is zero. */
    function ClearRefund(): uint64 {
      match this
      case Eip1283 => NET_SSTORE_CLEAR_REFUND
      case Eip2200 => SSTORE_CLEARS_REFUND_EIP2200
      case Eip2929(clearing) => clearing
    }

    /** U: what remains spent on a slot that differs from its original value. */
    function DirtyExtra(original: Word): int {
      FirstGas(original) - WarmGas()
    }

    /** The net gas bound up in a slot: a function of its original and its current value, not of its history. */
    function Potential(original: Word, current: Word): int {
      (if current != original then DirtyExtra(original) else 0)
      - (if original != 0 && current == 0 then ClearRefund() else 0)
    }

    function ColdCost(warm: bool): uint64 {
      if Eip2929? && !warm then COLD_SLOAD_COST else 0
    }
  }

  /** What one write is charged, the cold surcharge aside. */
  function WriteGas(s: Schedule, original: Word, current: Word, value: Word): uint64 {
    if current != value && original == current then s.FirstGas(original) else s.WarmGas()
  }

  /** What one write adds to the refund counter (subtracts, when negative). */
  function WriteRefund(s: Schedule, original: Word, current: Word, value: Word): int {
    if current == value then 0
    else (if original != 0 && value == 0 then s.ClearRefund() else 0)
         - (if original != 0 && current == 0 then s.ClearRefund() else 0)
         + (if original != current && original == value then s.DirtyExtra(original) else 0)
  }

  /** The heart of net metering: gas minus refund is W plus the change of the potential. */
  lemma WriteMovesPotential(s: Schedule, original: Word, current: Word, value: Word)
    ensures WriteGas(s, original, current, value) - WriteRefund(s, original, current, value)
            == s.WarmGas() + s.Potential(original, value) - s.Potential(original, current)
  {}

  // ---------------------------------------------------------------- whole histories

  datatype Write = Write(slot: Slot, value: Word)

  type Storage = map<Slot, Word>

  function Committed(committed: Storage, k: Slot): Word {
    if k in committed then committed[k] else 0
  }

  function Current(committed: Storage, current: Storage, k: Slot): Word {
    if k in current then current[k] else Committed(committed, k)
  }

  /** Gas minus refund of one write, cold surcharge included. */
  function NetPrice(s: Schedule, committed: Storage, current: Storage, k: Slot, value: Word, warm: bool): int {
    var original, before := Committed(committed, k), Current(committed, current, k);
    s.ColdCost(warm) + WriteGas(s, original, before, value) - WriteRefund(s, original, before, value)
  }

  /** Gas minus refund of a sequence of writes to any slots, each becoming the slot's current value. */
  function NetGas(s: Schedule, committed: Storage, current: Storage, warm: set<Slot>, writes: seq<Write>): int
    decreases |writes|
  {
    if writes == [] then 0
    else
      var w := writes[0];
      NetPrice(s, committed, current, w.slot, w.value, w.slot in warm)
      + NetGas(s, committed, current[w.slot := w.value], warm + {w.slot}, writes[1..])
  }

  function After(current: Storage, writes: seq<Write>): Storage
    decreases |writes|
  {
    if writes == [] then current else After(current[writes[0].slot := writes[0].value], writes[1..])
  }

  function Touched(writes: seq<Write>): set<Slot> {
    set w | w in writes :: w.slot
  }

  ghost function SlotPotential(s: Schedule, committed: Storage, current: Storage): Slot -> int {
    k => s.Potential(Committed(committed, k), Current(committed, current, k))
  }

  ghost function TotalPotential(s: Schedule, committed: Storage, current: Storage): int {
    Sum(current.Keys, SlotPotential(s, committed, current))
  }

  /** n writes, of which `cold` were the first touch of their slot, from storage as committed to storage as it is now. */
  ghost function ClosedForm(s: Schedule, committed: Storage, current: Storage, n: nat, cold: nat): int {
    n * s.WarmGas() + cold * s.ColdCost(false) + TotalPotential(s, committed, current)
  }

  lemma TotalPotentialAfterWrite(s: Schedule, committed: Storage, current: Storage, k: Slot, v: Word)
    ensures TotalPotential(s, committed, current[k := v]) == TotalPotential(s, committed, current)
              + s.Potential(Committed(committed, k), v)
              - s.Potential(Committed(committed, k), Current(committed, current, k))
  {
    var after := current[k := v];
    var f, g := SlotPotential(s, committed, current), SlotPotential(s, committed, after);
    assert after.Keys == current.Keys + {k};
    SumSupport(current.Keys, after.Keys, f);
    SumChangeAt(after.Keys, f, g, k);
  }

  /** Path independence: over any interleaving of writes to any slots, gas minus refund is W per write, one cold charge
      per newly touched slot, and otherwise depends only on where the slots start and end. */
  lemma {:induction false} NetMeteringIsPathIndependent(s: Schedule, committed: Storage, current: Storage, warm: set<Slot>, writes: seq<Write>)
    ensures NetGas(s, committed, current, warm, writes)
            == ClosedForm(s, committed, After(current, writes), |writes|, |Touched(writes) - warm|)
               - TotalPotential(s, committed, current)
    decreases |writes|
  {
    if writes == [] {
      assert Touched(writes) - warm == {};
    } else {
      var w, rest := writes[0], writes[1..];
      var original, before := Committed(committed, w.slot), Current(committed, current, w.slot);
      NetMeteringIsPathIndependent(s, committed, current[w.slot := w.value], warm + {w.slot}, rest);
      WriteMovesPotential(s, original, before, w.value);
      TotalPotentialAfterWrite(s, committed, current, w.slot, w.value);
      ColdSlots(s, warm, writes);
      OneMore(|rest|, s.WarmGas());
    }
  }

  lemma ColdSlots(s: Schedule, warm: set<Slot>, writes: seq<Write>)
    requires writes != []
    ensures |Touched(writes) - warm| * s.ColdCost(false)
            == s.ColdCost(writes[0].slot in warm) + |Touched(writes[1..]) - (warm + {writes[0].slot})| * s.ColdCost(false)
  {
    var k := writes[0].slot;
    NewlyTouched(warm, writes);
    OneMore(|Touched(writes[1..]) - (warm + {k})|, s.ColdCost(false));
  }

  lemma NewlyTouched(warm: set<Slot>, writes: seq<Write>)
    requires writes != []
    ensures |Touched(writes) - warm|
            == (if writes[0].slot in warm then 0 else 1) + |Touched(writes[1..]) - (warm + {writes[0].slot})|
  {
    var k, rest := writes[0].slot, writes[1..];
    assert Touched(writes) == {k} + Touched(rest) by {
      assert writes == [writes[0]] + rest;
    }
    var colder := Touched(rest) - (warm + {k});
    assert Touched(writes) - warm == if k in warm then colder else {k} + colder;
  }

  lemma OneMore(n: nat, x: int)
    ensures (n + 1) * x == x + n * x
  {}

  /** The closed form for one slot written n times from a clean start: only the last value matters. */
  lemma NetMeteringOfOneSlot(s: Schedule, k: Slot, committed: Storage, writes: seq<Write>)
    requires writes != [] && forall w | w in writes :: w.slot == k
    ensures var original, last := Committed(committed, k), writes[|writes| - 1].value;
            NetGas(s, committed, map[], {}, writes)
            == |writes| * s.WarmGas() + s.ColdCost(false)
               + (if last != original then s.DirtyExtra(original) else 0)
               - (if original != 0 && last == 0 then s.ClearRefund() else 0)
  {
    NetMeteringIsPathIndependent(s, committed, map[], {}, writes);
    AfterOneSlot(k, map[], writes);
    OneSlotTouched(k, writes);
    var end: Storage := map[k := writes[|writes| - 1].value];
    assert end.Keys == {k} && {k} - {k} == {};
    SumRemove({k}, SlotPotential(s, committed, end), k);
    assert 1 * s.ColdCost(false) == s.ColdCost(false);
  }

  lemma OneSlotTouched(k: Slot, writes: seq<Write>)
    requires writes != [] && forall w | w in writes :: w.slot == k
    ensures |Touched(writes) - {}| == 1
  {
    assert writes[0] in writes;
    assert Touched(writes) - {} == {k};
  }

  lemma {:induction false} AfterOneSlot(k: Slot, current: Storage, writes: seq<Write>)
    requires forall w | w in writes :: w.slot == k
    ensures writes != [] ==> After(current, writes) == current[k := writes[|writes| - 1].value]
    decreases |writes|
  {
    if writes != [] {
      assert writes[0] in writes;
      var next := current[k := writes[0].value];
      AfterOneSlot(k, next, writes[1..]);
      if |writes| > 1 {
        assert next[k := writes[|writes| - 1].value] == current[k := writes[|writes| - 1].value];
      }
    }
  }

  // ---------------------------------------------------------------- buffered writes

  /** Gas minus refund when the writes go to a buffer, as opSstore's do, and the database keeps answering `stored`. */
  function NetGasBuffered(s: Schedule, original: Word, stored: Word, values: seq<Word>): int {
    if values == [] then 0
    else
      var last := values[|values| - 1];
      NetGasBuffered(s, original, stored, values[..|values| - 1])
      + WriteGas(s, original, stored, last) - WriteRefund(s, original, stored, last)
  }

  function PotentialSum(s: Schedule, original: Word, values: seq<Word>): int {
    if values == [] then 0
    else PotentialSum(s, original, values[..|values| - 1]) + s.Potential(original, values[|values| - 1])
  }

  lemma {:induction false} BufferedGas(s: Schedule, original: Word, stored: Word, values: seq<Word>)
    ensures NetGasBuffered(s, original, stored, values)
            == |values| * (s.WarmGas() - s.Potential(original, stored)) + PotentialSum(s, original, values)
  {
    if values != [] {
      var init := values[..|values| - 1];
      BufferedGas(s, original, stored, init);
      WriteMovesPotential(s, original, stored, values[|values| - 1]);
      OneMore(|init|, s.WarmGas() - s.Potential(original, stored));
    }
  }

  /** Buffered writes are metered net exactly when the overwritten values hold no potential beyond the stored one's. */
  lemma BufferedMeteringIsNetIff(s: Schedule, original: Word, stored: Word, values: seq<Word>)
    requires values != []
    ensures var n, last, init := |values|, values[|values| - 1], values[..|values| - 1];
            NetGasBuffered(s, original, stored, values)
            == n * s.WarmGas() + s.Potential(original, last) - s.Potential(original, stored)
            <==> PotentialSum(s, original, init) == (n - 1) * s.Potential(original, stored)
  {
    var n, w, p := |values|, s.WarmGas(), s.Potential(original, stored);
    BufferedGas(s, original, stored, values);
    assert n * (w - p) == n * w - n * p;
    OneMore(n - 1, p);
  }

  function Differing(original: Word, values: seq<Word>): nat {
    if values == [] then 0
    else Differing(original, values[..|values| - 1]) + if values[|values| - 1] != original then 1 else 0
  }

  function Zeroed(values: seq<Word>): nat {
    if values == [] then 0 else Zeroed(values[..|values| - 1]) + if values[|values| - 1] == 0 then 1 else 0
  }

  lemma {:induction false} PotentialSumCounts(s: Schedule, original: Word, values: seq<Word>)
    ensures PotentialSum(s, original, values)
            == Differing(original, values) * s.DirtyExtra(original)
               - if original != 0 then Zeroed(values) * s.ClearRefund() else 0
  {
    if values != [] {
      var init := values[..|values| - 1];
      PotentialSumCounts(s, original, init);
      OneMore(Differing(original, init), s.DirtyExtra(original));
      OneMore(Zeroed(init), s.ClearRefund());
    }
  }

  /** On a slot that the database has as it was committed: exactly when, among the overwritten values, what those that differ from
      the original cost is what the zeros among them earn. */
  lemma BufferedMeteringOfCleanSlotIff(s: Schedule, original: Word, values: seq<Word>)
    requires values != []
    ensures var last, overwritten := values[|values| - 1], values[..|values| - 1];
            NetGasBuffered(s, original, original, values) == |values| * s.WarmGas() + s.Potential(original, last)
            <==> Differing(original, overwritten) * s.DirtyExtra(original)
                 == if original != 0 then Zeroed(overwritten) * s.ClearRefund() else 0
  {
    BufferedMeteringIsNetIff(s, original, original, values);
    PotentialSumCounts(s, original, values[..|values| - 1]);
    assert s.Potential(original, original) == 0;
  }

  /** They are not in general: clearing one slot twice earns the clearing refund twice. */
  lemma BufferedMeteringFails()
    ensures var s := Eip2929(SSTORE_CLEARS_REFUND_EIP3529);
            NetGasBuffered(s, 1, 1, [0, 0]) == 2 * s.WarmGas() + s.Potential(1, 0) - s.Potential(1, 1) - 2000
  {
    var once: seq<Word>, twice: seq<Word> := [0], [0, 0];
    assert once[..0] == [] && twice[..1] == once;
    assert PotentialSum(Eip2929(SSTORE_CLEARS_REFUND_EIP3529), 1, once) == -2000;
    BufferedGas(Eip2929(SSTORE_CLEARS_REFUND_EIP3529), 1, 1, twice);
  }

  // ---------------------------------------------------------------- the metering code

  /** Slots that held something originally and are zero now: each has a clearing refund pending. */
  function Cleared(committed: Storage, current: Storage): set<Slot> {
    set k | k in current && current[k] == 0 && Committed(committed, k) != 0
  }

  lemma ClearedAfterWrite(committed: Storage, current: Storage, k: Slot, v: Word)
    ensures |Cleared(committed, current[k := v])|
            == |Cleared(committed, current)|
               + (if Committed(committed, k) != 0 && v == 0 then 1 else 0)
               - (if Committed(committed, k) != 0 && Current(committed, current, k) == 0 then 1 else 0)
  {
    var before, after := Cleared(committed, current), Cleared(committed, current[k := v]);
    OthersStayCleared(committed, current, k, v);
    WithAndWithout(before, k);
    WithAndWithout(after, k);
    assert k in after <==> Committed(committed, k) != 0 && v == 0;
    assert k in before <==> Committed(committed, k) != 0 && Current(committed, current, k) == 0;
  }

  lemma OthersStayCleared(committed: Storage, current: Storage, k: Slot, v: Word)
    ensures Cleared(committed, current[k := v]) - {k} == Cleared(committed, current) - {k}
  {
    forall j: Slot | j != k
      ensures j in Cleared(committed, current) <==> j in Cleared(committed, current[k := v])
    {
      assert j in current[k := v] <==> j in current;
    }
  }

  lemma WithAndWithout(slots: set<Slot>, k: Slot)
    ensures |slots| == |slots - {k}| + if k in slots then 1 else 0
  {
    if k in slots {
      assert slots == (slots - {k}) + {k};
    } else {
      assert slots == slots - {k};
    }
  }

  /** The part of the state database that metering reads and writes. */
  class StateDB {
    const committed: Storage
    var current: Storage
    var refund: nat
    var accessSlots: set<Slot>
    var accessAddresses: set<Address>

    // The books: what the slot resets (and anything before) put on the counter, and what all writes have cost.
    ghost var granted: nat
    ghost var writes: nat
    ghost var net: int
    ghost var coldWrites: nat

    constructor (committed: Storage, refund: nat, accessSlots: set<Slot>, accessAddresses: set<Address>)
      ensures this.committed == committed && current == map[] && this.refund == refund
      ensures this.accessSlots == accessSlots && this.accessAddresses == accessAddresses
      ensures forall s :: Balanced(s)
    {
      this.committed, current, this.refund := committed, map[], refund;
      this.accessSlots, this.accessAddresses := accessSlots, accessAddresses;
      granted, writes, net, coldWrites := refund, 0, 0, 0;
    }

    function GetState(k: Slot): Word
      reads this`current
    {
      Current(committed, current, k)
    }

    function GetCommittedState(k: Slot): Word {
      Committed(committed, k)
    }

    method SetState(k: Slot, v: Word)
      modifies this`current
      ensures current == old(current)[k := v]
    {
      current := current[k := v];
    }

    method AddRefund(gas: uint64)
      modifies this`refund
      ensures refund == old(refund) + gas
    {
      refund := refund + gas;
    }

    /** SubRefund panics when the counter would go below zero. */
    method SubRefund(gas: uint64)
      requires gas <= refund
      modifies this`refund
      ensures refund == old(refund) - gas
    {
      refund := refund - gas;
    }

    /** The refund counter is what the resets granted plus one clearing refund per cleared slot. */
    ghost predicate RefundsPending(s: Schedule)
      reads this
    {
      refund == granted + |Cleared(committed, current)| * s.ClearRefund()
    }

    /** Gas minus refund of all writes so far, in closed form. */
    ghost predicate Balanced(s: Schedule)
      reads this
    {
      && RefundsPending(s)
      && net == ClosedForm(s, committed, current, writes, coldWrites)
    }

    /** gasSStore: EIP-1283. */
    method GasSStore(k: Slot, value: Word) returns (cost: uint64)
      requires RefundsPending(Eip1283)
      modifies this`refund
      ensures cost == WriteGas(Eip1283, GetCommittedState(k), GetState(k), value)
      ensures refund == old(refund) + WriteRefund(Eip1283, GetCommittedState(k), GetState(k), value)
    {
      CounterCovers(Eip1283, k);
      var current := GetState(k);
      if current == value {
        return NET_SSTORE_NOOP_GAS;
      }
      var original := GetCommittedState(k);
      if original == current {
        if original == 0 {
          return NET_SSTORE_INIT_GAS;
        }
        if value == 0 {
          AddRefund(NET_SSTORE_CLEAR_REFUND);
        }
        return NET_SSTORE_CLEAN_GAS;
      }
      if original != 0 {
        if current == 0 {
          SubRefund(NET_SSTORE_CLEAR_REFUND);
        } else if value == 0 {
          AddRefund(NET_SSTORE_CLEAR_REFUND);
        }
      }
      if original == value {
        if original == 0 {
          AddRefund(NET_SSTORE_RESET_CLEAR_REFUND);
        } else {
          AddRefund(NET_SSTORE_RESET_REFUND);
        }
      }
      return NET_SSTORE_DIRTY_GAS;
    }

    /** gasSStoreEIP2200. */
    method GasSStoreEIP2200(contractGas: uint64, k: Slot, value: Word) returns (r: Result<uint64>)
      requires RefundsPending(Eip2200)
      modifies this`refund
      ensures r.Success? <==> SSTORE_SENTRY_GAS < contractGas
      ensures r.Failure? ==> refund == old(refund) && r.error == ReentrancySentry
      ensures r.Success? ==> r.value == WriteGas(Eip2200, GetCommittedState(k), GetState(k), value)
      ensures r.Success? ==> refund == old(refund) + WriteRefund(Eip2200, GetCommittedState(k), GetState(k), value)
    {
      CounterCovers(Eip2200, k);
      if contractGas <= SSTORE_SENTRY_GAS {
        return Failure(ReentrancySentry);
      }
      var current := GetState(k);
      if current == value {
        return Success(SLOAD_GAS_EIP2200);
      }
      var original := GetCommittedState(k);
      if original == current {
        if original == 0 {
          return Success(SSTORE_SET_GAS);
        }
        if value == 0 {
          AddRefund(SSTORE_CLEARS_REFUND_EIP2200);
        }
        return Success(SSTORE_RESET_GAS);
      }
      if original != 0 {
        if current == 0 {
          SubRefund(SSTORE_CLEARS_REFUND_EIP2200);
        } else if value == 0 {
          AddRefund(SSTORE_CLEARS_REFUND_EIP2200);
        }
      }
      if original == value {
        if original == 0 {
          AddRefund(SSTORE_SET_GAS - SLOAD_GAS_EIP2200);
        } else {
          AddRefund(SSTORE_RESET_GAS - SLOAD_GAS_EIP2200);
        }
      }
      return Success(SLOAD_GAS_EIP2200);
    }

    /** makeGasSStoreFunc panics on a slot that is not in the access list if its account is not either; the slot is then in the
        list already. */
    predicate Panics(contractGas: uint64, k: Slot)
      reads this
    {
      SSTORE_SENTRY_GAS < contractGas && k !in accessSlots && k.account !in accessAddresses
    }

    /** AddSlotToAccessList: the slot and its account. */
    method AddSlotToAccessList(k: Slot)
      modifies this`accessSlots, this`accessAddresses
      ensures accessSlots == old(accessSlots) + {k} && accessAddresses == old(accessAddresses) + {k.account}
    {
      accessSlots, accessAddresses := accessSlots + {k}, accessAddresses + {k.account};
    }

    /** makeGasSStoreFunc. */
    method GasSStoreEIP2929(clearingRefund: uint64, contractGas: uint64, k: Slot, value: Word) returns (r: Result<uint64>)
      requires RefundsPending(Eip2929(clearingRefund))
      modifies this`refund, this`accessSlots, this`accessAddresses
      ensures var s, panics := Eip2929(clearingRefund), old(Panics(contractGas, k));
              && (r.Success? <==> SSTORE_SENTRY_GAS < contractGas && !panics)
              && (r.Failure? ==> refund == old(refund) && r.error == if panics then Panicked else ReentrancySentry)
              && (r.Success? ==>
                    && r.value == s.ColdCost(k in old(accessSlots)) + WriteGas(s, GetCommittedState(k), GetState(k), value)
                    && refund == old(refund) + WriteRefund(s, GetCommittedState(k), GetState(k), value))
              && accessSlots == (if SSTORE_SENTRY_GAS < contractGas then old(accessSlots) + {k} else old(accessSlots))
              && accessAddresses == if panics then old(accessAddresses) + {k.account} else old(accessAddresses)
    {
      CounterCovers(Eip2929(clearingRefund), k);
      if contractGas <= SSTORE_SENTRY_GAS {
        return Failure(ReentrancySentry);
      }
      var current := GetState(k);
      var cost: uint64 := 0;
      if k !in accessSlots {
        var addrPresent := k.account in accessAddresses;
        cost := COLD_SLOAD_COST;
        AddSlotToAccessList(k);
        if !addrPresent {
          return Failure(Panicked);
        }
      }
      if current == value {
        return Success(cost + WARM_STORAGE_READ_COST);
      }
      var original := GetCommittedState(k);
      if original == current {
        if original == 0 {
          return Success(cost + SSTORE_SET_GAS);
        }
        if value == 0 {
          AddRefund(clearingRefund);
        }
        return Success(cost + (SSTORE_RESET_GAS - COLD_SLOAD_COST));
      }
      if original != 0 {
        if current == 0 {
          SubRefund(clearingRefund);
        } else if value == 0 {
          AddRefund(clearingRefund);
        }
      }
      if original == value {
        if original == 0 {
          AddRefund(SSTORE_SET_GAS - WARM_STORAGE_READ_COST);
        } else {
          AddRefund((SSTORE_RESET_GAS - COLD_SLOAD_COST) - WARM_STORAGE_READ_COST);
        }
      }
      return Success(cost + WARM_STORAGE_READ_COST);
    }

    /** The claim of the comment in gasSStore: whenever a clearing refund is taken back, it is there. */
    lemma CounterCovers(s: Schedule, k: Slot)
      requires RefundsPending(s)
      ensures GetCommittedState(k) != 0 && GetState(k) == 0 ==> s.ClearRefund() <= refund
    {
      var cleared := Cleared(committed, current);
      if k in cleared {
        assert cleared == {k} + (cleared - {k});
        OneMore(|cleared - {k}|, s.ClearRefund());
      }
    }

    /** The schedule refuses the write: too little gas is left, or it panics. */
    predicate Refuses(s: Schedule, contractGas: uint64, k: Slot)
      reads this
    {
      !s.Eip1283? && (contractGas <= SSTORE_SENTRY_GAS || (s.Eip2929? && Panics(contractGas, k)))
    }

    /** The gas function of the schedule in force. */
    method Price(s: Schedule, contractGas: uint64, k: Slot, value: Word) returns (r: Result<uint64>)
      requires RefundsPending(s)
      modifies this`refund, this`accessSlots, this`accessAddresses
      ensures r.Failure? <==> old(Refuses(s, contractGas, k))
      ensures r.Failure? ==> refund == old(refund)
      ensures r.Success? ==> r.value == s.ColdCost(k in old(accessSlots)) + WriteGas(s, GetCommittedState(k), GetState(k), value)
      ensures r.Success? ==> refund == old(refund) + WriteRefund(s, GetCommittedState(k), GetState(k), value)
      ensures accessSlots == if s.Eip2929? && SSTORE_SENTRY_GAS < contractGas then old(accessSlots) + {k} else old(accessSlots)
      ensures !s.Eip2929? || r.Success? ==> accessAddresses == old(accessAddresses)
    {
      match s {
        case Eip1283 =>
          var cost := GasSStore(k, value);
          r := Success(cost);
        case Eip2200 =>
          r := GasSStoreEIP2200(contractGas, k, value);
        case Eip2929(clearingRefund) =>
          r := GasSStoreEIP2929(clearingRefund, contractGas, k, value);
      }
    }

    /** One SSTORE: price it, then let the slot take the value. The books stay balanced, over any number of slots. */
    method Write(s: Schedule, contractGas: uint64, k: Slot, value: Word) returns (r: Result<uint64>)
      requires Balanced(s)
      modifies this
      ensures Balanced(s) && (!s.Eip2929? || r.Success? ==> accessAddresses == old(accessAddresses))
      ensures r.Failure? ==> refund == old(refund) && current == old(current) && net == old(net) && writes == old(writes)
      ensures r.Failure? <==> old(Refuses(s, contractGas, k))
      ensures r.Success? ==> current == old(current)[k := value] && writes == old(writes) + 1
      ensures r.Success? ==> net - old(net) == r.value - (refund - old(refund))
    {
      r := Price(s, contractGas, k, value);
      if r.Failure? {
        return;
      }
      SetState(k, value);
      BookRefund(s, k, value, old(current));
      BookNet(s, k, value, old(current), k in old(accessSlots));
    }

    ghost method BookRefund(s: Schedule, k: Slot, value: Word, before: Storage)
      requires current == before[k := value]
      requires refund == granted + |Cleared(committed, before)| * s.ClearRefund()
                         + WriteRefund(s, GetCommittedState(k), Current(committed, before, k), value)
      modifies this`granted
      ensures RefundsPending(s)
    {
      granted := granted + ResetRefund(s, GetCommittedState(k), Current(committed, before, k), value);
      RefundsBooked(s, committed, before, k, value);
    }

    ghost method BookNet(s: Schedule, k: Slot, value: Word, before: Storage, warm: bool)
      requires current == before[k := value]
      requires net == ClosedForm(s, committed, before, writes, coldWrites)
      modifies this`writes, this`net, this`coldWrites
      ensures writes == old(writes) + 1 && coldWrites == old(coldWrites) + if warm then 0 else 1
      ensures net == ClosedForm(s, committed, current, writes, coldWrites)
      ensures net == old(net) + NetPrice(s, committed, before, k, value, warm)
    {
      NetBooked(s, committed, before, k, value, warm, writes, coldWrites);
      net := net + NetPrice(s, committed, before, k, value, warm);
      writes, coldWrites := writes + 1, coldWrites + if warm then 0 else 1;
    }
  }

  /** The refund for returning a slot to its original value. */
  function ResetRefund(s: Schedule, original: Word, current: Word, value: Word): nat {
    if current != value && original != current && original == value then s.DirtyExtra(original) else 0
  }

  lemma RefundsBooked(s: Schedule, committed: Storage, current: Storage, k: Slot, value: Word)
    ensures var original, before := Committed(committed, k), Current(committed, current, k);
            WriteRefund(s, original, before, value)
            == ResetRefund(s, original, before, value)
               + |Cleared(committed, current[k := value])| * s.ClearRefund() - |Cleared(committed, current)| * s.ClearRefund()
  {
    ClearedAfterWrite(committed, current, k, value);
    var before, after, refund := |Cleared(committed, current)|, |Cleared(committed, current[k := value])|, s.ClearRefund();
    if after == before + 1 {
      OneMore(before, refund);
    } else if before == after + 1 {
      OneMore(after, refund);
    }
  }

  lemma NetBooked(s: Schedule, committed: Storage, current: Storage, k: Slot, value: Word, warm: bool, n: nat, cold: nat)
    ensures NetPrice(s, committed, current, k, value, warm)
            == ClosedForm(s, committed, current[k := value], n + 1, cold + if warm then 0 else 1)
               - ClosedForm(s, committed, current, n, cold)
  {
    WriteMovesPotential(s, Committed(committed, k), Current(committed, current, k), value);
    TotalPotentialAfterWrite(s, committed, current, k, value);
    OneMore(n, s.WarmGas());
    if !warm {
      OneMore(cold, s.ColdCost(false));
    }
  }
}
