/** Payments (process/process_transition.go): TransitionDb, and ReTransitionDb, by which a rejected transaction is executed again.
    The recipient has no code, and gas costs nothing. */
module Transitions {
  import opened Words
  import opened WriteSets
  import opened TxContexts
  import opened Conflicts
  import opened Commit
  import opened LevelCommit

  datatype Payment = Payment(from: Address, to: Address, nonce: uint64, value: Word)

  /** Which accounts exist, and which are precompiled contracts. */
  datatype Environment = Environment(exists_: Address -> bool, isPrecompile: Address -> bool)

  const ERROR := RWRecord(map[], map[], true)

  function Balances(s: State): Address -> int {
    (a: Address) => s(a).balance
  }

  /** The account is entered, unless it is merely probed. */
  function Enters(m: Payment, env: Environment): bool {
    env.exists_(m.to) || env.isPrecompile(m.to) || m.value != 0
  }

  /** What Call reports as read. */
  function CallReads(m: Payment, s: State, readSet: Cache, writes: Cache): Cache {
    var called := WithRead(readSet, m.from, BalanceKey, BigInt(m.value));
    if Moved(m.value) > 0 then WithRead(called, m.to, BalanceKey, BigInt(Known(writes, Balances(s), m.to))) else called
  }

  /** What Call writes. */
  function CallWrites(m: Payment, env: Environment, s: State, writes: Cache): Cache {
    if Enters(m, env) then Entered(writes, Balances(s), m.from, m.to, m.value, !env.exists_(m.to)) else writes
  }

  function Bought(m: Payment): Cache {
    Debited(map[], m.from, 0)
  }

  function Checked(m: Payment, s: State): Cache {
    var checked := WithRead(map[], m.from, NonceKey, Nonce(s(m.from).nonce));
    WithRead(checked, m.from, BalanceKey, BigInt(s(m.from).balance))
  }

  predicate TooPoor(m: Payment, s: State) {
    m.value > 0 && s(m.from).balance < m.value
  }

  /** TransitionDb in the parallel phase: an error unless the nonce is the sender's, a failure if the sender is too poor, else the
      payment. */
  function RunOn(m: Payment, env: Environment, s: State): RWRecord {
    if s(m.from).nonce != m.nonce then ERROR
    else if TooPoor(m, s) then RWRecord(Checked(m, s), Bought(m), true)
    else
      var balance := WithRead(Checked(m, s), m.from, BalanceKey, BigInt(s(m.from).balance));
      var bumped := Updated(Bought(m), m.from, NonceKey, Nonce(WrapAdd(s(m.from).nonce, 1)));
      RWRecord(CallReads(m, s, balance, bumped), CallWrites(m, env, s, bumped), false)
  }

  /** ReTransitionDb: the nonce is not checked, being too poor is an error, and the value is debited before Call debits it again. */
  function RunAgainOn(m: Payment, env: Environment, s: State): RWRecord {
    if TooPoor(m, s) then ERROR
    else
      var balance := WithRead(map[], m.from, BalanceKey, BigInt(s(m.from).balance));
      var paid := Debited(Bought(m), m.from, m.value);
      var bumped := Updated(paid, m.from, NonceKey, Nonce(WrapAdd(s(m.from).nonce, 1)));
      RWRecord(CallReads(m, s, balance, bumped), CallWrites(m, env, s, bumped), false)
  }

  method Debit(writeSet: WriteSet, from: Address, amount: nat)
    modifies writeSet
    ensures writeSet.cache == Debited(old(writeSet.cache), from, amount)
  {
    writeSet.UpdateCache(from, SubBalanceKey, BigInt(amount), Bytes([]));
  }

  method Pay(writeSet: WriteSet, balanceOf: Address -> int, from: Address, to: Address, amount: nat)
    modifies writeSet
    ensures writeSet.cache == Transferred(old(writeSet.cache), balanceOf, from, to, amount)
  {
    var balanceVal := Known(writeSet.cache, balanceOf, to);
    Debit(writeSet, from, amount);
    writeSet.UpdateCache(to, BalanceKey, BigInt(amount), BigInt(balanceVal));
  }

  /** Call, up to the recipient's code. */
  method Call(m: Payment, env: Environment, s: State, readSet: ReadSet, writeSet: WriteSet)
    modifies readSet, writeSet
    ensures readSet.cache == CallReads(m, s, old(readSet.cache), old(writeSet.cache))
    ensures writeSet.cache == CallWrites(m, env, s, old(writeSet.cache))
  {
    readSet.UpdateCache(m.from, BalanceKey, BigInt(m.value));
    if !Enters(m, env) {
      return;
    }
    if !env.exists_(m.to) {
      writeSet.UpdateCache(m.to, CreatAccountKey, Bytes(WordBytes(m.to.bits)), Bytes([]));
      assert writeSet.cache == Marked(old(writeSet.cache), m.to);
      assert Known(writeSet.cache, Balances(s), m.to) == Known(old(writeSet.cache), Balances(s), m.to);
    }
    if Moved(m.value) > 0 {
      readSet.UpdateCache(m.to, BalanceKey, BigInt(Known(writeSet.cache, Balances(s), m.to)));
      Pay(writeSet, Balances(s), m.from, m.to, m.value);
    }
  }

  /** TransitionDb: preCheck with buyGas, the check of the value, the new nonce, and Call. */
  method TransitionDb(m: Payment, env: Environment, s: State) returns (record: RWRecord)
    ensures record == RunOn(m, env, s)
  {
    var readSet := new ReadSet();
    var writeSet := new WriteSet();
    var stNonce := s(m.from).nonce;
    readSet.UpdateCache(m.from, NonceKey, Nonce(stNonce));
    if stNonce != m.nonce {
      return ERROR;
    }
    readSet.UpdateCache(m.from, BalanceKey, BigInt(s(m.from).balance));
    Debit(writeSet, m.from, 0);
    if TooPoor(m, s) {
      return RWRecord(readSet.cache, writeSet.cache, true);
    }
    readSet.UpdateCache(m.from, BalanceKey, BigInt(s(m.from).balance));
    writeSet.UpdateCache(m.from, NonceKey, Nonce(WrapAdd(stNonce, 1)), Bytes([]));
    Call(m, env, s, readSet, writeSet);
    return RWRecord(readSet.cache, writeSet.cache, false);
  }

  method ReTransitionDb(m: Payment, env: Environment, s: State) returns (record: RWRecord)
    ensures record == RunAgainOn(m, env, s)
  {
    var readSet := new ReadSet();
    var writeSet := new WriteSet();
    readSet.UpdateCache(m.from, BalanceKey, BigInt(s(m.from).balance));
    Debit(writeSet, m.from, 0);
    if TooPoor(m, s) {
      return ERROR;
    }
    Debit(writeSet, m.from, m.value);
    writeSet.UpdateCache(m.from, NonceKey, Nonce(WrapAdd(s(m.from).nonce, 1)), Bytes([]));
    Call(m, env, s, readSet, writeSet);
    return RWRecord(readSet.cache, writeSet.cache, false);
  }

  // ---------------------------------------------------------------- as transactions

  lemma CallsAlike(m: Payment, env: Environment, s: State, t: State, readSet: Cache, writes: Cache)
    requires s(m.to).balance == t(m.to).balance
    ensures CallReads(m, s, readSet, writes) == CallReads(m, t, readSet, writes)
    ensures CallWrites(m, env, s, writes) == CallWrites(m, env, t, writes)
  {
    var marked := if env.exists_(m.to) then writes else Marked(writes, m.to);
    assert Known(writes, Balances(s), m.to) == Known(writes, Balances(t), m.to);
    assert Known(marked, Balances(s), m.to) == Known(marked, Balances(t), m.to);
  }

  /** What a payment does depends on the sender's nonce and balance, and on the recipient's balance. */
  lemma RunsAlike(m: Payment, env: Environment, s: State, t: State)
    requires s(m.from).nonce == t(m.from).nonce && s(m.from).balance == t(m.from).balance && s(m.to).balance == t(m.to).balance
    ensures RunOn(m, env, s) == RunOn(m, env, t) && RunAgainOn(m, env, s) == RunAgainOn(m, env, t)
  {
    var bumped := Updated(Bought(m), m.from, NonceKey, Nonce(WrapAdd(s(m.from).nonce, 1)));
    var paid := Updated(Debited(Bought(m), m.from, m.value), m.from, NonceKey, Nonce(WrapAdd(s(m.from).nonce, 1)));
    var have := BigInt(s(m.from).balance);
    CallsAlike(m, env, s, t, WithRead(Checked(m, s), m.from, BalanceKey, have), bumped);
    CallsAlike(m, env, s, t, WithRead(map[], m.from, BalanceKey, have), paid);
    assert Checked(m, s) == Checked(m, t);
  }

  function TransitionOf(m: Payment, env: Environment): StateTransaction {
    var tx := (s: State) => RunOn(m, env, s);
    assert Extensional(tx) by {
      forall s, t | Agree(s, t)
        ensures tx(s) == tx(t)
      {
        RunsAlike(m, env, s, t);
      }
    }
    tx
  }

  function ReTransitionOf(m: Payment, env: Environment): StateTransaction {
    var tx := (s: State) => RunAgainOn(m, env, s);
    assert Extensional(tx) by {
      forall s, t | Agree(s, t)
        ensures tx(s) == tx(t)
      {
        RunsAlike(m, env, s, t);
      }
    }
    tx
  }

  /** In the parallel phase a payment is in error exactly when its nonce is not the sender's. */
  lemma ErrorIff(m: Payment, env: Environment, s: State)
    ensures IsError(RunOn(m, env, s)) <==> s(m.from).nonce != m.nonce
  {
    var checked := WithRead(map[], m.from, NonceKey, Nonce(s(m.from).nonce));
    assert m.from in Checked(m, s);
    assert m.from in WithRead(Checked(m, s), m.from, BalanceKey, BigInt(s(m.from).balance));
  }

  lemma ReportsReads(m: Payment, env: Environment, s: State)
    requires s(m.from).nonce == m.nonce
    ensures var readSet := RunOn(m, env, s).readSet;
            && m.from in readSet && NonceKey in readSet[m.from] && BalanceKey in readSet[m.from]
            && (!TooPoor(m, s) && Moved(m.value) > 0 ==> m.to in readSet && BalanceKey in readSet[m.to])
  {}

  /** With the sender's nonce, a payment is decided by what it reports as read. */
  lemma PaymentIsDecided(m: Payment, env: Environment, s: State)
    requires s(m.from).nonce == m.nonce
    ensures DecidedOn(TransitionOf(m, env), s)
  {
    ReportsReads(m, env, s);
    forall t | SameReads(s, t, RunOn(m, env, s).readSet)
      ensures RunOn(m, env, t) == RunOn(m, env, s)
    {
      assert Observed(s(m.from), NonceKey) == Observed(t(m.from), NonceKey);
      assert Observed(s(m.from), BalanceKey) == Observed(t(m.from), BalanceKey);
      if !TooPoor(m, s) && Moved(m.value) > 0 {
        assert Observed(s(m.to), BalanceKey) == Observed(t(m.to), BalanceKey);
        RunsAlike(m, env, s, t);
      } else {
        SmallPayment(m, env, s, t);
      }
    }
  }

  /** The recipient's balance matters only where value is moved to it. */
  lemma SmallPayment(m: Payment, env: Environment, s: State, t: State)
    requires s(m.from).nonce == t(m.from).nonce && s(m.from).balance == t(m.from).balance
    requires TooPoor(m, s) || Moved(m.value) == 0
    ensures RunOn(m, env, s) == RunOn(m, env, t)
  {
    assert Checked(m, s) == Checked(m, t);
  }

  // ---------------------------------------------------------------- value

  lemma CallConserves(m: Payment, env: Environment, s: State, writes: Cache)
    ensures TotalGain(CallWrites(m, env, s, writes), Balances(s)) == TotalGain(writes, Balances(s))
    ensures forall a :: Effective(CallWrites(m, env, s, writes), Balances(s), a)
                        == Effective(writes, Balances(s), a) + (if a == m.to then Moved(m.value) else 0)
                           - (if a == m.from then Moved(m.value) else 0)
  {
    EnteredMoves(writes, Balances(s), m.from, m.to, m.value, !env.exists_(m.to));
  }

  lemma NothingGained(balanceOf: Address -> int)
    ensures TotalGain(map[], balanceOf) == 0
  {}

  /** In the parallel phase a payment conserves value. */
  lemma PaymentConserves(m: Payment, env: Environment, s: State)
    ensures TotalGain(RunOn(m, env, s).writeSet, Balances(s)) == 0
  {
    var bumped := Updated(Bought(m), m.from, NonceKey, Nonce(WrapAdd(s(m.from).nonce, 1)));
    NothingGained(Balances(s));
    DebitMoves(map[], Balances(s), m.from, 0);
    OtherKeysMoveNothing(Bought(m), Balances(s), m.from, NonceKey, Nonce(WrapAdd(s(m.from).nonce, 1)));
    CallConserves(m, env, s, bumped);
  }

  /** Executed again it loses its value once, so that it conserves value exactly when there is none, or the sender is too poor. */
  lemma PaymentAgainConservesIff(m: Payment, env: Environment, s: State)
    ensures TotalGain(RunAgainOn(m, env, s).writeSet, Balances(s)) == if TooPoor(m, s) then 0 else -(m.value as int)
    ensures TotalGain(RunAgainOn(m, env, s).writeSet, Balances(s)) == 0 <==> m.value == 0 || TooPoor(m, s)
  {
    var paid := Debited(Bought(m), m.from, m.value);
    NothingGained(Balances(s));
    DebitMoves(map[], Balances(s), m.from, 0);
    DebitMoves(Bought(m), Balances(s), m.from, m.value);
    OtherKeysMoveNothing(paid, Balances(s), m.from, NonceKey, Nonce(WrapAdd(s(m.from).nonce, 1)));
    CallConserves(m, env, s, Updated(paid, m.from, NonceKey, Nonce(WrapAdd(s(m.from).nonce, 1))));
  }

  lemma BumpKeepsBalances(cache: Cache, balanceOf: Address -> int, from: Address, nonce: Value)
    ensures forall a :: Effective(Updated(cache, from, NonceKey, nonce), balanceOf, a) == Effective(cache, balanceOf, a)
  {}

  /** What both executions leave to the sender. */
  lemma SenderPaysOnce(m: Payment, env: Environment, s: State)
    requires !TooPoor(m, s) && s(m.from).nonce == m.nonce
    ensures Effective(RunOn(m, env, s).writeSet, Balances(s), m.from)
            == s(m.from).balance - Moved(m.value) + if m.from == m.to then Moved(m.value) else 0
  {
    var nonce := Nonce(WrapAdd(s(m.from).nonce, 1));
    DebitMoves(map[], Balances(s), m.from, 0);
    BumpKeepsBalances(Bought(m), Balances(s), m.from, nonce);
    CallConserves(m, env, s, Updated(Bought(m), m.from, NonceKey, nonce));
  }

  lemma SenderPaysTwice(m: Payment, env: Environment, s: State)
    requires !TooPoor(m, s)
    ensures Effective(RunAgainOn(m, env, s).writeSet, Balances(s), m.from)
            == s(m.from).balance - m.value - Moved(m.value) + if m.from == m.to then Moved(m.value) else 0
  {
    var nonce, paid := Nonce(WrapAdd(s(m.from).nonce, 1)), Debited(Bought(m), m.from, m.value);
    DebitMoves(map[], Balances(s), m.from, 0);
    DebitMoves(Bought(m), Balances(s), m.from, m.value);
    BumpKeepsBalances(paid, Balances(s), m.from, nonce);
    CallConserves(m, env, s, Updated(paid, m.from, NonceKey, nonce));
  }

  // ---------------------------------------------------------------- execution again, against the payment itself

  lemma NonceAfterCall(m: Payment, env: Environment, s: State, writes: Cache)
    requires Entry(writes, m.from, NonceKey).Some?
    ensures Entry(CallWrites(m, env, s, writes), m.from, NonceKey) == Entry(writes, m.from, NonceKey)
  {
    EnteredMarks(writes, Balances(s), m.from, m.to, m.value, !env.exists_(m.to));
  }

  /** The state after a payment, and after its execution again. */
  ghost function AfterPayment(m: Payment, env: Environment, s: State, hash: Hasher): State {
    CommittedState(s, Effect(RunOn(m, env, s)), hash)
  }

  ghost function AfterPaymentAgain(m: Payment, env: Environment, s: State, hash: Hasher): State {
    CommittedState(s, Effect(RunAgainOn(m, env, s)), hash)
  }

  /** Executed again, a payment raises the sender's nonce, whatever it was, unless the sender is too poor. */
  lemma AgainRaisesNonce(m: Payment, env: Environment, s: State, hash: Hasher)
    ensures AfterPaymentAgain(m, env, s, hash)(m.from).nonce == if TooPoor(m, s) then s(m.from).nonce else WrapAdd(s(m.from).nonce, 1)
  {
    if !TooPoor(m, s) {
      var bumped := Updated(Debited(Bought(m), m.from, m.value), m.from, NonceKey, Nonce(WrapAdd(s(m.from).nonce, 1)));
      NonceAfterCall(m, env, s, bumped);
      assert m.from in CallWrites(m, env, s, bumped);
    } else {
      NothingCommitted(s(m.from), hash);
    }
  }

  lemma NothingLeft(m: Payment, env: Environment, s: State, hash: Hasher)
    requires s(m.from).nonce != m.nonce || TooPoor(m, s)
    ensures Agree(AfterPayment(m, env, s, hash), s)
  {
    assert Effect(RunOn(m, env, s)) == map[];
  }

  lemma BalancesAfter(m: Payment, env: Environment, s: State, hash: Hasher)
    requires !TooPoor(m, s)
    ensures s(m.from).nonce == m.nonce ==>
              AfterPayment(m, env, s, hash)(m.from).balance == Effective(RunOn(m, env, s).writeSet, Balances(s), m.from)
    ensures AfterPaymentAgain(m, env, s, hash)(m.from).balance == Effective(RunAgainOn(m, env, s).writeSet, Balances(s), m.from)
  {
    NothingCommitted(s(m.from), hash);
    CommitRealisesEffective(s(m.from), RunOn(m, env, s).writeSet, Balances(s), m.from, hash);
    CommitRealisesEffective(s(m.from), RunAgainOn(m, env, s).writeSet, Balances(s), m.from, hash);
  }

  lemma WorthlessAgain(m: Payment, env: Environment, s: State)
    requires m.value == 0 && s(m.from).nonce == m.nonce
    ensures RunAgainOn(m, env, s).writeSet == RunOn(m, env, s).writeSet
  {
    var debit: AccountCache := map[SubBalanceKey := BigInt(0)];
    assert Bought(m) == map[m.from := debit] && debit[SubBalanceKey := BigInt(0)] == debit;
    assert Debited(Bought(m), m.from, 0) == Bought(m);
  }

  /** Execution again leaves what the payment itself would leave exactly when the sender is too poor for either, or there is no
      value and the nonce is the sender's. */
  lemma AgainIsPaymentIff(m: Payment, env: Environment, s: State, hash: Hasher)
    ensures Agree(AfterPayment(m, env, s, hash), AfterPaymentAgain(m, env, s, hash))
            <==> TooPoor(m, s) || (m.value == 0 && s(m.from).nonce == m.nonce)
  {
    AgainRaisesNonce(m, env, s, hash);
    if TooPoor(m, s) {
      NothingLeft(m, env, s, hash);
      assert Effect(RunAgainOn(m, env, s)) == map[];
    } else if s(m.from).nonce != m.nonce {
      NothingLeft(m, env, s, hash);
      assert AfterPayment(m, env, s, hash)(m.from).nonce != AfterPaymentAgain(m, env, s, hash)(m.from).nonce;
    } else if m.value == 0 {
      WorthlessAgain(m, env, s);
    } else {
      BalancesAfter(m, env, s, hash);
      SenderPaysOnce(m, env, s);
      SenderPaysTwice(m, env, s);
      assert AfterPayment(m, env, s, hash)(m.from).balance != AfterPaymentAgain(m, env, s, hash)(m.from).balance;
    }
  }
}
