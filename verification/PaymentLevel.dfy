/** Levels of payments: a family that is a serial execution, and how a payment is lost. */
module PaymentLevels {
  import opened Words
  import opened WriteSets
  import opened TxContexts
  import opened Conflicts
  import opened Commit
  import opened LevelCommit
  import opened LevelRuns
  import opened Marks
  import opened Transitions

  type Payments = Item -> Payment

  function ProgramOf(payments: Payments, env: Environment): Program {
    (item: Item) => TransitionOf(payments(item), env)
  }

  function AgainOf(payments: Payments, env: Environment): Program {
    (item: Item) => ReTransitionOf(payments(item), env)
  }

  function Parties(m: Payment): set<Address> {
    {m.from, m.to}
  }

  /** The nonce is the sender's, the sender can pay, and the recipient exists. */
  predicate Payable(m: Payment, env: Environment, s: State) {
    s(m.from).nonce == m.nonce && !TooPoor(m, s) && env.exists_(m.to)
  }

  ghost predicate NoAccountEntries(cache: Cache) {
    forall a | a in cache :: CreatAccountKey !in cache[a] && SetCodeKey !in cache[a]
  }

  // ---------------------------------------------------------------- the entries of a payment

  predicate Has(cache: Cache, a: Address, k: Key) {
    Entry(cache, a, k).Some?
  }

  /** What a payment reports as read: the sender's nonce and balance, and the recipient's balance if value is moved. */
  predicate ReadsEntry(m: Payment, a: Address, k: Key) {
    (a == m.from && (k == NonceKey || k == BalanceKey)) || (a == m.to && k == BalanceKey && Moved(m.value) > 0)
  }

  /** What it writes: a debit and the nonce of the sender, and the recipient's balance if value is moved. */
  predicate WritesEntry(m: Payment, a: Address, k: Key) {
    (a == m.from && (k == NonceKey || k == SubBalanceKey)) || (a == m.to && k == BalanceKey && Moved(m.value) > 0)
  }

  lemma UpdatedHas(cache: Cache, a: Address, k: Key, v: Value)
    ensures forall b, l :: Has(Updated(cache, a, k, v), b, l) <==> Has(cache, b, l) || (b == a && l == k)
    ensures Updated(cache, a, k, v).Keys == cache.Keys + {a}
  {}

  lemma WithReadHas(cache: Cache, a: Address, k: Key, v: Value)
    ensures forall b, l :: Has(WithRead(cache, a, k, v), b, l) <==> Has(cache, b, l) || (b == a && l == k)
    ensures WithRead(cache, a, k, v).Keys == cache.Keys + {a}
  {}

  /** The record of a payment that is made: it reads and writes its two parties, and creates no account. */
  ghost predicate OfPayment(m: Payment, record: RWRecord) {
    && !record.failed && record.readSet.Keys <= Parties(m) && record.writeSet.Keys <= Parties(m)
    && (forall a, k :: Has(record.readSet, a, k) <==> ReadsEntry(m, a, k))
    && (forall a, k :: Has(record.writeSet, a, k) <==> WritesEntry(m, a, k))
  }

  lemma CheckedHas(m: Payment, s: State)
    ensures Checked(m, s).Keys == {m.from}
    ensures forall a, k :: Has(Checked(m, s), a, k) <==> a == m.from && (k == NonceKey || k == BalanceKey)
  {
    WithReadHas(map[], m.from, NonceKey, Nonce(s(m.from).nonce));
    WithReadHas(WithRead(map[], m.from, NonceKey, Nonce(s(m.from).nonce)), m.from, BalanceKey, BigInt(s(m.from).balance));
  }

  lemma CallReadsHas(m: Payment, s: State, readSet: Cache, writes: Cache)
    requires Has(readSet, m.from, BalanceKey)
    ensures CallReads(m, s, readSet, writes).Keys <= readSet.Keys + Parties(m)
    ensures forall a, k :: Has(CallReads(m, s, readSet, writes), a, k)
                           <==> Has(readSet, a, k) || (a == m.to && k == BalanceKey && Moved(m.value) > 0)
  {
    var called := WithRead(readSet, m.from, BalanceKey, BigInt(m.value));
    WithReadHas(readSet, m.from, BalanceKey, BigInt(m.value));
    WithReadHas(called, m.to, BalanceKey, BigInt(Known(writes, Balances(s), m.to)));
  }

  lemma TransferredHas(cache: Cache, balanceOf: Address -> int, from: Address, to: Address, amount: int)
    ensures Transferred(cache, balanceOf, from, to, amount).Keys == cache.Keys + {from, to}
    ensures forall a, k :: Has(Transferred(cache, balanceOf, from, to, amount), a, k)
                           <==> Has(cache, a, k) || (a == from && k == SubBalanceKey) || (a == to && k == BalanceKey)
  {
    var debited := Debited(cache, from, amount);
    UpdatedHas(cache, from, SubBalanceKey, Merged(Entry(cache, from, SubBalanceKey), SubBalanceKey, BigInt(amount), BigInt(0)));
    UpdatedHas(debited, to, BalanceKey, Merged(Entry(debited, to, BalanceKey), BalanceKey, BigInt(amount),
                                               BigInt(Known(cache, balanceOf, to))));
  }

  lemma CallWritesHas(m: Payment, env: Environment, s: State, writes: Cache)
    requires env.exists_(m.to) && Has(writes, m.from, SubBalanceKey)
    ensures CallWrites(m, env, s, writes).Keys <= writes.Keys + Parties(m)
    ensures forall a, k :: Has(CallWrites(m, env, s, writes), a, k)
                           <==> Has(writes, a, k) || (a == m.to && k == BalanceKey && Moved(m.value) > 0)
  {
    TransferredHas(writes, Balances(s), m.from, m.to, m.value);
  }

  lemma ReadsOfPayment(m: Payment, s: State, writes: Cache)
    ensures var balance := WithRead(Checked(m, s), m.from, BalanceKey, BigInt(s(m.from).balance));
            && CallReads(m, s, balance, writes).Keys <= Parties(m)
            && forall a, k :: Has(CallReads(m, s, balance, writes), a, k) <==> ReadsEntry(m, a, k)
  {
    CheckedHas(m, s);
    WithReadHas(Checked(m, s), m.from, BalanceKey, BigInt(s(m.from).balance));
    CallReadsHas(m, s, WithRead(Checked(m, s), m.from, BalanceKey, BigInt(s(m.from).balance)), writes);
  }

  lemma WritesOfPayment(m: Payment, env: Environment, s: State)
    requires env.exists_(m.to)
    ensures var bumped := Updated(Bought(m), m.from, NonceKey, Nonce(WrapAdd(s(m.from).nonce, 1)));
            && CallWrites(m, env, s, bumped).Keys <= Parties(m)
            && forall a, k :: Has(CallWrites(m, env, s, bumped), a, k) <==> WritesEntry(m, a, k)
  {
    var nonce := Nonce(WrapAdd(s(m.from).nonce, 1));
    UpdatedHas(map[], m.from, SubBalanceKey, BigInt(0));
    UpdatedHas(Bought(m), m.from, NonceKey, nonce);
    CallWritesHas(m, env, s, Updated(Bought(m), m.from, NonceKey, nonce));
  }

  lemma RecordOfPayment(m: Payment, env: Environment, s: State)
    requires Payable(m, env, s)
    ensures OfPayment(m, RunOn(m, env, s))
  {
    ReadsOfPayment(m, s, Updated(Bought(m), m.from, NonceKey, Nonce(WrapAdd(s(m.from).nonce, 1))));
    WritesOfPayment(m, env, s);
  }

  lemma NoAccountWritten(m: Payment, record: RWRecord)
    requires OfPayment(m, record)
    ensures NoAccountEntries(record.writeSet)
  {
    forall a | a in record.writeSet
      ensures CreatAccountKey !in record.writeSet[a] && SetCodeKey !in record.writeSet[a]
    {
      assert !Has(record.writeSet, a, CreatAccountKey) && !Has(record.writeSet, a, SetCodeKey);
    }
  }

  // ---------------------------------------------------------------- payments executed again

  /** The later payment reads what the earlier one writes: they have one sender, or the earlier one moves value to the sender or,
      if it is moved value too, to the recipient of the later. That one debits what the other credits goes unnoticed. */
  predicate Meet(earlier: Payment, later: Payment) {
    || earlier.from == later.from
    || (Moved(earlier.value) > 0 && earlier.to == later.from)
    || (Moved(earlier.value) > 0 && Moved(later.value) > 0 && earlier.to == later.to)
  }

  lemma ClashIsMeeting(earlier: Payment, later: Payment, before: RWRecord, record: RWRecord)
    requires OfPayment(earlier, before) && OfPayment(later, record)
    ensures Clashes(record.readSet, before.writeSet) <==> Meet(earlier, later)
  {
    if earlier.from == later.from {
      assert Has(record.readSet, later.from, NonceKey) && Has(before.writeSet, later.from, NonceKey);
    } else if Meet(earlier, later) {
      assert Has(record.readSet, earlier.to, BalanceKey) && Has(before.writeSet, earlier.to, BalanceKey);
    } else if Clashes(record.readSet, before.writeSet) {
      var a, k :| a in record.readSet && k in record.readSet[a] && a in before.writeSet && k in before.writeSet[a];
      assert Has(record.readSet, a, k) && Has(before.writeSet, a, k);
    }
  }

  /** Of payments that can each be made, one is executed again exactly when it meets one before it that is not. */
  lemma RunAgainIffMeets(payments: Payments, env: Environment, listed: seq<Item>, s: State, i: nat)
    requires AllPayable(payments, env, listed, s) && i < |listed|
    ensures var accepted := Detect(Records(ProgramOf(payments, env), listed, s)).0;
            !accepted[i] <==> exists j | 0 <= j < i :: accepted[j] && Meet(payments(listed[j]), payments(listed[i]))
  {
    var records := Records(ProgramOf(payments, env), listed, s);
    RecordsOfPayments(payments, env, listed, s);
    RejectedIffReadsEarlierWrite(records, i);
    forall j | 0 <= j < i
      ensures Clashes(records[i].readSet, records[..i][j].writeSet) <==> Meet(payments(listed[j]), payments(listed[i]))
    {
      ClashIsMeeting(payments(listed[j]), payments(listed[i]), records[j], records[i]);
    }
  }

  lemma RecordsOfPayments(payments: Payments, env: Environment, listed: seq<Item>, s: State)
    requires AllPayable(payments, env, listed, s)
    ensures forall i | 0 <= i < |listed| :: OfPayment(payments(listed[i]), Records(ProgramOf(payments, env), listed, s)[i])
  {
    forall i | 0 <= i < |listed|
      ensures OfPayment(payments(listed[i]), Records(ProgramOf(payments, env), listed, s)[i])
    {
      RecordOfPayment(payments(listed[i]), env, s);
    }
  }

  /** Every entry merged is an entry of some record. */
  lemma {:induction false} EntryMerged(records: seq<RWRecord>, a: Address)
    ensures a in Detect(records).1 ==> exists j :: 0 <= j < |records| && a in records[j].writeSet
  {
    if records != [] {
      var n := |records| - 1;
      DetectNext(records, n);
      assert records[..n + 1] == records;
      EntryMerged(records[..n], a);
      if a in Detect(records[..n]).1 {
        var j :| 0 <= j < n && a in records[..n][j].writeSet;
        assert a in records[j].writeSet;
      }
      if a in records[n].writeSet {
        assert a in records[|records| - 1].writeSet;
      }
    }
  }

  lemma {:induction false} MergedHasNoAccountEntries(records: seq<RWRecord>)
    requires forall i | 0 <= i < |records| :: !records[i].failed && NoAccountEntries(records[i].writeSet)
    ensures NoAccountEntries(Detect(records).1)
  {
    if records != [] {
      MergedHasNoAccountEntries(records[..|records| - 1]);
    }
  }

  ghost predicate AllPayable(payments: Payments, env: Environment, listed: seq<Item>, s: State) {
    forall i | 0 <= i < |listed| :: Payable(payments(listed[i]), env, s)
  }

  /** No two payments have a party in common. */
  ghost predicate Disjoint(payments: Payments, listed: seq<Item>) {
    forall i, j | 0 <= i < j < |listed| :: Parties(payments(listed[i])) !! Parties(payments(listed[j]))
  }

  lemma WrittenElsewhere(payments: Payments, env: Environment, listed: seq<Item>, s: State, i: nat, a: Address)
    requires AllPayable(payments, env, listed, s) && Disjoint(payments, listed) && i < |listed| && a in Parties(payments(listed[i]))
    ensures a !in Detect(Records(ProgramOf(payments, env), listed, s)[..i]).1
  {
    var records := Records(ProgramOf(payments, env), listed, s);
    EntryMerged(records[..i], a);
    RecordsOfPayments(payments, env, listed, s);
    forall j | 0 <= j < i
      ensures a !in records[..i][j].writeSet
    {
      assert OfPayment(payments(listed[j]), records[j]);
    }
  }

  /** A record that has nothing in common with what has been written fits. */
  lemma ApartFits(tx: StateTransaction, s: State, written: Cache)
    requires DecidedOn(tx, s) && !tx(s).failed
    requires tx(s).readSet.Keys !! written.Keys && tx(s).writeSet.Keys !! written.Keys
    ensures Fits(tx, s, written) && !Clashes(tx(s).readSet, written)
  {}

  lemma PaymentFits(payments: Payments, env: Environment, listed: seq<Item>, s: State, i: nat)
    requires AllPayable(payments, env, listed, s) && Disjoint(payments, listed) && i < |listed|
    ensures var records := Records(ProgramOf(payments, env), listed, s);
            var written := Detect(records[..i]).1;
            && Fits(TransitionOf(payments(listed[i]), env), s, written)
            && !Clashes(records[i].readSet, written) && !IsError(records[i])
  {
    var m, records := payments(listed[i]), Records(ProgramOf(payments, env), listed, s);
    RecordsOfPayments(payments, env, listed, s);
    PaymentIsDecided(m, env, s);
    ErrorIff(m, env, s);
    forall a | a in Parties(m)
      ensures a !in Detect(records[..i]).1
    {
      WrittenElsewhere(payments, env, listed, s, i, a);
    }
    ApartFits(TransitionOf(m, env), s, Detect(records[..i]).1);
  }

  lemma {:induction false} NoneRejected<T>(xs: seq<T>, accepted: seq<bool>, taken: seq<bool>)
    requires |xs| == |accepted| == |taken| && forall i | 0 <= i < |xs| :: accepted[i] && taken[i]
    ensures Rejected(xs, accepted) == [] && Chosen(xs, taken) == xs
  {
    if xs != [] {
      var n := |xs| - 1;
      NoneRejected(xs[..n], accepted[..n], taken[..n]);
      assert xs[..n] + [xs[n]] == xs;
    }
  }

  /** Payments that can each be made and have no party in common fit: all take effect at once, and the level is their serial
      execution. */
  lemma DisjointPaymentsFit(payments: Payments, env: Environment, listed: seq<Item>, s: State, db: Database)
    requires AllPayable(payments, env, listed, s) && Disjoint(payments, listed)
    ensures var program, again := ProgramOf(payments, env), AgainOf(payments, env);
            && LevelFits(program, again, listed, s, db)
            && TakenItems(program, listed, s) == listed && Again(program, listed, s) == []
            && Agree(AfterLevel(program, again, listed, s, db), Serially(TransactionsOf(program, listed), s, db.hash))
  {
    var program, again := ProgramOf(payments, env), AgainOf(payments, env);
    var records := Records(program, listed, s);
    RecordsOfPayments(payments, env, listed, s);
    forall i | 0 <= i < |listed|
      ensures Fits(TransactionsOf(program, listed)[i], s, Detect(records[..i]).1)
      ensures Detect(records).0[i] && !IsError(records[i])
      ensures !records[i].failed && NoAccountEntries(records[i].writeSet)
    {
      PaymentFits(payments, env, listed, s, i);
      NoAccountWritten(payments(listed[i]), records[i]);
      AcceptedIff(records, i);
    }
    NoneRejected(listed, Detect(records).0, Taken(records, Detect(records).0));
    MergedHasNoAccountEntries(records);
    LevelIsSerial(program, again, listed, s, db);
    assert TransactionsOf(program, listed) + TransactionsOf(again, []) == TransactionsOf(program, listed);
  }

  // ---------------------------------------------------------------- a payment that is lost

  /** A sender's next payment ends in an error on the snapshot that its first payment is made on, and so never takes effect there;
      made after the first, it would not. */
  lemma NextPaymentIsLost(payments: Payments, env: Environment, first: Item, second: Item, s: State, hash: Hasher)
    requires Payable(payments(first), env, s)
    requires payments(second).from == payments(first).from && payments(second).nonce == WrapAdd(payments(first).nonce, 1)
    ensures ErrorOn(ProgramOf(payments, env), second, s)
    ensures !ErrorOn(ProgramOf(payments, env), second, AfterPayment(payments(first), env, s, hash))
  {
    var m := payments(first);
    var bumped := Updated(Bought(m), m.from, NonceKey, Nonce(WrapAdd(s(m.from).nonce, 1)));
    ErrorIff(payments(second), env, s);
    ErrorIff(payments(second), env, AfterPayment(m, env, s, hash));
    NonceAfterCall(m, env, s, bumped);
    assert m.from in CallWrites(m, env, s, bumped);
  }

  /** Such payments can share a level: here both of c's, in the second one. */
  lemma SendersShareLevels(h: seq<TxHash>, x: Address, y: Address, z: Address, c: Address, a: Address, b: Address)
    requires |h| == 4 && x !in {y, z, c, a, b} && y !in {z, c, a, b} && z !in {c, a, b} && c !in {a, b} && a != b
    ensures var one, two, three, four := Item(h[0], x, Some(y)), Item(h[1], x, Some(z)), Item(h[2], c, Some(a)), Item(h[3], c, Some(b));
            Initial().Filed(one).Filed(two).Filed(three).Filed(four).items == [[one], [two, three, four]]
  {
    var one, two, three, four := Item(h[0], x, Some(y)), Item(h[1], x, Some(z)), Item(h[2], c, Some(a)), Item(h[3], c, Some(b));
    SmallSequences(one, two, three);
    SmallSequences(two, three, four);
    SmallSequences([], [], [one]);
    SmallSequences([one], [], [two]);
    SmallSequences([one], [two], [two, three]);
    SmallSequences([one], [two, three], [two, three, four]);
    assert [two, three] + [four] == [two, three, four];
    OpensNoLevel(Initial(), one, 0);
    var first := Initial().Filed(one);
    assert first.items == [[one], []] && first.marks == map[x := 0, y := 0];
    OpensNoLevel(first, two, 1);
    var second := first.Filed(two);
    assert second.items == [[one], [two]] && second.marks == map[x := 1, y := 0, z := 0];
    OpensNoLevel(second, three, 1);
    var third := second.Filed(three);
    assert third.items == [[one], [two, three]] && third.marks == map[x := 1, y := 0, z := 0, c := 0, a := 0];
    OpensNoLevel(third, four, 1);
  }
}
