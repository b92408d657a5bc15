/** The read and write sets of a transaction (vm/ethvm/ethvm.go) and the balances they stand for. */
module WriteSets {
  import opened Words
  import opened Sums

  /** The five reserved keys, and storage slots. */
  datatype Key = NonceKey | BalanceKey | SubBalanceKey | SetCodeKey | CreatAccountKey | StorageKey(slot: Hash)

  datatype Value = BigInt(n: int) | Nonce(u: uint64) | Bytes(b: GoBytes)

  type AccountCache = map<Key, Value>
  type Cache = map<Address, AccountCache>

  /** v.(*big.Int), v.(uint64) and v.([]byte), on values of other types a default. */
  function Amount(v: Value): int {
    if v.BigInt? then v.n else 0
  }

  function NonceOf(v: Value): uint64 {
    if v.Nonce? then v.u else 0
  }

  function BytesOf(v: Value): GoBytes {
    if v.Bytes? then v.b else []
  }

  function Entry(cache: Cache, a: Address, k: Key): Option<Value> {
    if a in cache && k in cache[a] then Some(cache[a][k]) else None
  }

  /** What UpdateCache leaves under the key: amounts accumulate, a balance starts from `value`, the rest is replaced. */
  function Merged(entry: Option<Value>, k: Key, v: Value, value: Value): Value {
    match k
    case SubBalanceKey => if entry.Some? then BigInt(Amount(entry.value) + Amount(v)) else v
    case BalanceKey => BigInt(Amount(if entry.Some? then entry.value else value) + Amount(v))
    case _ => v
  }

  function AccountOf(cache: Cache, a: Address): AccountCache {
    if a in cache then cache[a] else map[]
  }

  function Updated(cache: Cache, a: Address, k: Key, v: Value): Cache {
    cache[a := AccountOf(cache, a)[k := v]]
  }

  class WriteSet {
    var cache: Cache

    constructor ()
      ensures cache == map[]
    {
      cache := map[];
    }

    function GetAddressAndKey(a: Address, k: Key): Option<Value>
      reads this
    {
      Entry(cache, a, k)
    }

    method UpdateCache(a: Address, k: Key, v: Value, value: Value)
      modifies this
      ensures cache == Updated(old(cache), a, k, Merged(Entry(old(cache), a, k), k, v, value))
    {
      var cacheMap := AccountOf(cache, a);
      match k {
        case SubBalanceKey =>
          cacheMap := cacheMap[k := if k in cacheMap then BigInt(Amount(cacheMap[k]) + Amount(v)) else v];
        case BalanceKey =>
          cacheMap := cacheMap[k := BigInt(Amount(if k in cacheMap then cacheMap[k] else value) + Amount(v))];
        case _ =>
          cacheMap := cacheMap[k := v];
      }
      cache := cache[a := cacheMap];
    }
  }

  /** The (address, key) pairs of a cache. */
  ghost function Keys(cache: Cache): set<(Address, Key)> {
    set a, k | a in cache && k in cache[a] :: (a, k)
  }

  /** A cache of reads with one more. */
  function WithRead(cache: Cache, a: Address, k: Key, v: Value): Cache {
    var known := Entry(cache, a, k);
    Updated(cache, a, k, if (k.BalanceKey? || k.SubBalanceKey?) && known.Some? then BigInt(Amount(known.value) + Amount(v)) else v)
  }

  class ReadSet {
    var cache: Cache

    constructor ()
      ensures cache == map[]
    {
      cache := map[];
    }

    /** A read is recorded for good. Amounts accumulate here as well, which plays no part in conflict detection. */
    method UpdateCache(a: Address, k: Key, v: Value)
      modifies this
      ensures Keys(cache) == Keys(old(cache)) + {(a, k)}
      ensures cache == WithRead(old(cache), a, k, v)
    {
      var cacheMap := AccountOf(cache, a);
      match k {
        case SubBalanceKey | BalanceKey =>
          cacheMap := cacheMap[k := if k in cacheMap then BigInt(Amount(cacheMap[k]) + Amount(v)) else v];
        case _ =>
          cacheMap := cacheMap[k := v];
      }
      cache := cache[a := cacheMap];
    }
  }

  // ---------------------------------------------------------------- conservation of value

  /** An account's balance once the write set is committed: the written or stored balance less the pending debits. */
  function Effective(cache: Cache, balanceOf: Address -> int, a: Address): int {
    var balance, debit := Entry(cache, a, BalanceKey), Entry(cache, a, SubBalanceKey);
    (if balance.Some? then Amount(balance.value) else balanceOf(a)) - (if debit.Some? then Amount(debit.value) else 0)
  }

  ghost function Gain(cache: Cache, balanceOf: Address -> int): Address -> int {
    (a: Address) => Effective(cache, balanceOf, a) - balanceOf(a)
  }

  /** What the write set adds to the total of all balances. Accounts it does not mention gain nothing. */
  ghost function TotalGain(cache: Cache, balanceOf: Address -> int): int {
    Sum(cache.Keys, Gain(cache, balanceOf))
  }

  lemma GainAfterUpdate(cache: Cache, balanceOf: Address -> int, a: Address, k: Key, v: Value)
    ensures TotalGain(Updated(cache, a, k, v), balanceOf) - TotalGain(cache, balanceOf)
            == Effective(Updated(cache, a, k, v), balanceOf, a) - Effective(cache, balanceOf, a)
  {
    var after := Updated(cache, a, k, v);
    var f, g := Gain(cache, balanceOf), Gain(after, balanceOf);
    assert after.Keys == cache.Keys + {a};
    SumSupport(cache.Keys, after.Keys, f);
    SumChangeAt(after.Keys, f, g, a);
  }

  /** Entries other than the two balance keys move no value. */
  lemma OtherKeysMoveNothing(cache: Cache, balanceOf: Address -> int, a: Address, k: Key, v: Value)
    requires !k.BalanceKey? && !k.SubBalanceKey?
    ensures TotalGain(Updated(cache, a, k, v), balanceOf) == TotalGain(cache, balanceOf)
  {
    GainAfterUpdate(cache, balanceOf, a, k, v);
  }

  /** The entry UpdateCache makes under SubBalanceKey for a sender. */
  function Debited(cache: Cache, from: Address, amount: int): Cache
  {
    Updated(cache, from, SubBalanceKey, Merged(Entry(cache, from, SubBalanceKey), SubBalanceKey, BigInt(amount), BigInt(0)))
  }

  /** The entry it makes under BalanceKey for a recipient whose balance is known to the caller. */
  function Credited(cache: Cache, to: Address, amount: int, known: int): Cache
  {
    Updated(cache, to, BalanceKey, Merged(Entry(cache, to, BalanceKey), BalanceKey, BigInt(amount), BigInt(known)))
  }

  lemma DebitMoves(cache: Cache, balanceOf: Address -> int, from: Address, amount: int)
    ensures TotalGain(Debited(cache, from, amount), balanceOf) == TotalGain(cache, balanceOf) - amount
    ensures forall a :: Effective(Debited(cache, from, amount), balanceOf, a)
                        == Effective(cache, balanceOf, a) - if a == from then amount else 0
  {
    GainAfterUpdate(cache, balanceOf, from, SubBalanceKey,
                    Merged(Entry(cache, from, SubBalanceKey), SubBalanceKey, BigInt(amount), BigInt(0)));
  }

  lemma CreditMoves(cache: Cache, balanceOf: Address -> int, to: Address, amount: int, known: int)
    requires Entry(cache, to, BalanceKey).None? ==> known == balanceOf(to)
    ensures TotalGain(Credited(cache, to, amount, known), balanceOf) == TotalGain(cache, balanceOf) + amount
    ensures forall a :: Effective(Credited(cache, to, amount, known), balanceOf, a)
                        == Effective(cache, balanceOf, a) + if a == to then amount else 0
  {
    GainAfterUpdate(cache, balanceOf, to, BalanceKey,
                    Merged(Entry(cache, to, BalanceKey), BalanceKey, BigInt(amount), BigInt(known)));
  }

  /** The two entries that Call and create record for a transfer conserve value, self-transfers included. */
  lemma TransferConserves(cache: Cache, balanceOf: Address -> int, from: Address, to: Address, amount: int, known: int)
    requires Entry(cache, to, BalanceKey).None? ==> known == balanceOf(to)
    ensures var after := Credited(Debited(cache, from, amount), to, amount, known);
            && TotalGain(after, balanceOf) == TotalGain(cache, balanceOf)
            && forall a :: Effective(after, balanceOf, a)
                           == Effective(cache, balanceOf, a) + (if a == to then amount else 0) - (if a == from then amount else 0)
  {
    DebitMoves(cache, balanceOf, from, amount);
    CreditMoves(Debited(cache, from, amount), balanceOf, to, amount, known);
  }

  /** Both entries of a transfer, the recipient's balance being the written or the stored one. */
  function Transferred(cache: Cache, balanceOf: Address -> int, from: Address, to: Address, amount: int): Cache {
    Credited(Debited(cache, from, amount), to, amount, Known(cache, balanceOf, to))
  }

  /** A transfer conserves value, moves the amount, and touches no other entry. */
  lemma TransferredMoves(cache: Cache, balanceOf: Address -> int, from: Address, to: Address, amount: int)
    ensures var after := Transferred(cache, balanceOf, from, to, amount);
            && TotalGain(after, balanceOf) == TotalGain(cache, balanceOf)
            && (forall a :: Effective(after, balanceOf, a)
                            == Effective(cache, balanceOf, a) + (if a == to then amount else 0) - (if a == from then amount else 0))
            && forall a, k | k != BalanceKey && k != SubBalanceKey :: Entry(after, a, k) == Entry(cache, a, k)
  {
    TransferConserves(cache, balanceOf, from, to, amount, Known(cache, balanceOf, to));
  }

  // ---------------------------------------------------------------- the guard of a transfer

  /** The written or stored balance, and the pending debits, which Effective takes off it. */
  function Known(cache: Cache, balanceOf: Address -> int, a: Address): int {
    var balance := Entry(cache, a, BalanceKey);
    if balance.Some? then Amount(balance.value) else balanceOf(a)
  }

  function Pending(cache: Cache, a: Address): int {
    var debit := Entry(cache, a, SubBalanceKey);
    if debit.Some? then Amount(debit.value) else 0
  }

  /** The check before a transfer; both sides are cut down to 64 bits when the sender's balance was written before, and pending
      debits are not looked at. */
  function CanTransfer(cache: Cache, balanceOf: Address -> int, from: Address, value: nat): bool {
    var written := Entry(cache, from, BalanceKey);
    if written.Some? then Amount(written.value) % TWO_64 >= value % TWO_64 else balanceOf(from) >= value
  }

  /** The most that passes the check, among amounts of 64 bits. */
  function Passable(cache: Cache, balanceOf: Address -> int, from: Address): nat
    requires Known(cache, balanceOf, from) >= 0
  {
    var known := Known(cache, balanceOf, from);
    if Entry(cache, from, BalanceKey).Some? then known % TWO_64 else Min(known, MAX_UINT64)
  }

  /** The check keeps an account solvent, for all amounts of 64 bits, exactly when the pending debits leave the largest that
      passes. */
  lemma GuardKeepsSolventIff(cache: Cache, balanceOf: Address -> int, from: Address)
    requires Known(cache, balanceOf, from) >= 0
    ensures (forall value: nat | value < TWO_64 && CanTransfer(cache, balanceOf, from, value) :: value <= Effective(cache, balanceOf, from))
            <==> Passable(cache, balanceOf, from) + Pending(cache, from) <= Known(cache, balanceOf, from)
  {
    var most := Passable(cache, balanceOf, from);
    assert CanTransfer(cache, balanceOf, from, most);
    assert forall value: nat | value < TWO_64 && CanTransfer(cache, balanceOf, from, value) :: value <= most;
  }

  /** So an account may spend what it has twice in one transaction. */
  lemma GuardPassesTwice(balanceOf: Address -> int, from: Address)
    requires balanceOf(from) > 0
    ensures var once := Debited(map[], from, balanceOf(from));
            && CanTransfer(once, balanceOf, from, balanceOf(from))
            && Effective(Debited(once, from, balanceOf(from)), balanceOf, from) == -balanceOf(from)
  {
    DebitMoves(map[], balanceOf, from, balanceOf(from));
    DebitMoves(Debited(map[], from, balanceOf(from)), balanceOf, from, balanceOf(from));
  }

  // ---------------------------------------------------------------- the static frame

  function WithoutCreation(m: AccountCache): AccountCache {
    m - {CreatAccountKey}
  }

  /** All entries but the account creations. */
  ghost function StaticEntries(cache: Cache): Cache {
    map a | a in cache && WithoutCreation(cache[a]) != map[] :: WithoutCreation(cache[a])
  }

  /** Accounts marked as created, precompiled contracts aside. */
  ghost function Creations(cache: Cache, isPrecompile: Address -> bool): set<Address> {
    set a | a in cache && CreatAccountKey in cache[a] && !isPrecompile(a)
  }

  /** The static view stands still exactly when no entry but creations changes, and no creation but those of precompiled
      contracts. */
  lemma StaticViewMeans(c: Cache, d: Cache, isPrecompile: Address -> bool)
    ensures StaticEntries(c) == StaticEntries(d) <==> forall a, k | k != CreatAccountKey :: Entry(c, a, k) == Entry(d, a, k)
    ensures Creations(c, isPrecompile) == Creations(d, isPrecompile)
            <==> forall a | !isPrecompile(a) :: Entry(c, a, CreatAccountKey).Some? == Entry(d, a, CreatAccountKey).Some?
  {
    StaticEntry(c);
    StaticEntry(d);
    if forall a, k | k != CreatAccountKey :: Entry(c, a, k) == Entry(d, a, k) {
      forall a
        ensures WithoutCreation(AccountOf(c, a)) == WithoutCreation(AccountOf(d, a))
      {
        SameEntriesSameAccount(c, d, a);
      }
    }
    assert forall a :: a in Creations(c, isPrecompile) <==> !isPrecompile(a) && Entry(c, a, CreatAccountKey).Some?;
    assert forall a :: a in Creations(d, isPrecompile) <==> !isPrecompile(a) && Entry(d, a, CreatAccountKey).Some?;
  }

  lemma StaticEntry(c: Cache)
    ensures forall a, k | k != CreatAccountKey :: Entry(StaticEntries(c), a, k) == Entry(c, a, k)
    ensures forall a :: AccountOf(StaticEntries(c), a) == WithoutCreation(AccountOf(c, a))
    ensures forall a :: a in StaticEntries(c) <==> WithoutCreation(AccountOf(c, a)) != map[]
  {
    forall a, k | k != CreatAccountKey
      ensures Entry(StaticEntries(c), a, k) == Entry(c, a, k)
    {
      assert k in AccountOf(c, a) <==> k in WithoutCreation(AccountOf(c, a));
    }
  }

  lemma SameEntriesSameAccount(c: Cache, d: Cache, a: Address)
    requires forall k | k != CreatAccountKey :: Entry(c, a, k) == Entry(d, a, k)
    ensures WithoutCreation(AccountOf(c, a)) == WithoutCreation(AccountOf(d, a))
  {
    forall k
      ensures k in WithoutCreation(AccountOf(c, a)) <==> k in WithoutCreation(AccountOf(d, a))
      ensures k in WithoutCreation(AccountOf(c, a)) ==> AccountOf(c, a)[k] == AccountOf(d, a)[k]
    {
      assert k != CreatAccountKey ==> Entry(c, a, k) == Entry(d, a, k);
    }
  }

  /** Marking a precompiled contract as created adds an entry, though the static view stands still. */
  lemma PrecompileCreationIsStatic(cache: Cache, isPrecompile: Address -> bool, a: Address, v: Value)
    requires isPrecompile(a)
    ensures Entry(Updated(cache, a, CreatAccountKey, v), a, CreatAccountKey) == Some(v)
    ensures StaticEntries(Updated(cache, a, CreatAccountKey, v)) == StaticEntries(cache)
    ensures Creations(Updated(cache, a, CreatAccountKey, v), isPrecompile) == Creations(cache, isPrecompile)
  {
    assert WithoutCreation(AccountOf(cache, a)[CreatAccountKey := v]) == WithoutCreation(AccountOf(cache, a));
  }
}
