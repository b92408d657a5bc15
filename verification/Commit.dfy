/** Committing a write set to the state (process/process.go): the in-order commit and its filter for failed transactions. */
module Commit {
  import opened Words
  import opened Sums
  import opened WriteSets

  datatype Account = Account(balance: int, nonce: uint64, code: seq<byte>, storage: map<Hash, Hash>)

  const NO_ACCOUNT := Account(0, 0, [], map[])

  /** The accounts of the state database. CreateAccount keeps the balance of an account it replaces. */
  class AccountDB {
    var accounts: map<Address, Account>
    // common.ByteToHash: stored values are hashes of the written bytes.
    const hash: seq<byte> -> Hash
    // Whether a state object that was fetched before CreateAccount is the created account's afterwards.
    const follows: bool

    constructor (hash: seq<byte> -> Hash, follows: bool)
      ensures accounts == map[] && this.hash == hash && this.follows == follows
    {
      accounts := map[];
      this.hash, this.follows := hash, follows;
    }

    /** All accounts, those that do not exist included. */
    function View(): Address -> Account
      reads this
    {
      var present := accounts;
      (a: Address) => if a in present then present[a] else NO_ACCOUNT
    }

    function Get(a: Address): Account
      reads this
    {
      if a in accounts then accounts[a] else NO_ACCOUNT
    }

    method CreateAccount(a: Address)
      modifies this
      ensures accounts == old(accounts)[a := Account(old(Get(a)).balance, 0, [], map[])]
    {
      accounts := accounts[a := Account(Get(a).balance, 0, [], map[])];
    }

    method SetNonce(a: Address, nonce: uint64)
      modifies this
      ensures accounts == old(accounts)[a := old(Get(a)).(nonce := nonce)]
    {
      accounts := accounts[a := Get(a).(nonce := nonce)];
    }

    method SetCode(a: Address, code: seq<byte>)
      modifies this
      ensures accounts == old(accounts)[a := old(Get(a)).(code := code)]
    {
      accounts := accounts[a := Get(a).(code := code)];
    }

    method SetBalance(a: Address, amount: int)
      modifies this
      ensures accounts == old(accounts)[a := old(Get(a)).(balance := amount)]
    {
      accounts := accounts[a := Get(a).(balance := amount)];
    }

    method SubBalance(a: Address, amount: int)
      modifies this
      ensures accounts == old(accounts)[a := old(Get(a)).(balance := old(Get(a)).balance - amount)]
    {
      accounts := accounts[a := Get(a).(balance := Get(a).balance - amount)];
    }

    method SetState(a: Address, slot: Hash, value: Hash)
      modifies this
      ensures accounts == old(accounts)[a := old(Get(a)).(storage := old(Get(a)).storage[slot := value])]
    {
      accounts := accounts[a := Get(a).(storage := Get(a).storage[slot := value])];
    }

    /** What the commit does before it loops over an account's entries. */
    method BeginAccount(a: Address, entries: AccountCache)
      modifies this
      ensures accounts == old(accounts)[a := Get(a)] || accounts == old(accounts)
      ensures Get(a) == Begun(old(Get(a)), entries)
    {
      if CreatAccountKey in entries {
        CreateAccount(a);
        SetNonce(a, 1);
      }
      if SetCodeKey in entries {
        SetCode(a, BytesOf(entries[SetCodeKey]));
      }
      if BalanceKey in entries {
        SetBalance(a, Amount(entries[BalanceKey]));
      }
    }

    /** The switch inside that loop. */
    method CommitEntry(a: Address, k: Key, v: Value)
      modifies this
      ensures accounts == old(accounts)[a := Get(a)] || accounts == old(accounts)
      ensures Get(a) == WithEntry(old(Get(a)), k, v, hash)
    {
      match k {
        case NonceKey =>
          SetNonce(a, NonceOf(v));
        case SubBalanceKey =>
          SubBalance(a, Amount(v));
        case StorageKey(slot) =>
          SetState(a, slot, hash(BytesOf(v)));
        case BalanceKey =>
        case CreatAccountKey =>
        case SetCodeKey =>
      }
    }

    /** The loop over one account's entries, in whatever order the map is iterated. */
    method ApplyEntries(a: Address, entries: AccountCache)
      modifies this
      ensures Get(a) == Applied(old(Get(a)), entries, entries.Keys, hash)
      ensures forall b | b != a :: Get(b) == old(Get(b))
    {
      ghost var base := Get(a);
      var todo := entries.Keys;
      assert Get(a) == Applied(base, entries, {}, hash) by {
        NothingApplied(base, entries, hash);
      }
      while todo != {}
        invariant todo <= entries.Keys
        invariant Get(a) == Applied(base, entries, entries.Keys - todo, hash)
        invariant forall b | b != a :: Get(b) == old(Get(b))
        decreases todo
      {
        var k :| k in todo;
        OneMoreApplied(base, entries, entries.Keys - todo, k, hash);
        assert entries.Keys - (todo - {k}) == (entries.Keys - todo) + {k};
        CommitEntry(a, k, entries[k]);
        todo := todo - {k};
      }
      assert entries.Keys - {} == entries.Keys;
    }

    method CommitAccount(a: Address, entries: AccountCache)
      modifies this
      ensures Get(a) == Committed(old(Get(a)), entries, hash)
      ensures forall b | b != a :: Get(b) == old(Get(b))
    {
      BeginAccount(a, entries);
      ApplyEntries(a, entries);
    }

    /** UpdateWrittenCacheToDataBaseInOrder, its logs aside: whatever order the accounts are visited in, the state is one. */
    method CommitAll(cache: Cache)
      modifies this
      ensures forall a :: Get(a) == CommittedIn(cache, a, old(Get(a)), hash)
    {
      var todo := cache.Keys;
      while todo != {}
        invariant todo <= cache.Keys
        invariant forall a :: Get(a) == if a in todo then old(Get(a)) else CommittedIn(cache, a, old(Get(a)), hash)
        decreases todo
      {
        var a :| a in todo;
        CommitAccount(a, cache[a]);
        todo := todo - {a};
      }
    }

    /** One account of the parallel commit. Its state object was fetched before the account may be created, and takes no code. */
    method CommitObject(a: Address, entries: AccountCache)
      modifies this
      ensures Get(a) == CommittedObject(old(Get(a)), entries, hash, follows)
      ensures forall b | b != a :: Get(b) == old(Get(b))
    {
      if CreatAccountKey in entries {
        CreateAccount(a);
        SetNonce(a, 1);
        if !follows {
          return;
        }
      }
      if BalanceKey in entries {
        SetBalance(a, Amount(entries[BalanceKey]));
      }
      ApplyEntries(a, entries);
    }

    /** UpdateWrittenCacheToDataBase, its logs aside: the state objects arrive in any order, and the loop that takes them ends
        once it has counted as many as there are accounts, which it does not before one has arrived. */
    method CommitInParallel(cache: Cache) returns (blocked: bool)
      modifies this
      ensures blocked <==> cache == map[]
      ensures forall a :: Get(a) == CommittedObjectIn(cache, a, old(Get(a)), hash, follows)
    {
      if cache == map[] {
        return true;
      }
      var todo := cache.Keys;
      while todo != {}
        invariant todo <= cache.Keys
        invariant forall a :: Get(a) == if a in todo then old(Get(a)) else CommittedObjectIn(cache, a, old(Get(a)), hash, follows)
        decreases todo
      {
        var a :| a in todo;
        CommitObject(a, cache[a]);
        todo := todo - {a};
      }
      return false;
    }
  }

  // ---------------------------------------------------------------- what a commit amounts to

  function Begun(acc: Account, entries: AccountCache): Account {
    var created := CreatAccountKey in entries;
    Account(
      if BalanceKey in entries then Amount(entries[BalanceKey]) else acc.balance,
      if created then 1 else acc.nonce,
      if SetCodeKey in entries then BytesOf(entries[SetCodeKey]) else if created then [] else acc.code,
      if created then map[] else acc.storage)
  }

  function WithEntry(acc: Account, k: Key, v: Value, hash: seq<byte> -> Hash): Account {
    match k
    case NonceKey => acc.(nonce := NonceOf(v))
    case SubBalanceKey => acc.(balance := acc.balance - Amount(v))
    case StorageKey(slot) => acc.(storage := acc.storage[slot := hash(BytesOf(v))])
    case _ => acc
  }

  /** The storage slots among some keys, with the values they get. */
  function StorageWrites(entries: AccountCache, done: set<Key>, hash: seq<byte> -> Hash): map<Hash, Hash>
    requires done <= entries.Keys
  {
    map slot | slot in SlotsOf(done) :: hash(BytesOf(entries[StorageKey(slot)]))
  }

  function SlotsOf(keys: set<Key>): (slots: set<Hash>)
    ensures forall slot :: slot in slots <==> StorageKey(slot) in keys
  {
    set k | k in keys && k.StorageKey? :: k.slot
  }

  /** An account once the entries under some keys have been applied to it: each field on its own. */
  function Applied(acc: Account, entries: AccountCache, done: set<Key>, hash: seq<byte> -> Hash): Account
    requires done <= entries.Keys
  {
    Account(
      if SubBalanceKey in done then acc.balance - Amount(entries[SubBalanceKey]) else acc.balance,
      if NonceKey in done then NonceOf(entries[NonceKey]) else acc.nonce,
      acc.code,
      acc.storage + StorageWrites(entries, done, hash))
  }

  lemma NothingApplied(acc: Account, entries: AccountCache, hash: seq<byte> -> Hash)
    ensures Applied(acc, entries, {}, hash) == acc
  {
    assert StorageWrites(entries, {}, hash) == map[];
  }

  lemma OneMoreApplied(acc: Account, entries: AccountCache, done: set<Key>, k: Key, hash: seq<byte> -> Hash)
    requires done <= entries.Keys && k in entries && k !in done
    ensures Applied(acc, entries, done + {k}, hash) == WithEntry(Applied(acc, entries, done, hash), k, entries[k], hash)
  {
    var before, after := StorageWrites(entries, done, hash), StorageWrites(entries, done + {k}, hash);
    if k.StorageKey? {
      assert after == before[k.slot := hash(BytesOf(entries[k]))];
      assert acc.storage + after == (acc.storage + before)[k.slot := hash(BytesOf(entries[k]))];
    } else {
      assert after == before;
    }
  }

  /** What an account becomes. */
  function Committed(acc: Account, entries: AccountCache, hash: seq<byte> -> Hash): Account {
    Applied(Begun(acc, entries), entries, entries.Keys, hash)
  }

  function CommittedIn(cache: Cache, a: Address, acc: Account, hash: seq<byte> -> Hash): Account {
    if a in cache then Committed(acc, cache[a], hash) else acc
  }

  /** What an account becomes in the parallel commit. */
  function CommittedObject(acc: Account, entries: AccountCache, hash: seq<byte> -> Hash, follows: bool): Account {
    if CreatAccountKey in entries && !follows then Account(acc.balance, 1, [], map[])
    else Applied(Begun(acc, entries - {SetCodeKey}), entries, entries.Keys, hash)
  }

  function CommittedObjectIn(cache: Cache, a: Address, acc: Account, hash: seq<byte> -> Hash, follows: bool): Account {
    if a in cache then CommittedObject(acc, cache[a], hash, follows) else acc
  }

  /** The entries set no new code, and, where a created account's object is not followed, nothing else either: neither balance nor
      nonce change, and no slot is written. */
  ghost predicate ObjectAgrees(acc: Account, entries: AccountCache, follows: bool) {
    var created := CreatAccountKey in entries;
    && (SetCodeKey in entries ==> BytesOf(entries[SetCodeKey]) == if created then [] else acc.code)
    && (created && !follows ==>
          && (if BalanceKey in entries then Amount(entries[BalanceKey]) else acc.balance)
             - (if SubBalanceKey in entries then Amount(entries[SubBalanceKey]) else 0) == acc.balance
          && (NonceKey in entries ==> NonceOf(entries[NonceKey]) == 1)
          && forall slot :: StorageKey(slot) !in entries)
  }

  /** The two commits agree on an account exactly then. */
  lemma CommitsAgreeIff(acc: Account, entries: AccountCache, hash: seq<byte> -> Hash, follows: bool)
    ensures CommittedObject(acc, entries, hash, follows) == Committed(acc, entries, hash) <==> ObjectAgrees(acc, entries, follows)
  {
    var writes := StorageWrites(entries, entries.Keys, hash);
    if CreatAccountKey in entries {
      assert map[] + writes == writes;
      assert writes == map[] <==> forall slot :: StorageKey(slot) !in entries by {
        assert forall slot :: slot in writes <==> StorageKey(slot) in entries;
      }
    }
  }

  /** The commit realises the effective balances on which conservation of value rests. */
  lemma CommitRealisesEffective(acc: Account, cache: Cache, balanceOf: Address -> int, a: Address, hash: seq<byte> -> Hash)
    requires acc.balance == balanceOf(a)
    ensures Committed(acc, AccountOf(cache, a), hash).balance == Effective(cache, balanceOf, a)
  {}

  /** Over any set of accounts that includes the written ones, a commit adds the write set's total gain: none, after a run. */
  lemma CommitAddsGain(accounts: set<Address>, cache: Cache, balanceOf: Address -> int)
    requires cache.Keys <= accounts
    ensures Sum(accounts, (a: Address) => Effective(cache, balanceOf, a)) == Sum(accounts, balanceOf) + TotalGain(cache, balanceOf)
  {
    SumSupport(cache.Keys, accounts, Gain(cache, balanceOf));
    SumOfSums(accounts, balanceOf, Gain(cache, balanceOf), (a: Address) => Effective(cache, balanceOf, a));
  }

  lemma {:induction false} SumOfSums<T(!new)>(s: set<T>, f: T -> int, g: T -> int, h: T -> int)
    requires forall x | x in s :: h(x) == f(x) + g(x)
    ensures Sum(s, h) == Sum(s, f) + Sum(s, g)
  {
    if x :| x in s {
      SumRemove(s, f, x);
      SumRemove(s, g, x);
      SumRemove(s, h, x);
      SumOfSums(s - {x}, f, g, h);
    }
  }

  // ---------------------------------------------------------------- failed transactions

  function NonceOnly(entries: AccountCache): AccountCache {
    if NonceKey in entries then map[NonceKey := entries[NonceKey]] else map[]
  }

  /** The filter of ExecTxsInOrder: of a failed transaction's entries only the nonces stay. */
  method FilterFailed(ws: WriteSet)
    modifies ws
    ensures ws.cache == map a | a in old(ws.cache) :: NonceOnly(old(ws.cache)[a])
  {
    ghost var before := ws.cache;
    var todo := ws.cache.Keys;
    while todo != {}
      invariant todo <= before.Keys == ws.cache.Keys
      invariant forall a | a in before :: ws.cache[a] == if a in todo then before[a] else NonceOnly(before[a])
      decreases todo
    {
      var a :| a in todo;
      var kept := DeleteOthers(ws.cache[a]);
      ws.cache := ws.cache[a := kept];
      todo := todo - {a};
    }
  }

  method DeleteOthers(entries: AccountCache) returns (kept: AccountCache)
    ensures kept == NonceOnly(entries)
  {
    kept := entries;
    var todo := entries.Keys;
    while todo != {}
      invariant todo <= entries.Keys && kept.Keys <= entries.Keys
      invariant forall k | k in kept :: kept[k] == entries[k]
      invariant forall k | k in entries :: k in kept <==> k in todo || k == NonceKey
      decreases todo
    {
      var k :| k in todo;
      if k != NonceKey {
        kept := kept - {k};
      }
      todo := todo - {k};
    }
  }

  /** The commit of one transaction's result: a failed one changes nothing but nonces. */
  method CommitResult(failed: bool, ws: WriteSet, db: AccountDB)
    modifies ws, db
    ensures failed ==> forall a :: db.Get(a) == old(db.Get(a)).(nonce := db.Get(a).nonce)
    ensures failed ==> forall a :: db.Get(a).nonce == if Entry(old(ws.cache), a, NonceKey).Some?
                                                      then NonceOf(Entry(old(ws.cache), a, NonceKey).value)
                                                      else old(db.Get(a)).nonce
    ensures !failed ==> forall a :: db.Get(a) == CommittedIn(old(ws.cache), a, old(db.Get(a)), db.hash)
  {
    if failed {
      FilterFailed(ws);
      forall acc, a | a in old(ws.cache)
        ensures Committed(acc, ws.cache[a], db.hash)
                == acc.(nonce := if NonceKey in old(ws.cache)[a] then NonceOf(old(ws.cache)[a][NonceKey]) else acc.nonce)
      {
        NonceOnlyCommit(acc, old(ws.cache)[a], db.hash);
      }
    }
    db.CommitAll(ws.cache);
  }

  lemma NonceOnlyCommit(acc: Account, entries: AccountCache, hash: seq<byte> -> Hash)
    ensures Committed(acc, NonceOnly(entries), hash)
            == acc.(nonce := if NonceKey in entries then NonceOf(entries[NonceKey]) else acc.nonce)
  {
    var kept := NonceOnly(entries);
    assert forall k | k in kept :: k == NonceKey;
    assert Committed(acc, kept, hash).storage == acc.storage;
  }
}
