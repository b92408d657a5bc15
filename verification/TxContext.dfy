/** The transaction context (vm/ethvm/ethvm.go): read set, write set and logs of one transaction. */
module TxContexts {
  import opened Words
  import opened BigEndian
  import opened WriteSets

  datatype Log = Log(address: Address, topics: seq<Word>, data: seq<byte>)

  /** What of a transaction's effects a static call must not change: written entries, created accounts, logs. */
  datatype StaticView = StaticView(entries: Cache, creations: set<Address>, logs: seq<Log>)

  /** The gain of all balances, the reads reported so far and the static view. */
  datatype Books = Books(gain: int, seen: set<(Address, Key)>, view: StaticView)

  /** val.Bytes(): without leading zeros. */
  function WordBytes(w: Word): (b: GoBytes)
    ensures |b| <= 32
  {
    Pow256Of32();
    ByteLenBound(w, 32);
    MinimalBytes(w)
  }

  class TxContext {
    const readSet: ReadSet
    const writeSet: WriteSet
    var logs: seq<Log>
    // The state database's balances, which a transaction leaves alone until its write set is committed.
    const balanceOf: Address -> int
    const isPrecompile: Address -> bool
    // The accounts that have code or a nonce in the state database.
    const occupied: Address -> bool

    ghost var books: Books

    constructor (balanceOf: Address -> int, isPrecompile: Address -> bool, occupied: Address -> bool)
      ensures Valid() && fresh(readSet) && fresh(writeSet)
      ensures writeSet.cache == map[] && readSet.cache == map[] && logs == []
      ensures this.balanceOf == balanceOf && this.isPrecompile == isPrecompile && this.occupied == occupied
    {
      readSet := new ReadSet();
      writeSet := new WriteSet();
      logs := [];
      this.balanceOf, this.isPrecompile, this.occupied := balanceOf, isPrecompile, occupied;
      new;
      Book();
    }

    ghost predicate Valid()
      reads this, writeSet, readSet
    {
      books == BooksNow()
    }

    ghost function BooksNow(): Books
      reads this, writeSet, readSet
    {
      Books(TotalGain(writeSet.cache, balanceOf), Keys(readSet.cache),
            StaticView(StaticEntries(writeSet.cache), Creations(writeSet.cache, isPrecompile), logs))
    }

    ghost method Book()
      modifies this`books
      ensures Valid()
    {
      books := BooksNow();
    }

    /** Value is conserved and reported reads are never dropped; and if frozen, the static view stands still. */
    twostate predicate Kept(frozen: bool)
      reads this, writeSet, readSet
    {
      Valid() && KeepsBooks(old(books), books, frozen)
    }

    /** An entry that replaces what was there and moves no value. */
    method SetEntry(a: Address, k: Key, v: Value)
      requires Valid() && !k.BalanceKey? && !k.SubBalanceKey?
      modifies this`books, writeSet
      ensures Kept(false) && books.seen == old(books.seen) && writeSet.cache == Updated(old(writeSet.cache), a, k, v)
    {
      OtherKeysMoveNothing(writeSet.cache, balanceOf, a, k, v);
      writeSet.UpdateCache(a, k, v, Bytes([]));
      Book();
    }

    method Read(a: Address, k: Key, v: Value)
      requires Valid()
      modifies this`books, readSet
      ensures Kept(true) && books.seen == old(books.seen) + {(a, k)}
    {
      readSet.UpdateCache(a, k, v);
      Book();
    }

    method AddLog(log: Log)
      requires Valid()
      modifies this
      ensures Kept(false) && logs == old(logs) + [log]
    {
      logs := logs + [log];
      Book();
    }

    /** The CreatAccountKey entry of a call. */
    method MarkCreated(addr: Address)
      requires Valid()
      modifies this`books, writeSet
      ensures Kept(isPrecompile(addr)) && books.seen == old(books.seen)
      ensures writeSet.cache == Marked(old(writeSet.cache), addr)
    {
      var mark := Bytes(WordBytes(addr.bits));
      OtherKeysMoveNothing(writeSet.cache, balanceOf, addr, CreatAccountKey, mark);
      if isPrecompile(addr) {
        PrecompileCreationIsStatic(writeSet.cache, isPrecompile, addr, mark);
      }
      writeSet.UpdateCache(addr, CreatAccountKey, mark, Bytes([]));
      Book();
    }

    function CanTransfer(from: Address, value: nat): bool
      reads this, writeSet
    {
      WriteSets.CanTransfer(writeSet.cache, balanceOf, from, value)
    }

    /** The entries that Call and create make for a transfer: value leaves one account and reaches the other. */
    method RecordTransfer(from: Address, to: Address, value: nat)
      requires Valid()
      modifies this`books, writeSet
      ensures Kept(false) && books.seen == old(books.seen)
      ensures writeSet.cache == Transferred(old(writeSet.cache), balanceOf, from, to, value)
    {
      TransferredMoves(writeSet.cache, balanceOf, from, to, value);
      var balanceVal := Known(writeSet.cache, balanceOf, to);
      writeSet.UpdateCache(from, SubBalanceKey, BigInt(value), BigInt(0));
      writeSet.UpdateCache(to, BalanceKey, BigInt(value), BigInt(balanceVal));
      Book();
    }

    /** Call's dealings with the callee's account: created if it does not exist and is not merely probed, and credited. What the
        state database says of its existence is arbitrary. */
    method EnterAccount(from: Address, addr: Address, value: Word) returns (found: bool, ghost existing: bool)
      requires Valid()
      modifies this`books, writeSet, readSet
      ensures Kept(value == 0)
      ensures found <==> existing || isPrecompile(addr) || value != 0
      ensures books.seen == old(books.seen) + {(from, BalanceKey)} + ReadOf(addr, value)
      ensures writeSet.cache == Entered(old(writeSet.cache), balanceOf, from, addr, value, found && !existing)
    {
      Read(from, BalanceKey, BigInt(value));
      var exists_: bool := *;
      existing := exists_;
      found := exists_ || isPrecompile(addr) || value != 0;
      if found && !exists_ {
        MarkCreated(addr);
      }
      if Moved(value) > 0 {
        Credit(from, addr, value);
      }
    }

    /** Call's transfer, which reports the recipient's balance as read. */
    method Credit(from: Address, to: Address, value: Word)
      requires Valid()
      modifies this`books, writeSet, readSet
      ensures Kept(false) && books.seen == old(books.seen) + {(to, BalanceKey)}
      ensures writeSet.cache == Transferred(old(writeSet.cache), balanceOf, from, to, value)
    {
      Read(to, BalanceKey, BigInt(Known(writeSet.cache, balanceOf, to)));
      RecordTransfer(from, to, value);
    }

    /** The nonce of a creating account, read and incremented unless it is the largest uint64. */
    method BumpNonce(a: Address) returns (ok: bool, nonce: uint64)
      requires Valid()
      modifies this`books, writeSet, readSet
      ensures Kept(false) && books.seen == old(books.seen) + {(a, NonceKey)}
      ensures Entry(old(writeSet.cache), a, NonceKey).Some? ==> nonce == NonceOf(Entry(old(writeSet.cache), a, NonceKey).value)
      ensures ok <==> nonce < MAX_UINT64
      ensures writeSet.cache == if ok then Updated(old(writeSet.cache), a, NonceKey, Nonce(nonce + 1)) else old(writeSet.cache)
    {
      var data := writeSet.GetAddressAndKey(a, NonceKey);
      if data.Some? {
        nonce := NonceOf(data.value);
      } else {
        nonce :| 0 <= nonce;
      }
      Read(a, NonceKey, Nonce(nonce));
      ok := WrapAdd(nonce, 1) >= nonce;
      if ok {
        SetEntry(a, NonceKey, Nonce(WrapAdd(nonce, 1)));
      }
    }

    /** create's dealings with the new account: marked as created, and credited. Nothing of it is reported as read. */
    method EnterCreated(from: Address, addr: Address, value: Word)
      requires Valid()
      modifies this`books, writeSet
      ensures Kept(false) && books.seen == old(books.seen)
      ensures writeSet.cache == Entered(old(writeSet.cache), balanceOf, from, addr, value, true)
    {
      MarkCreated(addr);
      if Moved(value) > 0 {
        RecordTransfer(from, addr, value);
      }
    }
  }

  /** The value that Call and create move: the test looks at its low 64 bits only. */
  function Moved(value: Word): nat {
    if value % TWO_64 > 0 then value else 0
  }

  function ReadOf(addr: Address, value: Word): set<(Address, Key)> {
    if Moved(value) > 0 then {(addr, BalanceKey)} else {}
  }

  function Marked(cache: Cache, addr: Address): Cache {
    Updated(cache, addr, CreatAccountKey, Bytes(WordBytes(addr.bits)))
  }

  /** The write set once value has been sent to an account, marked as created or not. */
  function Entered(cache: Cache, balanceOf: Address -> int, from: Address, addr: Address, value: Word, created: bool): Cache {
    var marked := if created then Marked(cache, addr) else cache;
    if Moved(value) > 0 then Transferred(marked, balanceOf, from, addr, value) else marked
  }

  lemma MarkedMoves(cache: Cache, balanceOf: Address -> int, addr: Address)
    ensures TotalGain(Marked(cache, addr), balanceOf) == TotalGain(cache, balanceOf)
    ensures forall a :: Effective(Marked(cache, addr), balanceOf, a) == Effective(cache, balanceOf, a)
    ensures forall a, k | k != CreatAccountKey || a != addr :: Entry(Marked(cache, addr), a, k) == Entry(cache, a, k)
    ensures Entry(Marked(cache, addr), addr, CreatAccountKey) == Some(Bytes(WordBytes(addr.bits)))
  {
    OtherKeysMoveNothing(cache, balanceOf, addr, CreatAccountKey, Bytes(WordBytes(addr.bits)));
  }

  /** What entering an account does to the balances: value is conserved, and moves between the two accounts. */
  lemma EnteredMoves(cache: Cache, balanceOf: Address -> int, from: Address, addr: Address, value: Word, created: bool)
    ensures var after := Entered(cache, balanceOf, from, addr, value, created);
            && TotalGain(after, balanceOf) == TotalGain(cache, balanceOf)
            && forall a :: Effective(after, balanceOf, a)
                           == Effective(cache, balanceOf, a) + (if a == addr then Moved(value) else 0) - (if a == from then Moved(value) else 0)
  {
    MarkedMoves(cache, balanceOf, addr);
    if Moved(value) > 0 {
      TransferredMoves(if created then Marked(cache, addr) else cache, balanceOf, from, addr, value);
    }
  }

  /** And to the other entries: the account is marked exactly when it is created, and nothing else changes. */
  lemma EnteredMarks(cache: Cache, balanceOf: Address -> int, from: Address, addr: Address, value: Word, created: bool)
    ensures var after := Entered(cache, balanceOf, from, addr, value, created);
            && (forall a, k | k != BalanceKey && k != SubBalanceKey && (k != CreatAccountKey || a != addr) ::
                  Entry(after, a, k) == Entry(cache, a, k))
            && Entry(after, addr, CreatAccountKey)
               == if created then Some(Bytes(WordBytes(addr.bits))) else Entry(cache, addr, CreatAccountKey)
  {
    MarkedMoves(cache, balanceOf, addr);
    if Moved(value) > 0 {
      TransferredMoves(if created then Marked(cache, addr) else cache, balanceOf, from, addr, value);
    }
  }

  /** Below a static call, where no value is sent, entering a precompiled contract that does not exist adds its mark, and
      nothing else that a static call may not add. */
  lemma StaticCallMayMark(isPrecompile: Address -> bool, balanceOf: Address -> int, from: Address, addr: Address)
    requires isPrecompile(addr)
    ensures var none: Cache := map[];
            var after := Entered(none, balanceOf, from, addr, 0, true);
            && after == map[addr := map[CreatAccountKey := Bytes(WordBytes(addr.bits))]]
            && StaticEntries(after) == StaticEntries(none) && Creations(after, isPrecompile) == Creations(none, isPrecompile)
  {
    PrecompileCreationIsStatic(map[], isPrecompile, addr, Bytes(WordBytes(addr.bits)));
  }

  predicate KeepsBooks(before: Books, after: Books, frozen: bool) {
    && after.gain == before.gain
    && before.seen <= after.seen
    && (frozen ==> after.view == before.view)
  }
}
