/** Optimistic execution of one level of transactions (process/cacheSet.go): detection of conflicts, merge of the accepted
    write sets, and why the result is that of a serial execution. */
module Conflicts {
  import opened Words
  import opened WriteSets

  type TxHash = Hash

  /** A transaction's record: its read and write sets, and whether it ended in an error. */
  datatype RWRecord = RWRecord(readSet: Cache, writeSet: Cache, failed: bool)

  /** CacheSet: records by transaction hash, and the order in which they are examined. */
  class CacheSet {
    var cache: map<TxHash, RWRecord>
    var order: seq<TxHash>

    constructor ()
      ensures Valid() && order == [] && cache == map[]
    {
      cache, order := map[], [];
    }

    /** The order lists every record once. */
    ghost predicate Valid()
      reads this
    {
      (forall h :: h in order <==> h in cache) && forall i, j | 0 <= i < j < |order| :: order[i] != order[j]
    }

    /** SetCache keeps the first record of a transaction. */
    method SetCache(txHash: TxHash, record: RWRecord)
      requires Valid()
      modifies this
      ensures Valid()
      ensures txHash in old(cache) ==> cache == old(cache) && order == old(order)
      ensures txHash !in old(cache) ==> cache == old(cache)[txHash := record] && order == old(order) + [txHash]
    {
      if txHash !in cache {
        cache := cache[txHash := record];
        order := order + [txHash];
      }
    }
  }

  // ---------------------------------------------------------------- detection

  /** Some key that was read has been written. */
  ghost predicate Clashes(readSet: Cache, written: Cache) {
    exists a, k :: a in readSet && k in readSet[a] && a in written && k in written[a]
  }

  /** The nested loops over the read set, in whatever order the maps are iterated, with their early exits. */
  method HasConflict(readSet: Cache, written: Cache) returns (conflict: bool)
    ensures conflict <==> Clashes(readSet, written)
  {
    var todo := readSet.Keys;
    while todo != {}
      invariant todo <= readSet.Keys
      invariant forall a, k | a in readSet && a !in todo && k in readSet[a] :: !(a in written && k in written[a])
      decreases todo
    {
      var a :| a in todo;
      todo := todo - {a};
      if a in written {
        var keys := readSet[a].Keys;
        while keys != {}
          invariant keys <= readSet[a].Keys
          invariant forall k | k in readSet[a] && k !in keys :: k !in written[a]
          decreases keys
        {
          var k :| k in keys;
          if k in written[a] {
            return true;
          }
          keys := keys - {k};
        }
      }
    }
    return false;
  }

  // ---------------------------------------------------------------- merge

  /** What an accepted record leaves for one account. A failed record with a nonce entry leaves that entry alone. */
  function MergedAccount(before: AccountCache, w: AccountCache, failed: bool): AccountCache {
    if failed && NonceKey in w then map[NonceKey := w[NonceKey]] else before + w
  }

  function MergedAt(written: Cache, record: RWRecord, a: Address): AccountCache {
    if a in record.writeSet then MergedAccount(AccountOf(written, a), record.writeSet[a], record.failed)
    else AccountOf(written, a)
  }

  function MergedCache(written: Cache, record: RWRecord): Cache {
    map a | a in written.Keys + record.writeSet.Keys :: MergedAt(written, record, a)
  }

  class WrittenBefore {
    var written: Cache

    constructor ()
      ensures written == map[]
    {
      written := map[];
    }

    /** The loop over an accepted record's write set. */
    method Merge(record: RWRecord)
      modifies this
      ensures written == MergedCache(old(written), record)
    {
      ghost var before := written;
      var todo := record.writeSet.Keys;
      while todo != {}
        invariant todo <= record.writeSet.Keys
        invariant written.Keys == before.Keys + (record.writeSet.Keys - todo)
        invariant forall a | a in written :: written[a] == if a in todo then AccountOf(before, a) else MergedAt(before, record, a)
        decreases todo
      {
        var a :| a in todo;
        MergeAccount(a, record.writeSet[a], record.failed);
        todo := todo - {a};
      }
    }

    method MergeAccount(a: Address, wrecord: AccountCache, failed: bool)
      modifies this
      ensures written == old(written)[a := MergedAccount(AccountOf(old(written), a), wrecord, failed)]
    {
      var cacheValue: AccountCache := map[];
      if a !in written {
        cacheValue := wrecord;
        assert map[] + wrecord == wrecord;
      } else {
        cacheValue := written[a] + wrecord;
      }
      if failed && NonceKey in wrecord {
        cacheValue := map[NonceKey := wrecord[NonceKey]];
      }
      written := written[a := cacheValue];
    }
  }

  /** Whether each record is accepted, and what has been written after all of them. */
  ghost function Detect(records: seq<RWRecord>): (r: (seq<bool>, Cache))
    ensures |r.0| == |records|
  {
    if records == [] then ([], map[])
    else
      var (accepted, written) := Detect(records[..|records| - 1]);
      var record := records[|records| - 1];
      if Clashes(record.readSet, written) then (accepted + [false], written)
      else (accepted + [true], MergedCache(written, record))
  }

  ghost function RecordsOf(order: seq<TxHash>, cache: map<TxHash, RWRecord>): seq<RWRecord>
    requires forall h | h in order :: h in cache
  {
    seq(|order|, i requires 0 <= i < |order| => cache[order[i]])
  }

  /** Those that are accepted, in their order, and those that are not. */
  ghost function Chosen<T>(xs: seq<T>, accepted: seq<bool>): seq<T>
    requires |xs| == |accepted|
  {
    if xs == [] then []
    else
      var n := |xs| - 1;
      Chosen(xs[..n], accepted[..n]) + if accepted[n] then [xs[n]] else []
  }

  ghost function Rejected<T>(xs: seq<T>, accepted: seq<bool>): seq<T>
    requires |xs| == |accepted|
  {
    if xs == [] then []
    else
      var n := |xs| - 1;
      Rejected(xs[..n], accepted[..n]) + if accepted[n] then [] else [xs[n]]
  }

  lemma ChosenNext<T>(xs: seq<T>, accepted: seq<bool>, accept: bool)
    requires |xs| == |accepted| + 1
    ensures var n := |accepted|;
            && Chosen(xs, accepted + [accept]) == Chosen(xs[..n], accepted) + (if accept then [xs[n]] else [])
            && Rejected(xs, accepted + [accept]) == Rejected(xs[..n], accepted) + if accept then [] else [xs[n]]
  {
    assert (accepted + [accept])[..|accepted|] == accepted;
  }

  lemma DetectNext(records: seq<RWRecord>, i: nat)
    requires i < |records|
    ensures var (accepted, written) := Detect(records[..i]);
            var clash := Clashes(records[i].readSet, written);
            Detect(records[..i + 1]) == (accepted + [!clash], if clash then written else MergedCache(written, records[i]))
  {
    assert records[..i + 1][..i] == records[..i];
  }

  lemma RejectedNext(order: seq<TxHash>, accepted: seq<bool>, i: nat, accept: bool)
    requires i < |order| && |accepted| == i
    ensures Rejected(order[..i + 1], accepted + [accept]) == Rejected(order[..i], accepted) + if accept then [] else [order[i]]
  {
    assert order[..i + 1][..i] == order[..i] && (accepted + [accept])[..i] == accepted;
  }

  /** One turn of the loop: the record is merged unless it clashes with what has been written. */
  method Validate(record: RWRecord, wCache: WrittenBefore) returns (accept: bool)
    modifies wCache
    ensures accept <==> !Clashes(record.readSet, old(wCache.written))
    ensures wCache.written == if accept then MergedCache(old(wCache.written), record) else old(wCache.written)
  {
    var conflict := HasConflict(record.readSet, wCache.written);
    if !conflict {
      wCache.Merge(record);
    }
    return !conflict;
  }

  /** DetectConflicts, up to the commit: the hashes to execute again, and the merged write sets of the others. */
  method DetectConflicts(rwSet: CacheSet, wCache: WrittenBefore) returns (conflicts: seq<TxHash>, ghost accepted: seq<bool>)
    requires rwSet.Valid() && wCache.written == map[]
    modifies wCache
    ensures (accepted, wCache.written) == Detect(RecordsOf(rwSet.order, rwSet.cache))
    ensures conflicts == Rejected(rwSet.order, accepted)
  {
    conflicts, accepted := [], [];
    ghost var records := RecordsOf(rwSet.order, rwSet.cache);
    var i := 0;
    while i < |rwSet.order|
      invariant 0 <= i <= |rwSet.order|
      invariant (accepted, wCache.written) == Detect(records[..i])
      invariant conflicts == Rejected(rwSet.order[..i], accepted)
    {
      var txHash := rwSet.order[i];
      DetectNext(records, i);
      var accept := Validate(rwSet.cache[txHash], wCache);
      RejectedNext(rwSet.order, accepted, i, accept);
      if !accept {
        conflicts := conflicts + [txHash];
      }
      accepted := accepted + [accept];
      i := i + 1;
    }
    assert records[..i] == records && rwSet.order[..i] == rwSet.order;
  }

  // ---------------------------------------------------------------- serialisability

  /** A transaction, by what it reports when it is executed on a state: its reads and its writes. A state has a value, or
      none, under every key of every account. */
  type Transaction = Cache -> RWRecord

  /** The state after writes that replace what they overwrite. */
  function Overlay(s: Cache, writes: Cache): Cache {
    map a | a in s.Keys + writes.Keys :: AccountOf(s, a) + AccountOf(writes, a)
  }

  ghost predicate AgreeOn(s: Cache, t: Cache, keys: set<(Address, Key)>) {
    forall a, k | (a, k) in keys :: Entry(s, a, k) == Entry(t, a, k)
  }

  /** A transaction is a function of the keys it reports as read. */
  ghost predicate ReadsDecide(tx: Transaction) {
    forall s, t :: AgreeOn(s, t, Keys(tx(s).readSet)) ==> tx(t) == tx(s)
  }

  /** The accepted transactions, executed one after the other. */
  ghost function Serial(txs: seq<Transaction>, accepted: seq<bool>, s: Cache): Cache
    requires |txs| == |accepted|
  {
    if txs == [] then s
    else
      var n := |txs| - 1;
      var before := Serial(txs[..n], accepted[..n], s);
      if accepted[n] then Overlay(before, txs[n](before).writeSet) else before
  }

  /** The records of all transactions, executed in parallel on one snapshot. */
  ghost function Parallel<S>(txs: seq<S -> RWRecord>, snapshot: S): (records: seq<RWRecord>)
    ensures |records| == |txs|
  {
    seq(|txs|, i requires 0 <= i < |txs| => txs[i](snapshot))
  }

  lemma MergeIsOverlay(written: Cache, record: RWRecord)
    requires !record.failed
    ensures MergedCache(written, record) == Overlay(written, record.writeSet)
  {
    forall a | a in written.Keys + record.writeSet.Keys
      ensures MergedAt(written, record, a) == AccountOf(written, a) + AccountOf(record.writeSet, a)
    {
      if a !in record.writeSet {
        assert AccountOf(written, a) + map[] == AccountOf(written, a);
      }
    }
  }

  lemma AccountOfOverlay(s: Cache, w: Cache, a: Address)
    ensures AccountOf(Overlay(s, w), a) == AccountOf(s, a) + AccountOf(w, a)
  {
    if a !in s && a !in w {
      assert map[] + AccountOf(w, a) == map[];
    }
  }

  lemma OverlayAssociative(s: Cache, v: Cache, w: Cache)
    ensures Overlay(Overlay(s, v), w) == Overlay(s, Overlay(v, w))
  {
    var l, r := Overlay(Overlay(s, v), w), Overlay(s, Overlay(v, w));
    assert l.Keys == r.Keys;
    forall a | a in l
      ensures l[a] == r[a]
    {
      AccountOfOverlay(Overlay(s, v), w, a);
      AccountOfOverlay(s, v, a);
      AccountOfOverlay(s, Overlay(v, w), a);
      AccountOfOverlay(v, w, a);
      PlusAssociative(AccountOf(s, a), AccountOf(v, a), AccountOf(w, a));
    }
  }

  lemma PlusAssociative<K, V>(x: map<K, V>, y: map<K, V>, z: map<K, V>)
    ensures (x + y) + z == x + (y + z)
  {}

  /** A transaction that clashes with none of the writes does not notice them. */
  lemma NoClashNoDifference(s: Cache, written: Cache, readSet: Cache)
    requires !Clashes(readSet, written)
    ensures AgreeOn(s, Overlay(s, written), Keys(readSet))
  {
    forall a, k | (a, k) in Keys(readSet)
      ensures Entry(s, a, k) == Entry(Overlay(s, written), a, k)
    {
      assert a in readSet && k in readSet[a];
    }
  }

  /** Serialisability: transactions run in parallel on one snapshot, and those that DetectConflicts accepts might as well
      have run one by one in the order of detection. */
  lemma {:induction false} AcceptedTransactionsSerialise(txs: seq<Transaction>, snapshot: Cache)
    requires forall tx | tx in txs :: ReadsDecide(tx) && !tx(snapshot).failed
    ensures var (accepted, written) := Detect(Parallel(txs, snapshot));
            Serial(txs, accepted, snapshot) == Overlay(snapshot, written)
  {
    if txs == [] {
      OverlayNothing(snapshot);
    } else {
      var n := |txs| - 1;
      var tx, records := txs[n], Parallel(txs, snapshot);
      assert records[..n] == Parallel(txs[..n], snapshot);
      AcceptedTransactionsSerialise(txs[..n], snapshot);
      var (accepted, written) := Detect(records[..n]);
      assert Detect(records).0[..n] == accepted;
      if !Clashes(tx(snapshot).readSet, written) {
        NoClashNoDifference(snapshot, written, tx(snapshot).readSet);
        assert tx(Overlay(snapshot, written)) == tx(snapshot);
        MergeIsOverlay(written, tx(snapshot));
        OverlayAssociative(snapshot, written, tx(snapshot).writeSet);
      }
    }
  }

  lemma OverlayNothing(s: Cache)
    ensures Overlay(s, map[]) == s
  {
    forall a | a in s
      ensures Overlay(s, map[])[a] == s[a]
    {
      assert s[a] + AccountOf(map[], a) == s[a];
    }
  }

  // ---------------------------------------------------------------- which transactions are rejected

  lemma ClashWithMerged(readSet: Cache, written: Cache, record: RWRecord)
    requires !record.failed
    ensures Clashes(readSet, MergedCache(written, record)) <==> Clashes(readSet, written) || Clashes(readSet, record.writeSet)
  {
    MergeIsOverlay(written, record);
    var merged := Overlay(written, record.writeSet);
    forall a, k
      ensures (a in merged && k in merged[a]) <==> (a in written && k in written[a]) || (a in record.writeSet && k in record.writeSet[a])
    {
      AccountOfOverlay(written, record.writeSet, a);
      assert k in AccountOf(written, a) + AccountOf(record.writeSet, a)
        <==> k in AccountOf(written, a) || k in AccountOf(record.writeSet, a);
    }
  }

  /** Some accepted record wrote a key of the read set. */
  ghost predicate ClashesWithAccepted(readSet: Cache, records: seq<RWRecord>, accepted: seq<bool>)
    requires |records| == |accepted|
  {
    exists j | 0 <= j < |records| :: accepted[j] && Clashes(readSet, records[j].writeSet)
  }

  /** The merged writes are those of the accepted records, no more and no fewer. */
  lemma {:induction false} WrittenIsAccepted(readSet: Cache, records: seq<RWRecord>)
    requires forall r | r in records :: !r.failed
    ensures var (accepted, written) := Detect(records);
            Clashes(readSet, written) <==> ClashesWithAccepted(readSet, records, accepted)
  {
    if records != [] {
      var n := |records| - 1;
      var init := records[..n];
      var (accepted, written) := Detect(records);
      WrittenIsAccepted(readSet, init);
      assert accepted[..n] == Detect(init).0;
      if accepted[n] {
        ClashWithMerged(readSet, Detect(init).1, records[n]);
      }
      if ClashesWithAccepted(readSet, init, accepted[..n]) {
        var j :| 0 <= j < n && accepted[..n][j] && Clashes(readSet, init[j].writeSet);
        assert accepted[j] && Clashes(readSet, records[j].writeSet);
      }
      if ClashesWithAccepted(readSet, records, accepted) {
        var j :| 0 <= j < |records| && accepted[j] && Clashes(readSet, records[j].writeSet);
        assert j < n ==> accepted[..n][j] && Clashes(readSet, init[j].writeSet);
      }
    }
  }

  /** A transaction is rejected exactly when it read a key that an earlier accepted one wrote. */
  lemma {:induction false} RejectedIffReadsEarlierWrite(records: seq<RWRecord>, i: nat)
    requires i < |records| && forall r | r in records :: !r.failed
    ensures var accepted := Detect(records).0;
            !accepted[i] <==> ClashesWithAccepted(records[i].readSet, records[..i], accepted[..i])
  {
    var n := |records| - 1;
    var accepted, init := Detect(records).0, records[..n];
    assert accepted[..n] == Detect(init).0;
    if i < n {
      RejectedIffReadsEarlierWrite(init, i);
      assert init[..i] == records[..i] && accepted[..n][..i] == accepted[..i];
    } else {
      WrittenIsAccepted(records[n].readSet, init);
    }
  }

  // ---------------------------------------------------------------- failed records

  /** What a failed record should contribute: its nonces. */
  function NoncesOf(writeSet: Cache): Cache {
    map a | a in writeSet && NonceKey in writeSet[a] :: map[NonceKey := writeSet[a][NonceKey]]
  }

  /** There is nothing that a failed record's entries take away from an account, and nothing but a nonce that they bring: with a
      nonce entry the account had at most a nonce before, and without one it had all of the record's entries. */
  ghost predicate NothingToLose(before: AccountCache, w: AccountCache) {
    if NonceKey in w then forall k | k in before :: k == NonceKey
    else forall k | k in w :: k in before && before[k] == w[k]
  }

  lemma FailedAccountIsRightIff(before: AccountCache, w: AccountCache)
    ensures MergedAccount(before, w, true) == before + (if NonceKey in w then map[NonceKey := w[NonceKey]] else map[])
            <==> NothingToLose(before, w)
  {
    var merged := MergedAccount(before, w, true);
    if NonceKey in w {
      var right := before + map[NonceKey := w[NonceKey]];
      assert forall k | k in before :: k in right;
      if NothingToLose(before, w) {
        assert right == map[NonceKey := w[NonceKey]];
      }
    } else {
      assert before + map[] == before;
      if merged == before {
        assert forall k | k in w :: k in merged && merged[k] == w[k];
      }
      if NothingToLose(before, w) {
        assert merged == before;
      }
    }
  }

  ghost predicate SameEntries(c: Cache, d: Cache) {
    forall a, k :: Entry(c, a, k) == Entry(d, a, k)
  }

  lemma SameEntriesIff(c: Cache, d: Cache)
    ensures SameEntries(c, d) <==> forall a :: AccountOf(c, a) == AccountOf(d, a)
  {
    if SameEntries(c, d) {
      forall a
        ensures AccountOf(c, a) == AccountOf(d, a)
      {
        assert forall k :: Entry(c, a, k) == Entry(d, a, k);
        assert forall k :: k in AccountOf(c, a) <==> Entry(c, a, k).Some?;
        assert forall k :: k in AccountOf(d, a) <==> Entry(d, a, k).Some?;
      }
    } else {
      var a, k :| Entry(c, a, k) != Entry(d, a, k);
      assert AccountOf(c, a) != AccountOf(d, a);
    }
  }

  lemma FailedAtIff(written: Cache, record: RWRecord, a: Address)
    requires record.failed
    ensures AccountOf(MergedCache(written, record), a) == AccountOf(Overlay(written, NoncesOf(record.writeSet)), a)
            <==> a in record.writeSet ==> NothingToLose(AccountOf(written, a), record.writeSet[a])
  {
    AccountOfOverlay(written, NoncesOf(record.writeSet), a);
    if a in record.writeSet {
      FailedAccountIsRightIff(AccountOf(written, a), record.writeSet[a]);
    } else {
      assert AccountOf(written, a) + map[] == AccountOf(written, a);
    }
  }

  /** Merging a failed record leaves its nonces and no more exactly when it finds nothing to lose at any account that it writes. */
  lemma FailedMergeIsRightIff(written: Cache, record: RWRecord)
    requires record.failed
    ensures SameEntries(MergedCache(written, record), Overlay(written, NoncesOf(record.writeSet)))
            <==> forall a | a in record.writeSet :: NothingToLose(AccountOf(written, a), record.writeSet[a])
  {
    SameEntriesIff(MergedCache(written, record), Overlay(written, NoncesOf(record.writeSet)));
    forall a
      ensures AccountOf(MergedCache(written, record), a) == AccountOf(Overlay(written, NoncesOf(record.writeSet)), a)
              <==> a in record.writeSet ==> NothingToLose(AccountOf(written, a), record.writeSet[a])
    {
      FailedAtIff(written, record, a);
    }
  }

  /** So an accepted write can be lost: a failed record that only bumps the nonce of the same account drops it. */
  lemma FailedRecordDropsEarlierWrite(a: Address, slot: Hash, v: Value, n: uint64)
    ensures var write := RWRecord(map[], map[a := map[StorageKey(slot) := v]], false);
            var failed := RWRecord(map[], map[a := map[NonceKey := Nonce(n)]], true);
            Detect([write, failed]) == ([true, true], map[a := map[NonceKey := Nonce(n)]])
  {
    var write := RWRecord(map[], map[a := map[StorageKey(slot) := v]], false);
    var failed := RWRecord(map[], map[a := map[NonceKey := Nonce(n)]], true);
    var after: Cache := map[a := map[NonceKey := Nonce(n)]];
    var middle := MergedCache(map[], write);
    assert MergedCache(middle, failed) == after;
    var none: seq<RWRecord>, nothing: seq<bool> := [], [];
    assert Detect(none) == (nothing, map[]);
    assert [write][..0] == none && [write, failed][..1] == [write];
    assert nothing + [true] == [true] && Detect([write]) == ([true], middle);
    assert [true] + [true] == [true, true];
  }
}
