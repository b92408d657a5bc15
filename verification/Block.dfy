/** A block in parallel (process/process.go, ExecBenchTxs): its levels one by one, each executed on one snapshot, validated,
    committed, and its conflicts executed again (process/cacheSet.go). */
module Blocks {
  import opened Words
  import opened WriteSets
  import opened Conflicts
  import opened Commit
  import opened LevelCommit
  import opened LevelRuns
  import opened Marks
  import opened ExecPools

  ghost function HashesOf(items: seq<Item>): set<TxHash> {
    set item | item in items :: item.hash
  }

  // ---------------------------------------------------------------- records by hash

  /** Of the first n results, the first with this hash has this item and this record. */
  ghost predicate FiledFirst(results: seq<Outcome>, n: nat, h: TxHash, item: Item, record: RWRecord)
    requires n <= |results|
  {
    exists i :: 0 <= i < n && results[i] == Outcome(item, record) && item.hash == h && forall j | 0 <= j < i :: results[j].item.hash != h
  }

  /** The results of a level, filed by transaction hash: the first of each hash counts. */
  method CollectRecords(results: seq<Outcome>) returns (rwSet: CacheSet, byHash: map<TxHash, Item>)
    ensures fresh(rwSet) && rwSet.Valid() && byHash.Keys == rwSet.cache.Keys == HashesOf(ItemsOf(results))
    ensures forall h | h in byHash :: FiledFirst(results, |results|, h, byHash[h], rwSet.cache[h])
  {
    rwSet := new CacheSet();
    byHash := map[];
    var i := 0;
    while i < |results|
      invariant 0 <= i <= |results|
      invariant fresh(rwSet) && rwSet.Valid() && byHash.Keys == rwSet.cache.Keys
      invariant forall j | 0 <= j < i :: results[j].item.hash in byHash
      invariant forall h | h in byHash :: FiledFirst(results, i, h, byHash[h], rwSet.cache[h])
    {
      var Outcome(item, record) := results[i];
      if item.hash !in byHash {
        byHash := byHash[item.hash := item];
        assert FiledFirst(results, i + 1, item.hash, item, record);
      }
      rwSet.SetCache(item.hash, record);
      i := i + 1;
    }
    assert byHash.Keys == HashesOf(ItemsOf(results)) by {
      FiledHashes(results, byHash, rwSet.cache);
    }
  }

  lemma FiledHashes(results: seq<Outcome>, byHash: map<TxHash, Item>, cache: map<TxHash, RWRecord>)
    requires byHash.Keys == cache.Keys
    requires forall j | 0 <= j < |results| :: results[j].item.hash in byHash
    requires forall h | h in byHash :: FiledFirst(results, |results|, h, byHash[h], cache[h])
    ensures byHash.Keys == HashesOf(ItemsOf(results))
  {
    var items := ItemsOf(results);
    forall h | h in byHash
      ensures h in HashesOf(items)
    {
      var i :| 0 <= i < |results| && results[i].item == byHash[h] && byHash[h].hash == h;
      assert items[i] in items;
    }
    forall h | h in HashesOf(items)
      ensures h in byHash
    {
      var item :| item in items && item.hash == h;
      var j :| 0 <= j < |items| && items[j] == item;
    }
  }

  /** sort.Sort(rwSet): the records in some other order. */
  method Sort(rwSet: CacheSet)
    requires rwSet.Valid()
    modifies rwSet
    ensures rwSet.Valid() && rwSet.cache == old(rwSet.cache)
  {
    assert IsOrderOf(rwSet.order, rwSet.cache);
    var order: seq<TxHash> :| IsOrderOf(order, rwSet.cache);
    rwSet.order := order;
    assert IsOrderOf(rwSet.order, rwSet.cache);
    assert forall h :: h in rwSet.order <==> h in rwSet.cache;
  }

  predicate IsOrderOf(order: seq<TxHash>, cache: map<TxHash, RWRecord>) {
    && (forall h | h in order :: h in cache) && (forall h | h in cache :: h in order)
    && forall i, j | 0 <= i < j < |order| :: order[i] != order[j]
  }

  // ---------------------------------------------------------------- validation and commit

  ghost function DatabaseOf(db: AccountDB): Database {
    Database(db.hash, db.follows)
  }

  /** The validation of a level's records, and the commit of what is merged. */
  method ValidateLevel(rwSet: CacheSet, db: AccountDB) returns (blocked: bool, conflicts: seq<TxHash>, ghost accepted: seq<bool>)
    requires rwSet.Valid()
    modifies db
    ensures var (all, written) := Detect(RecordsOf(rwSet.order, rwSet.cache));
            && accepted == all && conflicts == Rejected(rwSet.order, accepted)
            && (blocked <==> written == map[])
            && Agree(db.View(), ObjectsState(old(db.View()), written, DatabaseOf(db)))
  {
    var wCache := new WrittenBefore();
    conflicts, accepted := DetectConflicts(rwSet, wCache);
    blocked := CommitCache(wCache.written, db);
  }

  method CommitCache(writes: Cache, db: AccountDB) returns (blocked: bool)
    modifies db
    ensures blocked <==> writes == map[]
    ensures Agree(db.View(), ObjectsState(old(db.View()), writes, DatabaseOf(db)))
  {
    ghost var before := db.View();
    assert forall a :: before(a) == db.Get(a);
    blocked := db.CommitInParallel(writes);
    assert forall a :: db.View()(a) == db.Get(a);
  }

  // ---------------------------------------------------------------- execution again

  method ReExecuteOne(tx: StateTransaction, db: AccountDB) returns (blocked: bool)
    modifies db
    ensures blocked <==> tx(old(db.View())).writeSet == map[]
    ensures Agree(db.View(), ObjectsState(old(db.View()), Rewritten(tx(old(db.View()))), DatabaseOf(db)))
  {
    var record := tx(db.View());
    assert NoncesWhereAny(record.writeSet).Keys == record.writeSet.Keys;
    blocked := CommitCache(Rewritten(record), db);
  }

  ghost function ItemsAt(hashes: seq<TxHash>, byHash: map<TxHash, Item>): (items: seq<Item>)
    requires forall i | 0 <= i < |hashes| :: hashes[i] in byHash
    ensures |items| == |hashes|
  {
    seq(|hashes|, i requires 0 <= i < |hashes| => byHash[hashes[i]])
  }

  /** RelExecTx: the rejected transactions, one by one on the state as it then is, until one writes nothing, if only because it
      ends in an error: then it goes no further. */
  method ReExecute(again: Program, hashes: seq<TxHash>, byHash: map<TxHash, Item>, db: AccountDB) returns (blocked: bool)
    requires forall i | 0 <= i < |hashes| :: hashes[i] in byHash
    modifies db
    ensures var txs := TransactionsOf(again, ItemsAt(hashes, byHash));
            && (blocked <==> SomeIdle(txs, old(db.View()), DatabaseOf(db)))
            && (!blocked ==> Agree(db.View(), ReRun(txs, old(db.View()), DatabaseOf(db))))
  {
    ghost var txs, start, data := TransactionsOf(again, ItemsAt(hashes, byHash)), db.View(), DatabaseOf(db);
    var i := 0;
    while i < |hashes|
      invariant 0 <= i <= |hashes|
      invariant NoneIdle(txs, i, start, data) && Agree(db.View(), ReRun(txs[..i], start, data))
    {
      ghost var before := db.View();
      assert txs[i] == again(byHash[hashes[i]]);
      blocked := ReExecuteOne(again(byHash[hashes[i]]), db);
      ReRunNext(txs, i, start, before, db.View(), data);
      if blocked {
        return true;
      }
      i := i + 1;
    }
    assert txs[..i] == txs;
    return false;
  }

  /** None of the first n writes nothing. */
  ghost predicate NoneIdle(txs: seq<StateTransaction>, n: nat, s: State, db: Database)
    requires n <= |txs|
  {
    forall j | 0 <= j < n :: txs[j](ReRun(txs[..j], s, db)).writeSet != map[]
  }

  lemma ReRunNext(txs: seq<StateTransaction>, i: nat, s: State, before: State, after: State, db: Database)
    requires i < |txs| && Agree(before, ReRun(txs[..i], s, db))
    requires Agree(after, ObjectsState(before, Rewritten(txs[i](before)), db))
    ensures Agree(after, ReRun(txs[..i + 1], s, db))
    ensures if txs[i](before).writeSet == map[] then SomeIdle(txs, s, db) else NoneIdle(txs, i, s, db) ==> NoneIdle(txs, i + 1, s, db)
  {
    assert txs[..i + 1][..i] == txs[..i];
    assert txs[i](before) == txs[i](ReRun(txs[..i], s, db));
    ObjectsStateAgrees(before, ReRun(txs[..i], s, db), Rewritten(txs[i](before)), db);
  }

  lemma ObjectsStateAgrees(s: State, t: State, writes: Cache, db: Database)
    requires Agree(s, t)
    ensures Agree(ObjectsState(s, writes, db), ObjectsState(t, writes, db))
  {}

  // ---------------------------------------------------------------- one level

  /** The order lists the items, one for each hash. */
  ghost predicate Lists(order: seq<Item>, items: seq<Item>) {
    (forall i | 0 <= i < |order| :: order[i] in items) && HashesOf(order) == HashesOf(items) && |order| == |HashesOf(items)|
  }

  /** One level: its transactions run at once on one snapshot, under any schedule; their records are validated in any order, and
      what is merged is committed; the rejected ones are executed again. */
  method ExecLevel(program: Program, again: Program, items: seq<Item>, db: AccountDB)
    returns (blocked: bool, results: seq<Outcome>, ghost listed: seq<Item>)
    modifies db
    ensures Lists(listed, items)
    ensures blocked <==> LevelBlocks(program, again, listed, old(db.View()), DatabaseOf(db))
    ensures items == [] ==> blocked
    ensures !blocked ==> multiset(ItemsOf(results)) == multiset(items)
    ensures !blocked ==> Agree(db.View(), AfterLevel(program, again, listed, old(db.View()), DatabaseOf(db)))
  {
    listed := [];
    var rwSet, byHash;
    blocked, results, rwSet, byHash := RunLevel(program, items, db.View());
    if !blocked {
      blocked, listed := SettleLevel(program, again, items, rwSet, byHash, db);
    }
  }

  /** The parallel phase: a record for every hash, in any order. */
  method RunLevel(program: Program, items: seq<Item>, snapshot: State)
    returns (blocked: bool, results: seq<Outcome>, rwSet: CacheSet, byHash: map<TxHash, Item>)
    ensures blocked <==> items == []
    ensures !blocked ==> multiset(ItemsOf(results)) == multiset(items)
    ensures fresh(rwSet) && rwSet.Valid() && byHash.Keys == rwSet.cache.Keys
    ensures !blocked ==> RecordsOf(rwSet.order, rwSet.cache) == Records(program, ItemsAt(rwSet.order, byHash), snapshot)
    ensures !blocked ==> Lists(ItemsAt(rwSet.order, byHash), items)
  {
    var run := (item: Item) => program(item)(snapshot);
    FanOutIsValid(run, items);
    blocked, results := RunToEnd(FanOut(run, items));
    rwSet, byHash := CollectRecords(results);
    Sort(rwSet);
    if !blocked {
      SameHashes(ItemsOf(results), items);
      ListedRecords(program, results, byHash, rwSet.order, rwSet.cache, items, snapshot);
    }
  }

  /** Validation, commit and execution again. */
  method SettleLevel(program: Program, again: Program, items: seq<Item>, rwSet: CacheSet, byHash: map<TxHash, Item>, db: AccountDB)
    returns (blocked: bool, ghost listed: seq<Item>)
    requires rwSet.Valid() && byHash.Keys == rwSet.cache.Keys && items != []
    requires RecordsOf(rwSet.order, rwSet.cache) == Records(program, ItemsAt(rwSet.order, byHash), db.View())
    requires Lists(ItemsAt(rwSet.order, byHash), items)
    modifies db
    ensures Lists(listed, items)
    ensures blocked <==> LevelBlocks(program, again, listed, old(db.View()), DatabaseOf(db))
    ensures !blocked ==> Agree(db.View(), AfterLevel(program, again, listed, old(db.View()), DatabaseOf(db)))
  {
    listed := ItemsAt(rwSet.order, byHash);
    ghost var start, data := db.View(), DatabaseOf(db);
    var conflicts;
    ghost var accepted;
    blocked, conflicts, accepted := ValidateLevel(rwSet, db);
    if blocked {
      return;
    }
    ghost var middle := db.View();
    RejectedItems(rwSet.order, accepted, byHash);
    blocked := ReExecute(again, conflicts, byHash, db);
    ReRunsAlike(TransactionsOf(again, Again(program, listed, start)), middle, AfterCommit(program, listed, start, data), data);
  }

  /** States that agree are left alike by what is executed again. */
  lemma {:induction false} ReRunAgrees(txs: seq<StateTransaction>, s: State, t: State, db: Database)
    requires Agree(s, t)
    ensures Agree(ReRun(txs, s, db), ReRun(txs, t, db))
  {
    if txs != [] {
      var init, last := txs[..|txs| - 1], txs[|txs| - 1];
      ReRunAgrees(init, s, t, db);
      ObjectsStateAgrees(ReRun(init, s, db), ReRun(init, t, db), Rewritten(last(ReRun(init, s, db))), db);
    }
  }

  lemma ReRunsAlike(txs: seq<StateTransaction>, s: State, t: State, db: Database)
    requires Agree(s, t)
    ensures Agree(ReRun(txs, s, db), ReRun(txs, t, db)) && (SomeIdle(txs, s, db) <==> SomeIdle(txs, t, db))
  {
    ReRunAgrees(txs, s, t, db);
    forall j | 0 <= j < |txs|
      ensures txs[j](ReRun(txs[..j], s, db)) == txs[j](ReRun(txs[..j], t, db))
    {
      ReRunAgrees(txs[..j], s, t, db);
    }
  }

  lemma SameHashes(left: seq<Item>, right: seq<Item>)
    requires multiset(left) == multiset(right)
    ensures HashesOf(left) == HashesOf(right)
    ensures forall x :: x in left <==> x in right
  {
    assert forall x :: x in left <==> x in multiset(left);
    assert forall x :: x in right <==> x in multiset(right);
  }

  /** The records in the order of validation are those of the listed items, run on the snapshot. */
  lemma ListedRecords(program: Program, results: seq<Outcome>, byHash: map<TxHash, Item>, order: seq<TxHash>, cache: map<TxHash, RWRecord>,
                      items: seq<Item>, snapshot: State)
    requires IsOrderOf(order, cache) && byHash.Keys == cache.Keys == HashesOf(items)
    requires forall h | h in byHash :: FiledFirst(results, |results|, h, byHash[h], cache[h])
    requires Reported((item: Item) => program(item)(snapshot), results)
    requires forall x :: x in ItemsOf(results) <==> x in items
    ensures RecordsOf(order, cache) == Parallel(TransactionsOf(program, ItemsAt(order, byHash)), snapshot)
    ensures Lists(ItemsAt(order, byHash), items)
  {
    var listed := ItemsAt(order, byHash);
    forall i | 0 <= i < |order|
      ensures listed[i].hash == order[i] && listed[i] in items && cache[order[i]] == program(listed[i])(snapshot)
    {
      var h := order[i];
      assert FiledFirst(results, |results|, h, byHash[h], cache[h]);
      var k :| 0 <= k < |results| && results[k] == Outcome(byHash[h], cache[h]) && byHash[h].hash == h;
      assert ItemsOf(results)[k] == listed[i];
    }
    HashesListed(listed, order);
    CountDistinct(order);
    assert (set h | h in order) == cache.Keys;
  }

  lemma HashesListed(items: seq<Item>, hashes: seq<TxHash>)
    requires |items| == |hashes| && forall i | 0 <= i < |items| :: items[i].hash == hashes[i]
    ensures HashesOf(items) == set h | h in hashes
  {
    forall h | h in hashes
      ensures h in HashesOf(items)
    {
      var i :| 0 <= i < |hashes| && hashes[i] == h;
      assert items[i] in items;
    }
  }

  lemma {:induction false} CountDistinct<T>(xs: seq<T>)
    requires forall i, j | 0 <= i < j < |xs| :: xs[i] != xs[j]
    ensures |set x | x in xs| == |xs|
  {
    if xs != [] {
      var n := |xs| - 1;
      CountDistinct(xs[..n]);
      assert (set x | x in xs) == (set x | x in xs[..n]) + {xs[n]};
    }
  }

  /** The rejected hashes are those of the rejected items. */
  lemma {:induction false} RejectedItems(order: seq<TxHash>, accepted: seq<bool>, byHash: map<TxHash, Item>)
    requires |order| == |accepted| && forall i | 0 <= i < |order| :: order[i] in byHash
    ensures forall i | 0 <= i < |Rejected(order, accepted)| :: Rejected(order, accepted)[i] in byHash
    ensures ItemsAt(Rejected(order, accepted), byHash) == Rejected(ItemsAt(order, byHash), accepted)
  {
    if order != [] {
      var n := |order| - 1;
      RejectedItems(order[..n], accepted[..n], byHash);
      assert ItemsAt(order, byHash)[..n] == ItemsAt(order[..n], byHash);
    }
  }

  /** A level all of whose transactions end in an error on its snapshot blocks: there is nothing to commit. */
  lemma {:induction false} LevelOfErrorsBlocks(program: Program, again: Program, listed: seq<Item>, s: State, db: Database)
    requires forall i | 0 <= i < |listed| :: ErrorOn(program, listed[i], s)
    ensures LevelBlocks(program, again, listed, s, db)
  {
    NothingMerged(Records(program, listed, s));
  }

  lemma {:induction false} NothingMerged(records: seq<RWRecord>)
    requires forall i | 0 <= i < |records| :: IsError(records[i])
    ensures Detect(records).1 == map[]
  {
    if records != [] {
      NothingMerged(records[..|records| - 1]);
    }
  }

  // ---------------------------------------------------------------- a whole block

  ghost predicate DistinctHashes(items: seq<Item>) {
    forall i, j | 0 <= i < j < |items| :: items[i].hash != items[j].hash
  }

  /** One order for each level. */
  ghost predicate ListLevels(orders: seq<seq<Item>>, levels: seq<seq<Item>>) {
    |orders| == |levels| && forall k | 0 <= k < |levels| :: Lists(orders[k], levels[k])
  }

  /** The levels that a block is cut into. */
  ghost function BlockLevels(txs: seq<Item>): seq<seq<Item>>
    requires HaveRecipients(txs)
  {
    LevelsOfBlock(txs);
    FiledAll(Initial(), txs).items[..FiledAll(Initial(), txs).maxLevel + 1]
  }

  /** None of the levels listed blocks. */
  ghost predicate NoneBlocks(program: Program, again: Program, lists: seq<seq<Item>>, s: State, db: Database) {
    forall k | 0 <= k < |lists| :: !LevelBlocks(program, again, lists[k], Snapshot(program, again, lists, k, s, db), db)
  }

  /** The last of the levels listed blocks, and none before it. */
  ghost predicate LastBlocks(program: Program, again: Program, lists: seq<seq<Item>>, s: State, db: Database) {
    && lists != []
    && NoneBlocks(program, again, lists[..|lists| - 1], s, db)
    && LevelBlocks(program, again, lists[|lists| - 1], Snapshot(program, again, lists, |lists| - 1, s, db), db)
  }

  /** The whole block. A transaction without a recipient is fatal. Otherwise the levels are executed in turn, each listed in some
      order, until one blocks for ever; if none does, every transaction has been executed once in the parallel phase, and the
      state is AfterBlock's. */
  method ExecBenchTxs(program: Program, again: Program, txs: seq<Item>, db: AccountDB)
    returns (faulted: bool, blocked: bool, executed: seq<Outcome>, ghost lists: seq<seq<Item>>)
    modifies db
    ensures faulted <==> !HaveRecipients(txs)
    ensures !faulted && txs == [] ==> blocked
    ensures !faulted ==> |lists| <= |BlockLevels(txs)| && ListLevels(lists, BlockLevels(txs)[..|lists|])
    ensures !faulted ==>
              if blocked then LastBlocks(program, again, lists, old(db.View()), DatabaseOf(db))
              else |lists| == |BlockLevels(txs)| && NoneBlocks(program, again, lists, old(db.View()), DatabaseOf(db))
    ensures !faulted && !blocked ==> Agree(db.View(), AfterBlock(program, again, lists, old(db.View()), DatabaseOf(db)))
    ensures !faulted && !blocked ==> multiset(ItemsOf(executed)) == multiset(txs)
    ensures !faulted && !blocked && DistinctHashes(txs) ==> multiset(Flatten(lists)) == multiset(txs)
  {
    executed, lists, blocked := [], [], false;
    var levels;
    faulted, levels := CutBlock(txs);
    if faulted {
      return;
    }
    ghost var start, data := db.View(), DatabaseOf(db);
    blocked, executed, lists := ExecLevels(program, again, levels, db);
    if !blocked {
      AllLevelsDone(program, again, txs, levels, executed, lists, start, db.View(), data);
      EmptyBlockBlocks(program, again, txs, levels, lists, start, data);
    }
  }

  /** The levels of the block, as the marks cut it. */
  method CutBlock(txs: seq<Item>) returns (faulted: bool, levels: seq<seq<Item>>)
    ensures faulted <==> !HaveRecipients(txs)
    ensures !faulted ==> levels == BlockLevels(txs) && Flatten(levels) == txs && levels != []
  {
    levels := [];
    var cache := new MarkCache();
    faulted := cache.FillLevels(txs);
    if !faulted {
      LevelsOfBlock(txs);
      levels := cache.items[..cache.GetMaxLevel()];
    }
  }

  /** A block without transactions has one level, without items, and that blocks. */
  lemma EmptyBlockBlocks(program: Program, again: Program, txs: seq<Item>, levels: seq<seq<Item>>, lists: seq<seq<Item>>,
                         s: State, db: Database)
    requires Flatten(levels) == txs && levels != [] && |lists| <= |levels| && ListLevels(lists, levels[..|lists|])
    ensures txs == [] && |lists| == |levels| ==> !NoneBlocks(program, again, lists, s, db)
  {
    if txs == [] && |lists| == |levels| {
      FirstChunk(levels, None);
      assert Lists(lists[0], levels[0]) && HashesOf(levels[0]) == {} && lists[0] == [];
      assert LevelBlocks(program, again, lists[0], Snapshot(program, again, lists, 0, s, db), db);
    }
  }

  /** The levels in turn, until one blocks. */
  method ExecLevels(program: Program, again: Program, levels: seq<seq<Item>>, db: AccountDB)
    returns (blocked: bool, executed: seq<Outcome>, ghost lists: seq<seq<Item>>)
    modifies db
    ensures |lists| <= |levels| && ListLevels(lists, levels[..|lists|])
    ensures blocked ==> LastBlocks(program, again, lists, old(db.View()), DatabaseOf(db))
    ensures !blocked ==> LevelsDone(program, again, levels, |levels|, executed, lists, old(db.View()), db.View(), DatabaseOf(db))
  {
    executed, lists := [], [];
    ghost var start, data := db.View(), DatabaseOf(db);
    var i := 0;
    while i < |levels|
      invariant 0 <= i <= |levels|
      invariant LevelsDone(program, again, levels, i, executed, lists, start, db.View(), data)
    {
      ghost var before := db.View();
      ghost var listed;
      var results;
      blocked, results, listed := ExecLevel(program, again, levels[i], db);
      if blocked {
        OneLevelBlocks(program, again, levels, i, executed, lists, listed, start, before, data);
        lists := lists + [listed];
        return;
      }
      OneLevelDone(program, again, levels, i, executed, results, lists, listed, start, before, db.View(), data);
      executed, lists := executed + results, lists + [listed];
      i := i + 1;
    }
    blocked := false;
  }

  /** The first n levels have been executed. */
  ghost predicate LevelsDone(program: Program, again: Program, levels: seq<seq<Item>>, n: nat, executed: seq<Outcome>,
                             lists: seq<seq<Item>>, s: State, t: State, db: Database)
    requires n <= |levels|
  {
    && (forall x :: Count(ItemsOf(executed), x) == Count(Flatten(levels[..n]), x))
    && ListLevels(lists, levels[..n]) && NoneBlocks(program, again, lists, s, db)
    && Agree(t, AfterBlock(program, again, lists, s, db))
  }

  /** On states that agree, a level comes to the same. */
  lemma LevelAgrees(program: Program, again: Program, listed: seq<Item>, s: State, t: State, db: Database)
    requires Agree(s, t)
    ensures Agree(AfterLevel(program, again, listed, s, db), AfterLevel(program, again, listed, t, db))
    ensures LevelBlocks(program, again, listed, s, db) <==> LevelBlocks(program, again, listed, t, db)
  {
    var records := Records(program, listed, s);
    assert records == Records(program, listed, t);
    ObjectsStateAgrees(s, t, Detect(records).1, db);
    ReRunsAlike(TransactionsOf(again, Again(program, listed, s)), AfterCommit(program, listed, s, db), AfterCommit(program, listed, t, db),
                db);
  }

  lemma SnapshotsExtend(program: Program, again: Program, lists: seq<seq<Item>>, listed: seq<Item>, s: State, db: Database)
    ensures forall k | 0 <= k <= |lists| :: Snapshot(program, again, lists + [listed], k, s, db) == Snapshot(program, again, lists, k, s, db)
    ensures (lists + [listed])[..|lists|] == lists
  {
    forall k | 0 <= k <= |lists|
      ensures Snapshot(program, again, lists + [listed], k, s, db) == Snapshot(program, again, lists, k, s, db)
    {
      assert (lists + [listed])[..k] == lists[..k];
    }
  }

  lemma ListOneMore(lists: seq<seq<Item>>, levels: seq<seq<Item>>, n: nat, listed: seq<Item>)
    requires n < |levels| && ListLevels(lists, levels[..n]) && Lists(listed, levels[n])
    ensures ListLevels(lists + [listed], levels[..n + 1])
  {}

  lemma OneLevelBlocks(program: Program, again: Program, levels: seq<seq<Item>>, n: nat, executed: seq<Outcome>, lists: seq<seq<Item>>,
                       listed: seq<Item>, s: State, before: State, db: Database)
    requires n < |levels| && LevelsDone(program, again, levels, n, executed, lists, s, before, db)
    requires Lists(listed, levels[n]) && LevelBlocks(program, again, listed, before, db)
    ensures ListLevels(lists + [listed], levels[..n + 1]) && LastBlocks(program, again, lists + [listed], s, db)
  {
    ListOneMore(lists, levels, n, listed);
    SnapshotsExtend(program, again, lists, listed, s, db);
    assert lists[..|lists|] == lists;
    LevelAgrees(program, again, listed, before, AfterBlock(program, again, lists, s, db), db);
  }

  lemma NextSnapshot(program: Program, again: Program, lists: seq<seq<Item>>, listed: seq<Item>, s: State, before: State, after: State,
                     db: Database)
    requires NoneBlocks(program, again, lists, s, db) && Agree(before, AfterBlock(program, again, lists, s, db))
    requires !LevelBlocks(program, again, listed, before, db) && Agree(after, AfterLevel(program, again, listed, before, db))
    ensures NoneBlocks(program, again, lists + [listed], s, db) && Agree(after, AfterBlock(program, again, lists + [listed], s, db))
  {
    SnapshotsExtend(program, again, lists, listed, s, db);
    assert lists[..|lists|] == lists;
    LevelAgrees(program, again, listed, before, AfterBlock(program, again, lists, s, db), db);
  }

  lemma OneLevelDone(program: Program, again: Program, levels: seq<seq<Item>>, n: nat, executed: seq<Outcome>, results: seq<Outcome>,
                     lists: seq<seq<Item>>, listed: seq<Item>, s: State, before: State, after: State, db: Database)
    requires n < |levels| && LevelsDone(program, again, levels, n, executed, lists, s, before, db)
    requires multiset(ItemsOf(results)) == multiset(levels[n]) && Lists(listed, levels[n])
    requires !LevelBlocks(program, again, listed, before, db) && Agree(after, AfterLevel(program, again, listed, before, db))
    ensures LevelsDone(program, again, levels, n + 1, executed + results, lists + [listed], s, after, db)
  {
    OneMoreLevel(levels, n, executed, results);
    ListOneMore(lists, levels, n, listed);
    NextSnapshot(program, again, lists, listed, s, before, after, db);
  }

  lemma AllLevelsDone(program: Program, again: Program, txs: seq<Item>, levels: seq<seq<Item>>, executed: seq<Outcome>,
                      lists: seq<seq<Item>>, s: State, t: State, db: Database)
    requires Flatten(levels) == txs && LevelsDone(program, again, levels, |levels|, executed, lists, s, t, db)
    ensures multiset(ItemsOf(executed)) == multiset(txs) && ListLevels(lists, levels)
    ensures DistinctHashes(txs) ==> multiset(Flatten(lists)) == multiset(txs)
  {
    assert levels[..|levels|] == levels;
    SameCounts(ItemsOf(executed), txs);
    if DistinctHashes(txs) {
      OrdersPermute(lists, levels);
    }
  }

  lemma SameCounts(left: seq<Item>, right: seq<Item>)
    requires forall x :: Count(left, x) == Count(right, x)
    ensures multiset(left) == multiset(right)
  {
    forall item: Item
      ensures multiset(left)[item] == multiset(right)[item]
    {
      CountIsMultiplicity(left, item);
      CountIsMultiplicity(right, item);
    }
  }

  lemma OneMoreLevel(levels: seq<seq<Item>>, i: nat, executed: seq<Outcome>, results: seq<Outcome>)
    requires i < |levels| && multiset(ItemsOf(results)) == multiset(levels[i])
    requires forall x :: Count(ItemsOf(executed), x) == Count(Flatten(levels[..i]), x)
    ensures forall x :: Count(ItemsOf(executed + results), x) == Count(Flatten(levels[..i + 1]), x)
  {
    assert levels[..i + 1] == levels[..i] + [levels[i]];
    assert ItemsOf(executed + results) == ItemsOf(executed) + ItemsOf(results);
    forall x
      ensures Count(ItemsOf(executed + results), x) == Count(Flatten(levels[..i + 1]), x)
    {
      LastChunk(levels[..i], levels[i], x);
      CountAppend(ItemsOf(executed), ItemsOf(results), x);
      CountOfPermutation(ItemsOf(results), levels[i], x);
    }
  }

  lemma CountOfPermutation(left: seq<Item>, right: seq<Item>, x: Option<Item>)
    requires multiset(left) == multiset(right)
    ensures Count(left, x) == Count(right, x)
  {
    match x
    case None =>
      CountAll(left);
      CountAll(right);
      assert |multiset(left)| == |left| && |multiset(right)| == |right|;
    case Some(item) =>
      CountIsMultiplicity(left, item);
      CountIsMultiplicity(right, item);
  }

  /** Where hashes are distinct, an order that lists some items is a permutation of them. */
  lemma ListsPermutes(order: seq<Item>, items: seq<Item>)
    requires Lists(order, items) && DistinctHashes(items)
    ensures multiset(order) == multiset(items)
  {
    var hashes := seq(|items|, i requires 0 <= i < |items| => items[i].hash);
    HashesListed(items, hashes);
    CountDistinct(hashes);
    forall x | x in items
      ensures x in order && multiset(items)[x] == 1
    {
      assert x.hash in HashesOf(order);
      var y :| y in order && y.hash == x.hash;
      var k :| 0 <= k < |order| && order[k] == y;
      var i :| 0 <= i < |items| && items[i] == x;
      var j :| 0 <= j < |items| && items[j] == y;
      assert i == j;
      OnceOnly(items, i);
    }
    assert multiset(items) <= multiset(order);
    assert |multiset(order) - multiset(items)| == 0;
  }

  lemma OnceOnly(items: seq<Item>, i: nat)
    requires i < |items| && DistinctHashes(items)
    ensures multiset(items)[items[i]] == 1
  {
    assert items == items[..i] + ([items[i]] + items[i + 1..]);
    assert items[i] !in items[..i] && items[i] !in items[i + 1..];
  }

  lemma {:induction false} OrdersPermute(orders: seq<seq<Item>>, levels: seq<seq<Item>>)
    requires ListLevels(orders, levels) && DistinctHashes(Flatten(levels))
    ensures multiset(Flatten(orders)) == multiset(Flatten(levels))
  {
    if levels != [] {
      var n := |levels| - 1;
      var init, last := Flatten(levels[..n]), levels[n];
      assert Flatten(levels) == init + last;
      assert forall i | 0 <= i < |init| :: (init + last)[i] == init[i];
      assert forall i | 0 <= i < |last| :: (init + last)[|init| + i] == last[i];
      OrdersPermute(orders[..n], levels[..n]);
      ListsPermutes(orders[n], last);
    }
  }
}
