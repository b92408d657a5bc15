/** What a level, and a block, come to (process/process.go, process/cacheSet.go), for the order in which each level is validated,
    and when that is a serial execution. */
module LevelRuns {
  import opened Words
  import opened WriteSets
  import opened Conflicts
  import opened Commit
  import opened LevelCommit
  import opened Marks

  /** What each item does on a state: in the parallel phase (TransitionDb), or when it is executed again (ReTransitionDb). */
  type Program = Item -> StateTransaction

  ghost function TransactionsOf(program: Program, order: seq<Item>): (txs: seq<StateTransaction>)
    ensures |txs| == |order|
  {
    seq(|order|, i requires 0 <= i < |order| => program(order[i]))
  }

  /** How the state database commits: what it makes of stored bytes, and whether state objects follow created accounts. */
  datatype Database = Database(hash: Hasher, follows: bool)

  /** The state once a write set is committed in parallel. */
  ghost function ObjectsState(s: State, writes: Cache, db: Database): State {
    (a: Address) => CommittedObjectIn(writes, a, s(a), db.hash, db.follows)
  }

  /** What RelExecTx leaves of a failed transaction: of every account with a nonce entry, that entry. */
  function NoncesWhereAny(writes: Cache): Cache {
    map a | a in writes :: if NonceKey in writes[a] then map[NonceKey := writes[a][NonceKey]] else writes[a]
  }

  function Rewritten(record: RWRecord): Cache {
    if record.failed then NoncesWhereAny(record.writeSet) else record.writeSet
  }

  /** Transactions executed again, each on the state that the one before has been committed to. */
  ghost function ReRun(txs: seq<StateTransaction>, s: State, db: Database): State {
    if txs == [] then s
    else
      var before := ReRun(txs[..|txs| - 1], s, db);
      ObjectsState(before, Rewritten(txs[|txs| - 1](before)), db)
  }

  // ---------------------------------------------------------------- one level

  ghost function Records(program: Program, listed: seq<Item>, s: State): (records: seq<RWRecord>)
    ensures |records| == |listed|
  {
    Parallel(TransactionsOf(program, listed), s)
  }

  /** The state after the validated writes of a level are committed. */
  ghost function AfterCommit(program: Program, listed: seq<Item>, s: State, db: Database): State {
    ObjectsState(s, Detect(Records(program, listed, s)).1, db)
  }

  /** The items that are executed again. */
  ghost function Again(program: Program, listed: seq<Item>, s: State): seq<Item> {
    Rejected(listed, Detect(Records(program, listed, s)).0)
  }

  /** The state after a level whose records are validated in the order listed. */
  ghost function AfterLevel(program: Program, again: Program, listed: seq<Item>, s: State, db: Database): State {
    ReRun(TransactionsOf(again, Again(program, listed, s)), AfterCommit(program, listed, s, db), db)
  }

  /** The items that take effect in the parallel phase. */
  ghost function TakenItems(program: Program, listed: seq<Item>, s: State): seq<Item> {
    var records := Records(program, listed, s);
    Chosen(listed, Taken(records, Detect(records).0))
  }

  /** The serial order of a level: what takes effect at once, then what is executed again. */
  ghost function LevelOrder(program: Program, again: Program, listed: seq<Item>, s: State): seq<StateTransaction> {
    TransactionsOf(program, TakenItems(program, listed, s)) + TransactionsOf(again, Again(program, listed, s))
  }

  /** The two commits agree on what is written. */
  ghost predicate ObjectsAgree(s: State, writes: Cache, db: Database) {
    forall a | a in writes :: ObjectAgrees(s(a), writes[a], db.follows)
  }

  /** A transaction executed again leaves what it would leave by itself: if it failed, it has no entries but for accounts whose
      nonce it changed. */
  ghost predicate RewriteFits(tx: StateTransaction, s: State, db: Database) {
    var record := tx(s);
    && (record.failed ==> forall a | a in record.writeSet :: NonceKey in record.writeSet[a])
    && ObjectsAgree(s, Effect(record), db)
  }

  ghost predicate ReRunFits(txs: seq<StateTransaction>, s: State, db: Database) {
    forall j | 0 <= j < |txs| :: RewriteFits(txs[j], ReRun(txs[..j], s, db), db)
  }

  /** Every record of the level fits what has been written before it, and what is executed again fits the state it finds. */
  ghost predicate LevelFits(program: Program, again: Program, listed: seq<Item>, s: State, db: Database) {
    && AllFit(TransactionsOf(program, listed), s)
    && ObjectsAgree(s, Detect(Records(program, listed, s)).1, db)
    && ReRunFits(TransactionsOf(again, Again(program, listed, s)), AfterCommit(program, listed, s, db), db)
  }

  lemma ObjectsStateIsCommitted(s: State, writes: Cache, db: Database)
    requires ObjectsAgree(s, writes, db)
    ensures Agree(ObjectsState(s, writes, db), CommittedState(s, writes, db.hash))
  {
    forall a
      ensures ObjectsState(s, writes, db)(a) == CommittedState(s, writes, db.hash)(a)
    {
      assert ObjectsState(s, writes, db)(a) == CommittedObjectIn(writes, a, s(a), db.hash, db.follows);
      assert CommittedState(s, writes, db.hash)(a) == CommittedIn(writes, a, s(a), db.hash);
      if a in writes {
        CommitsAgreeIff(s(a), writes[a], db.hash, db.follows);
      }
    }
  }

  lemma CommittedStateAgrees(s: State, t: State, writes: Cache, hash: Hasher)
    requires Agree(s, t)
    ensures Agree(CommittedState(s, writes, hash), CommittedState(t, writes, hash))
  {}

  lemma RewrittenIsEffect(record: RWRecord)
    requires record.failed ==> forall a | a in record.writeSet :: NonceKey in record.writeSet[a]
    ensures Rewritten(record) == Effect(record)
  {}

  /** What is executed again runs serially. */
  lemma {:induction false} ReRunIsSerial(txs: seq<StateTransaction>, s: State, db: Database)
    requires ReRunFits(txs, s, db)
    ensures Agree(ReRun(txs, s, db), Serially(txs, s, db.hash))
  {
    if txs != [] {
      var n := |txs| - 1;
      PrefixFits(txs, s, db);
      ReRunIsSerial(txs[..n], s, db);
      ReRunOnce(txs[n], ReRun(txs[..n], s, db), Serially(txs[..n], s, db.hash), db);
    }
  }

  lemma ReRunOnce(tx: StateTransaction, before: State, serial: State, db: Database)
    requires Agree(before, serial) && RewriteFits(tx, before, db)
    ensures Agree(ObjectsState(before, Rewritten(tx(before)), db), CommittedState(serial, Effect(tx(serial)), db.hash))
  {
    RewrittenIsEffect(tx(before));
    ObjectsStateIsCommitted(before, Effect(tx(before)), db);
    assert tx(before) == tx(serial);
    CommittedStateAgrees(before, serial, Effect(tx(before)), db.hash);
  }

  lemma {:induction false} ChosenOfProgram(program: Program, items: seq<Item>, accepted: seq<bool>)
    requires |items| == |accepted|
    ensures TransactionsOf(program, Chosen(items, accepted)) == Chosen(TransactionsOf(program, items), accepted)
  {
    if items != [] {
      var n := |items| - 1;
      ChosenOfProgram(program, items[..n], accepted[..n]);
      assert TransactionsOf(program, items)[..n] == TransactionsOf(program, items[..n]);
    }
  }

  /** A level whose records fit is a serial execution: of those that take effect at once, then of those that are executed again. */
  lemma LevelIsSerial(program: Program, again: Program, listed: seq<Item>, s: State, db: Database)
    requires LevelFits(program, again, listed, s, db)
    ensures Agree(AfterLevel(program, again, listed, s, db), Serially(LevelOrder(program, again, listed, s), s, db.hash))
  {
    var txs, records := TransactionsOf(program, listed), Records(program, listed, s);
    var (accepted, written) := Detect(records);
    var taken, rerun := TransactionsOf(program, TakenItems(program, listed, s)), TransactionsOf(again, Again(program, listed, s));
    var middle, serial := AfterCommit(program, listed, s, db), Serially(taken, s, db.hash);
    CommitIsSerial(txs, s, db.hash);
    ChosenOfProgram(program, listed, Taken(records, accepted));
    CommittedAgrees(s, serial, written, db);
    ReRunIsSerial(rerun, middle, db);
    SeriallyAgrees(rerun, middle, serial, db.hash);
    SeriallyAppend(taken, rerun, s, db.hash);
  }

  lemma CommittedAgrees(s: State, serial: State, written: Cache, db: Database)
    requires Commits(serial, s, written, db.hash) && ObjectsAgree(s, written, db)
    ensures Agree(ObjectsState(s, written, db), serial)
  {
    ObjectsStateIsCommitted(s, written, db);
    forall a
      ensures CommittedState(s, written, db.hash)(a) == serial(a)
    {
      NothingCommitted(s(a), db.hash);
    }
  }

  // ---------------------------------------------------------------- when it is a serial execution of the level's own transactions

  /** Two lists of transactions have the same effects, one by one, where the first is run. */
  ghost predicate SameEffects(txs: seq<StateTransaction>, others: seq<StateTransaction>, s: State, db: Database)
    requires |txs| == |others|
  {
    forall j | 0 <= j < |txs| :: SameEffect(txs[j], others[j], ReRun(txs[..j], s, db))
  }

  ghost predicate SameEffect(tx: StateTransaction, other: StateTransaction, s: State) {
    Effect(tx(s)) == Effect(other(s))
  }

  lemma PrefixFits(txs: seq<StateTransaction>, s: State, db: Database)
    requires txs != [] && ReRunFits(txs, s, db)
    ensures ReRunFits(txs[..|txs| - 1], s, db) && RewriteFits(txs[|txs| - 1], ReRun(txs[..|txs| - 1], s, db), db)
  {
    var n := |txs| - 1;
    forall j | 0 <= j < n
      ensures RewriteFits(txs[..n][j], ReRun(txs[..n][..j], s, db), db)
    {
      assert txs[..n][..j] == txs[..j];
    }
  }

  lemma PrefixSame(txs: seq<StateTransaction>, others: seq<StateTransaction>, s: State, db: Database)
    requires |txs| == |others| > 0 && SameEffects(txs, others, s, db)
    ensures SameEffects(txs[..|txs| - 1], others[..|txs| - 1], s, db)
    ensures SameEffect(txs[|txs| - 1], others[|txs| - 1], ReRun(txs[..|txs| - 1], s, db))
  {
    var n := |txs| - 1;
    forall j | 0 <= j < n
      ensures SameEffect(txs[..n][j], others[..n][j], ReRun(txs[..n][..j], s, db))
    {
      assert txs[..n][..j] == txs[..j];
    }
  }

  lemma {:induction false} SameEffectsRunAlike(txs: seq<StateTransaction>, others: seq<StateTransaction>, s: State, db: Database)
    requires |txs| == |others| && ReRunFits(txs, s, db) && SameEffects(txs, others, s, db)
    ensures Agree(Serially(txs, s, db.hash), Serially(others, s, db.hash))
  {
    if txs != [] {
      var n := |txs| - 1;
      PrefixFits(txs, s, db);
      PrefixSame(txs, others, s, db);
      SameEffectsRunAlike(txs[..n], others[..n], s, db);
      ReRunIsSerial(txs[..n], s, db);
      SameEffectOnce(txs[n], others[n], ReRun(txs[..n], s, db), Serially(txs[..n], s, db.hash), Serially(others[..n], s, db.hash),
                     db.hash);
    }
  }

  lemma SameEffectOnce(tx: StateTransaction, other: StateTransaction, before: State, serial: State, own: State, hash: Hasher)
    requires Agree(before, serial) && Agree(serial, own) && SameEffect(tx, other, before)
    ensures Agree(CommittedState(serial, Effect(tx(serial)), hash), CommittedState(own, Effect(other(own)), hash))
  {
    assert Agree(before, own);
    assert tx(before) == tx(serial) && other(before) == other(own);
    CommittedStateAgrees(serial, own, Effect(tx(before)), hash);
  }

  /** What is executed again leaves what it would have left in the parallel phase. */
  ghost predicate RunsAgainAlike(program: Program, again: Program, listed: seq<Item>, s: State, db: Database) {
    var items := Again(program, listed, s);
    SameEffects(TransactionsOf(again, items), TransactionsOf(program, items), AfterCommit(program, listed, s, db), db)
  }

  /** Then the level is a serial execution of its own transactions, those in error aside. */
  lemma LevelIsOwnSerial(program: Program, again: Program, listed: seq<Item>, s: State, db: Database)
    requires LevelFits(program, again, listed, s, db) && RunsAgainAlike(program, again, listed, s, db)
    ensures var order := TakenItems(program, listed, s) + Again(program, listed, s);
            Agree(AfterLevel(program, again, listed, s, db), Serially(TransactionsOf(program, order), s, db.hash))
  {
    var items := Again(program, listed, s);
    LevelIsSerial(program, again, listed, s, db);
    TakenIsCommitted(program, again, listed, s, db);
    RunAlikeAfter(TransactionsOf(program, TakenItems(program, listed, s)), TransactionsOf(again, items), TransactionsOf(program, items),
                  s, AfterCommit(program, listed, s, db), db);
    TransactionsOfAppend(program, TakenItems(program, listed, s), items);
  }

  lemma TransactionsOfAppend(program: Program, xs: seq<Item>, ys: seq<Item>)
    ensures TransactionsOf(program, xs + ys) == TransactionsOf(program, xs) + TransactionsOf(program, ys)
  {}

  lemma RunAlikeAfter(taken: seq<StateTransaction>, txs: seq<StateTransaction>, others: seq<StateTransaction>, s: State, middle: State,
                      db: Database)
    requires |txs| == |others| && ReRunFits(txs, middle, db) && SameEffects(txs, others, middle, db)
    requires Agree(middle, Serially(taken, s, db.hash))
    ensures Agree(Serially(taken + txs, s, db.hash), Serially(taken + others, s, db.hash))
  {
    var serial := Serially(taken, s, db.hash);
    SameEffectsRunAlike(txs, others, middle, db);
    SeriallyAgrees(txs, middle, serial, db.hash);
    SeriallyAgrees(others, middle, serial, db.hash);
    SeriallyAppend(taken, txs, s, db.hash);
    SeriallyAppend(taken, others, s, db.hash);
  }

  lemma TakenIsCommitted(program: Program, again: Program, listed: seq<Item>, s: State, db: Database)
    requires LevelFits(program, again, listed, s, db)
    ensures Agree(AfterCommit(program, listed, s, db), Serially(TransactionsOf(program, TakenItems(program, listed, s)), s, db.hash))
  {
    var records := Records(program, listed, s);
    var (accepted, written) := Detect(records);
    CommitIsSerial(TransactionsOf(program, listed), s, db.hash);
    ChosenOfProgram(program, listed, Taken(records, accepted));
    CommittedAgrees(s, Serially(TransactionsOf(program, TakenItems(program, listed, s)), s, db.hash), written, db);
  }

  // ---------------------------------------------------------------- which transactions take effect

  ghost predicate ErrorOn(program: Program, item: Item, s: State) {
    IsError(program(item)(s))
  }

  ghost function ErrorFlags(records: seq<RWRecord>): (flags: seq<bool>)
    ensures |flags| == |records|
  {
    seq(|records|, i requires 0 <= i < |records| => IsError(records[i]))
  }

  /** The items in error on the level's snapshot. */
  ghost function Errors(program: Program, listed: seq<Item>, s: State): seq<Item> {
    Chosen(listed, ErrorFlags(Records(program, listed, s)))
  }

  lemma {:induction false} AcceptedIff(records: seq<RWRecord>, i: nat)
    requires i < |records|
    ensures Detect(records).0[i] <==> !Clashes(records[i].readSet, Detect(records[..i]).1)
  {
    var n := |records| - 1;
    assert records[..n + 1] == records;
    DetectNext(records, n);
    if i < n {
      AcceptedIff(records[..n], i);
      assert records[..n][..i] == records[..i];
    }
  }

  /** A record in error is accepted, as it reports no reads. */
  lemma ErrorsAreAccepted(records: seq<RWRecord>)
    ensures forall i | 0 <= i < |records| :: IsError(records[i]) ==> Detect(records).0[i]
  {
    forall i | 0 <= i < |records| && IsError(records[i])
      ensures Detect(records).0[i]
    {
      AcceptedIff(records, i);
    }
  }

  lemma LastChosen<T>(xs: seq<T>, flags: seq<bool>)
    requires |xs| == |flags| > 0
    ensures var n := |xs| - 1;
            multiset(Chosen(xs, flags)) == multiset(Chosen(xs[..n], flags[..n])) + (if flags[n] then multiset{xs[n]} else multiset{})
    ensures var n := |xs| - 1;
            multiset(Rejected(xs, flags)) == multiset(Rejected(xs[..n], flags[..n])) + (if flags[n] then multiset{} else multiset{xs[n]})
  {}

  lemma {:induction false} ThreeWays<T>(xs: seq<T>, f: seq<bool>, g: seq<bool>, h: seq<bool>)
    requires |xs| == |f| == |g| == |h|
    requires forall i | 0 <= i < |xs| :: if f[i] then h[i] && !g[i] else g[i] == h[i]
    ensures multiset(Chosen(xs, f)) + multiset(Rejected(xs, h)) + multiset(Chosen(xs, g)) == multiset(xs)
  {
    if xs != [] {
      var n := |xs| - 1;
      ThreeWays(xs[..n], f[..n], g[..n], h[..n]);
      assert xs == xs[..n] + [xs[n]];
      LastChosen(xs, f);
      LastChosen(xs, g);
      LastChosen(xs, h);
    }
  }

  lemma {:induction false} ChosenHave(program: Program, listed: seq<Item>, flags: seq<bool>, s: State)
    requires |listed| == |flags|
    requires forall i | 0 <= i < |listed| && flags[i] :: ErrorOn(program, listed[i], s)
    ensures forall i | 0 <= i < |Chosen(listed, flags)| :: ErrorOn(program, Chosen(listed, flags)[i], s)
  {
    if listed != [] {
      var n := |listed| - 1;
      ChosenHave(program, listed[..n], flags[..n], s);
    }
  }

  lemma {:induction false} NeitherHave(program: Program, listed: seq<Item>, taken: seq<bool>, accepted: seq<bool>, s: State)
    requires |listed| == |taken| == |accepted|
    requires forall i | 0 <= i < |listed| && (taken[i] || !accepted[i]) :: !ErrorOn(program, listed[i], s)
    ensures forall i | 0 <= i < |Chosen(listed, taken)| :: !ErrorOn(program, Chosen(listed, taken)[i], s)
    ensures forall i | 0 <= i < |Rejected(listed, accepted)| :: !ErrorOn(program, Rejected(listed, accepted)[i], s)
  {
    if listed != [] {
      var n := |listed| - 1;
      NeitherHave(program, listed[..n], taken[..n], accepted[..n], s);
    }
  }

  /** The transactions of a level that take effect, at once or when executed again, are exactly those that do not end in an error
      on its snapshot; the others are never executed again. */
  lemma TakesEffectIff(program: Program, listed: seq<Item>, s: State)
    ensures var taken, again, errors := TakenItems(program, listed, s), Again(program, listed, s), Errors(program, listed, s);
            && multiset(taken) + multiset(again) + multiset(errors) == multiset(listed)
            && (forall i | 0 <= i < |taken| :: !ErrorOn(program, taken[i], s))
            && (forall i | 0 <= i < |again| :: !ErrorOn(program, again[i], s))
            && (forall i | 0 <= i < |errors| :: ErrorOn(program, errors[i], s))
  {
    var records := Records(program, listed, s);
    var accepted := Detect(records).0;
    ErrorsAreAccepted(records);
    ThreeWays(listed, Taken(records, accepted), ErrorFlags(records), accepted);
    ChosenHave(program, listed, ErrorFlags(records), s);
    NeitherHave(program, listed, Taken(records, accepted), accepted, s);
  }

  // ---------------------------------------------------------------- when a level blocks

  /** One of them writes nothing where it is executed again: there is nothing to commit, and after an error no receipt either. */
  ghost predicate SomeIdle(txs: seq<StateTransaction>, s: State, db: Database) {
    exists j :: 0 <= j < |txs| && txs[j](ReRun(txs[..j], s, db)).writeSet == map[]
  }

  /** The level never ends: all accepted transactions write nothing, and a commit of nothing blocks; or one that is executed again
      writes nothing, and the commit blocks, or the missing receipt of an error is dereferenced before. */
  ghost predicate LevelBlocks(program: Program, again: Program, listed: seq<Item>, s: State, db: Database) {
    Detect(Records(program, listed, s)).1 == map[]
    || SomeIdle(TransactionsOf(again, Again(program, listed, s)), AfterCommit(program, listed, s, db), db)
  }

  // ---------------------------------------------------------------- a block

  /** The state after some levels. */
  ghost function AfterBlock(program: Program, again: Program, lists: seq<seq<Item>>, s: State, db: Database): State {
    if lists == [] then s
    else AfterLevel(program, again, lists[|lists| - 1], AfterBlock(program, again, lists[..|lists| - 1], s, db), db)
  }

  /** The snapshot of level k. */
  ghost function Snapshot(program: Program, again: Program, lists: seq<seq<Item>>, k: nat, s: State, db: Database): State
    requires k <= |lists|
  {
    AfterBlock(program, again, lists[..k], s, db)
  }

  /** The serial order of a block. */
  ghost function BlockOrder(program: Program, again: Program, lists: seq<seq<Item>>, s: State, db: Database): seq<StateTransaction> {
    if lists == [] then []
    else
      var n := |lists| - 1;
      BlockOrder(program, again, lists[..n], s, db) + LevelOrder(program, again, lists[n], Snapshot(program, again, lists, n, s, db))
  }

  ghost predicate BlockFits(program: Program, again: Program, lists: seq<seq<Item>>, s: State, db: Database) {
    forall k | 0 <= k < |lists| :: LevelFits(program, again, lists[k], Snapshot(program, again, lists, k, s, db), db)
  }

  /** A block whose levels fit is a serial execution. */
  lemma {:induction false} BlockIsSerial(program: Program, again: Program, lists: seq<seq<Item>>, s: State, db: Database)
    requires BlockFits(program, again, lists, s, db)
    ensures Agree(AfterBlock(program, again, lists, s, db), Serially(BlockOrder(program, again, lists, s, db), s, db.hash))
  {
    if lists != [] {
      var n := |lists| - 1;
      forall k | 0 <= k < n
        ensures LevelFits(program, again, lists[..n][k], Snapshot(program, again, lists[..n], k, s, db), db)
      {
        assert lists[..n][..k] == lists[..k];
      }
      BlockIsSerial(program, again, lists[..n], s, db);
      var snapshot, orders := Snapshot(program, again, lists, n, s, db), BlockOrder(program, again, lists[..n], s, db);
      var order := LevelOrder(program, again, lists[n], snapshot);
      assert LevelFits(program, again, lists[n], snapshot, db);
      LevelIsSerial(program, again, lists[n], snapshot, db);
      SeriallyAgrees(order, snapshot, Serially(orders, s, db.hash), db.hash);
      SeriallyAppend(orders, order, s, db.hash);
    }
  }

  /** The items of a block that take effect, and those in error on the snapshot of their level. */
  ghost function EffectiveItems(program: Program, again: Program, lists: seq<seq<Item>>, s: State, db: Database): seq<Item> {
    if lists == [] then []
    else
      var n := |lists| - 1;
      var snapshot := Snapshot(program, again, lists, n, s, db);
      EffectiveItems(program, again, lists[..n], s, db) + TakenItems(program, lists[n], snapshot) + Again(program, lists[n], snapshot)
  }

  ghost function ErrorItems(program: Program, again: Program, lists: seq<seq<Item>>, s: State, db: Database): seq<Item> {
    if lists == [] then []
    else
      var n := |lists| - 1;
      ErrorItems(program, again, lists[..n], s, db) + Errors(program, lists[n], Snapshot(program, again, lists, n, s, db))
  }

  /** Every transaction of a block takes effect once, but for those in error on the snapshot of their level. */
  lemma {:induction false} BlockTakesEffect(program: Program, again: Program, lists: seq<seq<Item>>, s: State, db: Database)
    ensures multiset(EffectiveItems(program, again, lists, s, db)) + multiset(ErrorItems(program, again, lists, s, db))
            == multiset(Flatten(lists))
  {
    if lists != [] {
      var n := |lists| - 1;
      BlockTakesEffect(program, again, lists[..n], s, db);
      TakesEffectIff(program, lists[n], Snapshot(program, again, lists, n, s, db));
    }
  }

  /** Every level's rejected transactions leave, executed again, what they would have left in the parallel phase. */
  ghost predicate BlockRunsAgainAlike(program: Program, again: Program, lists: seq<seq<Item>>, s: State, db: Database) {
    forall k | 0 <= k < |lists| :: RunsAgainAlike(program, again, lists[k], Snapshot(program, again, lists, k, s, db), db)
  }

  /** Then the block is a serial execution of its own transactions that take effect. */
  lemma {:induction false} BlockIsOwnSerial(program: Program, again: Program, lists: seq<seq<Item>>, s: State, db: Database)
    requires BlockFits(program, again, lists, s, db) && BlockRunsAgainAlike(program, again, lists, s, db)
    ensures Agree(AfterBlock(program, again, lists, s, db),
                  Serially(TransactionsOf(program, EffectiveItems(program, again, lists, s, db)), s, db.hash))
  {
    if lists != [] {
      var n := |lists| - 1;
      ButLast(program, again, lists, s, db);
      BlockIsOwnSerial(program, again, lists[..n], s, db);
      NextOwnSerial(program, again, lists[n], Snapshot(program, again, lists, n, s, db),
                    EffectiveItems(program, again, lists[..n], s, db), s, db);
    }
  }

  lemma NextOwnSerial(program: Program, again: Program, listed: seq<Item>, snapshot: State, before: seq<Item>, s: State, db: Database)
    requires LevelFits(program, again, listed, snapshot, db) && RunsAgainAlike(program, again, listed, snapshot, db)
    requires Agree(snapshot, Serially(TransactionsOf(program, before), s, db.hash))
    ensures var items := before + TakenItems(program, listed, snapshot) + Again(program, listed, snapshot);
            Agree(AfterLevel(program, again, listed, snapshot, db), Serially(TransactionsOf(program, items), s, db.hash))
  {
    var items := TakenItems(program, listed, snapshot) + Again(program, listed, snapshot);
    LevelIsOwnSerial(program, again, listed, snapshot, db);
    SeriallyAgrees(TransactionsOf(program, items), snapshot, Serially(TransactionsOf(program, before), s, db.hash), db.hash);
    SeriallyAppend(TransactionsOf(program, before), TransactionsOf(program, items), s, db.hash);
    TransactionsOfAppend(program, before, items);
    assert before + items == before + TakenItems(program, listed, snapshot) + Again(program, listed, snapshot);
  }

  lemma ButLast(program: Program, again: Program, lists: seq<seq<Item>>, s: State, db: Database)
    requires lists != [] && BlockFits(program, again, lists, s, db) && BlockRunsAgainAlike(program, again, lists, s, db)
    ensures BlockFits(program, again, lists[..|lists| - 1], s, db) && BlockRunsAgainAlike(program, again, lists[..|lists| - 1], s, db)
    ensures var n := |lists| - 1;
            LevelFits(program, again, lists[n], Snapshot(program, again, lists, n, s, db), db)
            && RunsAgainAlike(program, again, lists[n], Snapshot(program, again, lists, n, s, db), db)
  {
    var n := |lists| - 1;
    forall k | 0 <= k < n
      ensures Snapshot(program, again, lists[..n], k, s, db) == Snapshot(program, again, lists, k, s, db)
    {
      assert lists[..n][..k] == lists[..k];
    }
  }
}
