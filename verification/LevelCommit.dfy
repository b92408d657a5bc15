/** What a level's commit amounts to: the merged writes of the accepted transactions, against their serial execution on the state
    (process/cacheSet.go, process/process.go), and against the sum of the values they move. */
module LevelCommit {
  import opened Words
  import opened Sums
  import opened WriteSets
  import opened Conflicts
  import opened Commit

  // ---------------------------------------------------------------- serial execution on the state

  type State = Address -> Account
  type Hasher = seq<byte> -> Hash

  ghost predicate Agree(s: State, t: State) {
    forall a :: s(a) == t(a)
  }

  ghost predicate Extensional(tx: State -> RWRecord) {
    forall s, t | Agree(s, t) :: tx(s) == tx(t)
  }

  /** What a transaction reports when it is executed on a state, of which it can tell no more than the accounts. */
  type StateTransaction = tx: State -> RWRecord | Extensional(tx) ghost witness (s: State) => RWRecord(map[], map[], false)

  /** What a read of a key sees. Only balances, nonces and slots are reported as read. */
  function Observed(acc: Account, k: Key): int {
    match k
    case BalanceKey => acc.balance
    case NonceKey => acc.nonce
    case StorageKey(slot) => if slot in acc.storage then acc.storage[slot].bits else 0
    case _ => 0
  }

  ghost predicate SameReads(s: State, t: State, readSet: Cache) {
    forall a, k | a in readSet && k in readSet[a] :: Observed(s(a), k) == Observed(t(a), k)
  }

  /** What the transaction does on a state is decided by what it reports as read there. */
  ghost predicate DecidedOn(tx: StateTransaction, s: State) {
    forall t | SameReads(s, t, tx(s).readSet) :: tx(t) == tx(s)
  }

  /** What ApplyTransactionWithFlag makes of an error: both sets are empty. */
  predicate IsError(record: RWRecord) {
    record.failed && record.readSet == map[] && record.writeSet == map[]
  }

  /** What a transaction leaves where it is executed by itself: of a failed one, the nonces. */
  function Effect(record: RWRecord): Cache {
    if record.failed then NoncesOf(record.writeSet) else record.writeSet
  }

  /** The state once a write set is committed in order. */
  ghost function CommittedState(s: State, writes: Cache, hash: Hasher): State {
    (a: Address) => CommittedIn(writes, a, s(a), hash)
  }

  /** Transactions executed one by one, each on the state that the one before has been committed to. */
  ghost function Serially(txs: seq<StateTransaction>, s: State, hash: Hasher): State {
    if txs == [] then s
    else
      var before := Serially(txs[..|txs| - 1], s, hash);
      CommittedState(before, Effect(txs[|txs| - 1](before)), hash)
  }

  lemma SeriallyOneMore(txs: seq<StateTransaction>, tx: StateTransaction, s: State, hash: Hasher)
    ensures var before := Serially(txs, s, hash);
            Serially(txs + [tx], s, hash) == CommittedState(before, Effect(tx(before)), hash)
  {
    assert (txs + [tx])[..|txs|] == txs;
  }

  lemma {:induction false} SeriallyAgrees(txs: seq<StateTransaction>, s: State, t: State, hash: Hasher)
    requires Agree(s, t)
    ensures Agree(Serially(txs, s, hash), Serially(txs, t, hash))
  {
    if txs != [] {
      SeriallyAgrees(txs[..|txs| - 1], s, t, hash);
    }
  }

  lemma {:induction false} SeriallyAppend(xs: seq<StateTransaction>, ys: seq<StateTransaction>, s: State, hash: Hasher)
    ensures Serially(xs + ys, s, hash) == Serially(ys, Serially(xs, s, hash), hash)
  {
    if ys == [] {
      assert xs + ys == xs;
    } else {
      var n := |ys| - 1;
      SeriallyAppend(xs, ys[..n], s, hash);
      assert xs + ys == (xs + ys[..n]) + [ys[n]];
      SeriallyOneMore(xs + ys[..n], ys[n], s, hash);
    }
  }

  // ---------------------------------------------------------------- one account

  /** Entries w may be laid over entries v: no pending debit of v is dropped, or brought into a balance that w sets; and where w
      creates the account, v leaves nothing there that w does not set. */
  ghost predicate Layers(v: AccountCache, w: AccountCache) {
    && (SubBalanceKey !in v || Amount(v[SubBalanceKey]) == 0 || (BalanceKey in w <==> SubBalanceKey in w))
    && (CreatAccountKey in w ==>
          && (NonceKey in v && NonceKey !in w ==> NonceOf(v[NonceKey]) == 1)
          && (SetCodeKey in v && SetCodeKey !in w ==> BytesOf(v[SetCodeKey]) == [])
          && forall slot | StorageKey(slot) in v :: StorageKey(slot) in w)
  }

  lemma StorageTwice(v: AccountCache, w: AccountCache, hash: Hasher)
    ensures StorageWrites(v + w, (v + w).Keys, hash) == StorageWrites(v, v.Keys, hash) + StorageWrites(w, w.Keys, hash)
  {
    assert SlotsOf((v + w).Keys) == SlotsOf(v.Keys) + SlotsOf(w.Keys);
  }

  lemma PlusKeepsIff<K, V>(x: map<K, V>, y: map<K, V>)
    ensures x + y == y <==> x.Keys <= y.Keys
  {
    if x + y == y {
      assert forall k | k in x :: k in x + y;
    }
  }

  /** An account's storage after both commits, and after the one of the overlaid entries. */
  lemma StorageLayers(storage: map<Hash, Hash>, v: AccountCache, w: AccountCache, hash: Hasher)
    ensures var first, second := StorageWrites(v, v.Keys, hash), StorageWrites(w, w.Keys, hash);
            (storage + first) + second == storage + StorageWrites(v + w, (v + w).Keys, hash)
  {
    StorageTwice(v, w, hash);
    PlusAssociative(storage, StorageWrites(v, v.Keys, hash), StorageWrites(w, w.Keys, hash));
  }

  /** Where the later commit begins the account anew. */
  lemma StorageAnewIff(v: AccountCache, w: AccountCache, hash: Hasher)
    ensures map[] + StorageWrites(w, w.Keys, hash) == map[] + StorageWrites(v + w, (v + w).Keys, hash)
            <==> forall slot | StorageKey(slot) in v :: StorageKey(slot) in w
  {
    var first, second := StorageWrites(v, v.Keys, hash), StorageWrites(w, w.Keys, hash);
    StorageTwice(v, w, hash);
    PlusKeepsIff(first, second);
    assert map[] + second == second && map[] + (first + second) == first + second;
    assert first.Keys <= second.Keys <==> forall slot | StorageKey(slot) in v :: StorageKey(slot) in w by {
      assert forall slot :: slot in first <==> StorageKey(slot) in v;
      assert forall slot :: slot in second <==> StorageKey(slot) in w;
    }
  }

  /** Two commits to an account are one commit of the overlaid entries exactly then. */
  lemma CommitTwiceIff(acc: Account, v: AccountCache, w: AccountCache, hash: Hasher)
    ensures Committed(Committed(acc, v, hash), w, hash) == Committed(acc, v + w, hash) <==> Layers(v, w)
  {
    var twice, once := Committed(Committed(acc, v, hash), w, hash), Committed(acc, v + w, hash);
    StorageLayers(acc.storage, v, w, hash);
    StorageLayers(map[], v, w, hash);
    StorageAnewIff(v, w, hash);
    assert twice.balance == once.balance <==> Layers(v, w - {CreatAccountKey});
  }

  /** What a read of an unwritten key sees is as before: of a balance, unless a debit is pending; of a nonce or a slot, unless the
      account is begun anew. */
  ghost predicate Undisturbed(acc: Account, v: AccountCache, k: Key) {
    match k
    case BalanceKey => SubBalanceKey !in v || Amount(v[SubBalanceKey]) == 0
    case NonceKey => CreatAccountKey !in v || acc.nonce == 1
    case StorageKey(_) => CreatAccountKey !in v || Observed(acc, k) == 0
    case _ => true
  }

  lemma UnwrittenIsObservedAsBeforeIff(acc: Account, v: AccountCache, k: Key, hash: Hasher)
    requires k !in v
    ensures Observed(Committed(acc, v, hash), k) == Observed(acc, k) <==> Undisturbed(acc, v, k)
  {}

  // ---------------------------------------------------------------- the commit of a level

  /** The state t is s with the writes committed in order. */
  ghost predicate Commits(t: State, s: State, writes: Cache, hash: Hasher) {
    forall a :: t(a) == Committed(s(a), AccountOf(writes, a), hash)
  }

  lemma NothingCommitted(acc: Account, hash: Hasher)
    ensures Committed(acc, map[], hash) == acc
  {
    var none: AccountCache := map[];
    assert Begun(acc, none) == acc && none.Keys == {};
    NothingApplied(acc, none, hash);
  }

  /** Nothing that the transaction read is disturbed by what has been written. */
  ghost predicate ReadsUndisturbed(s: State, written: Cache, readSet: Cache) {
    forall a, k | a in readSet && k in readSet[a] && a in written && k !in written[a] :: Undisturbed(s(a), written[a], k)
  }

  /** Its effect may be laid over what has been written, and if it failed there is nothing to lose. */
  ghost predicate MergeFits(written: Cache, record: RWRecord) {
    forall a | a in record.writeSet ::
      && Layers(AccountOf(written, a), AccountOf(Effect(record), a))
      && (record.failed ==> NothingToLose(AccountOf(written, a), record.writeSet[a]))
  }

  /** The transaction ends in an error on the snapshot, or is rejected, or else fits what has been written. */
  ghost predicate Fits(tx: StateTransaction, snapshot: State, written: Cache) {
    var record := tx(snapshot);
    IsError(record) || Clashes(record.readSet, written) ||
    (DecidedOn(tx, snapshot) && ReadsUndisturbed(snapshot, written, record.readSet) && MergeFits(written, record))
  }

  lemma NotNoticed(s: State, t: State, written: Cache, readSet: Cache, hash: Hasher)
    requires !Clashes(readSet, written) && ReadsUndisturbed(s, written, readSet) && Commits(t, s, written, hash)
    ensures SameReads(s, t, readSet)
  {
    forall a, k | a in readSet && k in readSet[a]
      ensures Observed(s(a), k) == Observed(t(a), k)
    {
      if a in written {
        UnwrittenIsObservedAsBeforeIff(s(a), written[a], k, hash);
      } else {
        NothingCommitted(s(a), hash);
      }
    }
  }

  lemma EffectAt(written: Cache, record: RWRecord, a: Address)
    requires MergeFits(written, record)
    ensures AccountOf(MergedCache(written, record), a) == AccountOf(written, a) + AccountOf(Effect(record), a)
    ensures Layers(AccountOf(written, a), AccountOf(Effect(record), a))
  {
    var v := AccountOf(written, a);
    assert v + map[] == v;
    if a in record.writeSet && record.failed {
      FailedAccountIsRightIff(v, record.writeSet[a]);
    }
  }

  /** The merged writes commit to what the effect commits to, on the state to which the writes before are committed. */
  lemma MergeCommits(s: State, before: State, written: Cache, record: RWRecord, hash: Hasher)
    requires MergeFits(written, record) && Commits(before, s, written, hash)
    ensures Commits(CommittedState(before, Effect(record), hash), s, MergedCache(written, record), hash)
  {
    var after := CommittedState(before, Effect(record), hash);
    forall a
      ensures after(a) == Committed(s(a), AccountOf(MergedCache(written, record), a), hash)
    {
      var v, w := AccountOf(written, a), AccountOf(Effect(record), a);
      EffectAt(written, record, a);
      CommitTwiceIff(s(a), v, w, hash);
      NothingCommitted(before(a), hash);
      assert after(a) == Committed(before(a), w, hash);
    }
  }

  lemma MergeCommitsAtIff(s: State, before: State, written: Cache, record: RWRecord, a: Address, hash: Hasher)
    requires !record.failed && Commits(before, s, written, hash)
    ensures CommittedIn(record.writeSet, a, before(a), hash) == Committed(s(a), AccountOf(MergedCache(written, record), a), hash)
            <==> Layers(AccountOf(written, a), AccountOf(record.writeSet, a))
  {
    var v, w := AccountOf(written, a), AccountOf(record.writeSet, a);
    MergeIsOverlay(written, record);
    AccountOfOverlay(written, record.writeSet, a);
    CommitTwiceIff(s(a), v, w, hash);
    NothingCommitted(before(a), hash);
    assert CommittedIn(record.writeSet, a, before(a), hash) == Committed(before(a), w, hash);
  }

  /** For a record without error the merge is right exactly when it fits. */
  lemma MergeCommitsIff(s: State, before: State, written: Cache, record: RWRecord, hash: Hasher)
    requires !record.failed && Commits(before, s, written, hash)
    ensures Commits(CommittedState(before, record.writeSet, hash), s, MergedCache(written, record), hash) <==> MergeFits(written, record)
  {
    forall a
      ensures CommittedIn(record.writeSet, a, before(a), hash) == Committed(s(a), AccountOf(MergedCache(written, record), a), hash)
              <==> Layers(AccountOf(written, a), AccountOf(record.writeSet, a))
    {
      MergeCommitsAtIff(s, before, written, record, a, hash);
    }
    FitsIsLayers(written, record);
  }

  lemma FitsIsLayers(written: Cache, record: RWRecord)
    requires !record.failed
    ensures MergeFits(written, record) <==> forall a :: Layers(AccountOf(written, a), AccountOf(record.writeSet, a))
  {}

  /** The transactions that take effect in the parallel phase: accepted, and not in error. */
  function Taken(records: seq<RWRecord>, accepted: seq<bool>): (taken: seq<bool>)
    requires |records| == |accepted|
    ensures |taken| == |records|
  {
    seq(|records|, i requires 0 <= i < |records| => accepted[i] && !IsError(records[i]))
  }

  ghost predicate AllFit(txs: seq<StateTransaction>, snapshot: State) {
    forall i | 0 <= i < |txs| :: Fits(txs[i], snapshot, Detect(Parallel(txs, snapshot)[..i]).1)
  }

  /** The commit of the merged writes leaves the state that the accepted transactions, those in error aside, would have left, run
      one by one in the order of detection from the snapshot on which all of them were run at once. */
  lemma {:induction false} CommitIsSerial(txs: seq<StateTransaction>, snapshot: State, hash: Hasher)
    requires AllFit(txs, snapshot)
    ensures var records := Parallel(txs, snapshot);
            var (accepted, written) := Detect(records);
            Commits(Serially(Chosen(txs, Taken(records, accepted)), snapshot, hash), snapshot, written, hash)
  {
    if txs == [] {
      forall a {
        NothingCommitted(snapshot(a), hash);
      }
    } else {
      var n := |txs| - 1;
      var records := Parallel(txs, snapshot);
      assert records[..n] == Parallel(txs[..n], snapshot) && records[..n + 1] == records;
      assert forall i | 0 <= i < n :: records[..n][..i] == records[..i];
      CommitIsSerial(txs[..n], snapshot, hash);
      DetectNext(records, n);
      var (accepted, written) := Detect(records[..n]);
      TakenNext(records, accepted, n, Detect(records).0[n]);
      ChosenNext(txs, Taken(records[..n], accepted), Taken(records, Detect(records).0)[n]);
      OneMoreCommits(Chosen(txs[..n], Taken(records[..n], accepted)), txs[n], snapshot, written, hash);
    }
  }

  lemma TakenNext(records: seq<RWRecord>, accepted: seq<bool>, n: nat, accept: bool)
    requires |accepted| == n && |records| == n + 1
    ensures Taken(records, accepted + [accept]) == Taken(records[..n], accepted) + [accept && !IsError(records[n])]
  {}

  lemma OneMoreCommits(chosen: seq<StateTransaction>, tx: StateTransaction, snapshot: State, written: Cache, hash: Hasher)
    requires Commits(Serially(chosen, snapshot, hash), snapshot, written, hash) && Fits(tx, snapshot, written)
    ensures var record := tx(snapshot);
            var accept := !Clashes(record.readSet, written);
            Commits(Serially(chosen + (if accept && !IsError(record) then [tx] else []), snapshot, hash), snapshot,
                    if accept then MergedCache(written, record) else written, hash)
  {
    var record, before := tx(snapshot), Serially(chosen, snapshot, hash);
    assert chosen + [] == chosen;
    if IsError(record) {
      assert MergedCache(written, record) == written;
    } else if !Clashes(record.readSet, written) {
      NotNoticed(snapshot, before, written, record.readSet, hash);
      assert tx(before) == record;
      MergeCommits(snapshot, before, written, record, hash);
      SeriallyOneMore(chosen, tx, snapshot, hash);
    }
  }

  /** DetectConflicts commits the merged writes in parallel. That leaves an account as the serial execution does exactly when the
      two commits agree on it. */
  lemma ParallelCommitIsSerialIff(txs: seq<StateTransaction>, snapshot: State, a: Address, hash: Hasher, follows: bool)
    requires AllFit(txs, snapshot)
    ensures var records := Parallel(txs, snapshot);
            var (accepted, written) := Detect(records);
            CommittedObjectIn(written, a, snapshot(a), hash, follows) == Serially(Chosen(txs, Taken(records, accepted)), snapshot, hash)(a)
            <==> a in written ==> ObjectAgrees(snapshot(a), written[a], follows)
  {
    CommitIsSerial(txs, snapshot, hash);
    var written := Detect(Parallel(txs, snapshot)).1;
    NothingCommitted(snapshot(a), hash);
    if a in written {
      CommitsAgreeIff(snapshot(a), written[a], hash, follows);
    }
  }

  // ---------------------------------------------------------------- reads that are not reported

  /** A transaction that, like BALANCE, reads an account's balance without reporting it, and stores what it found. */
  function StoresBalance(x: Address, y: Address, slot: Hash): StateTransaction {
    var tx := (s: State) => RWRecord(map[], map[y := map[StorageKey(slot) := Bytes(if s(x).balance == 0 then [] else [1])]], false);
    assert forall s, t | Agree(s, t) :: s(x) == t(x) && tx(s) == tx(t);
    tx
  }

  function SetsBalance(x: Address, amount: int): StateTransaction {
    (s: State) => RWRecord(map[], map[x := map[BalanceKey := BigInt(amount)]], false)
  }

  /** It is accepted after one that changes the balance, though in series it would have stored something else: that reads are
      reported is needed. */
  lemma UnreportedReadsDoNotSerialise(x: Address, y: Address, slot: Hash, amount: int, snapshot: State, hash: Hasher)
    requires x != y && amount != 0 && snapshot(x).balance == 0 && hash([]) != hash([1])
    ensures var txs := [SetsBalance(x, amount), StoresBalance(x, y, slot)];
            var (accepted, written) := Detect(Parallel(txs, snapshot));
            && accepted == [true, true]
            && !Commits(Serially(Chosen(txs, accepted), snapshot, hash), snapshot, written, hash)
  {
    var first, second := SetsBalance(x, amount), StoresBalance(x, y, slot);
    var r, q := first(snapshot), second(snapshot);
    assert Parallel([first, second], snapshot) == [r, q];
    DetectTwo(r, q);
    ChosenTwo(first, second);
    SeriallyTwo(first, second, snapshot, hash);
    StoredBalancesDiffer(x, y, slot, amount, snapshot, hash);
  }

  lemma StoredBalancesDiffer(x: Address, y: Address, slot: Hash, amount: int, snapshot: State, hash: Hasher)
    requires x != y && amount != 0 && snapshot(x).balance == 0 && hash([]) != hash([1])
    ensures var first, second := SetsBalance(x, amount), StoresBalance(x, y, slot);
            var middle := CommittedState(snapshot, first(snapshot).writeSet, hash);
            !Commits(CommittedState(middle, second(middle).writeSet, hash), snapshot,
                     MergedCache(MergedCache(map[], first(snapshot)), second(snapshot)), hash)
  {
    var first, second := SetsBalance(x, amount), StoresBalance(x, y, slot);
    var middle := CommittedState(snapshot, first(snapshot).writeSet, hash);
    MiddleBalance(x, amount, snapshot, hash);
    StoredAt(middle(y), slot, [1], hash);
    MergedStores(x, y, slot, amount, snapshot, hash);
  }

  lemma MiddleBalance(x: Address, amount: int, snapshot: State, hash: Hasher)
    ensures CommittedState(snapshot, SetsBalance(x, amount)(snapshot).writeSet, hash)(x).balance == amount
  {
    var entries: AccountCache := map[BalanceKey := BigInt(amount)];
    assert SetsBalance(x, amount)(snapshot).writeSet == map[x := entries];
    assert Committed(snapshot(x), entries, hash).balance == amount;
  }

  lemma MergedStores(x: Address, y: Address, slot: Hash, amount: int, snapshot: State, hash: Hasher)
    requires x != y && snapshot(x).balance == 0
    ensures var written := MergedCache(MergedCache(map[], SetsBalance(x, amount)(snapshot)), StoresBalance(x, y, slot)(snapshot));
            var after := Committed(snapshot(y), AccountOf(written, y), hash);
            slot in after.storage && after.storage[slot] == hash([])
  {
    var none: AccountCache, entry: AccountCache := map[], map[StorageKey(slot) := Bytes([])];
    assert none + entry == entry;
    StoredAt(snapshot(y), slot, [], hash);
  }

  lemma DetectTwo(r: RWRecord, q: RWRecord)
    requires r.readSet == map[] == q.readSet
    ensures Detect([r, q]) == ([true, true], MergedCache(MergedCache(map[], r), q))
  {
    var none: seq<RWRecord>, no: seq<bool> := [], [];
    DetectNext([r, q], 0);
    DetectNext([r, q], 1);
    assert [r, q][..0] == none && Detect(none) == (no, map[]);
    assert [r, q][..2] == [r, q] && no + [true] == [true] && [true] + [true] == [true, true];
  }

  lemma ChosenTwo<T>(x: T, y: T)
    ensures Chosen([x, y], [true, true]) == [x, y]
  {
    var none: seq<T>, no: seq<bool> := [], [];
    ChosenNext([x], no, true);
    ChosenNext([x, y], [true], true);
    assert [x][..0] == none && [x, y][..1] == [x] && no + [true] == [true] && [true] + [true] == [true, true];
    assert Chosen(none, no) == none && none + [x] == [x] && [x] + [y] == [x, y];
  }

  lemma SeriallyTwo(first: StateTransaction, second: StateTransaction, s: State, hash: Hasher)
    ensures var middle := CommittedState(s, Effect(first(s)), hash);
            Serially([first, second], s, hash) == CommittedState(middle, Effect(second(middle)), hash)
  {
    var none: seq<StateTransaction> := [];
    SeriallyOneMore(none, first, s, hash);
    SeriallyOneMore([first], second, s, hash);
    assert none + [first] == [first] && [first] + [second] == [first, second];
  }

  lemma StoredAt(acc: Account, slot: Hash, b: GoBytes, hash: Hasher)
    ensures var after := Committed(acc, map[StorageKey(slot) := Bytes(b)], hash);
            slot in after.storage && after.storage[slot] == hash(b)
  {
    var entries: AccountCache := map[StorageKey(slot) := Bytes(b)];
    assert slot in StorageWrites(entries, entries.Keys, hash);
  }

  // ---------------------------------------------------------------- value across a level

  /** What the earlier write set loses at an account when the later one is laid over it: its own change of the balance, where both
      write the balance, and its debit, where both have one. */
  function Lost(v: Cache, w: Cache, balanceOf: Address -> int, a: Address): int {
    var balance, debit := Entry(v, a, BalanceKey), Entry(v, a, SubBalanceKey);
    (if balance.Some? && Entry(w, a, BalanceKey).Some? then Amount(balance.value) - balanceOf(a) else 0)
    - (if debit.Some? && Entry(w, a, SubBalanceKey).Some? then Amount(debit.value) else 0)
  }

  lemma GainOfOverlay(v: Cache, w: Cache, balanceOf: Address -> int, a: Address)
    ensures Effective(Overlay(v, w), balanceOf, a) - balanceOf(a) + Lost(v, w, balanceOf, a)
            == (Effective(v, balanceOf, a) - balanceOf(a)) + (Effective(w, balanceOf, a) - balanceOf(a))
  {
    AccountOfOverlay(v, w, a);
    forall k
      ensures Entry(Overlay(v, w), a, k) == if Entry(w, a, k).Some? then Entry(w, a, k) else Entry(v, a, k)
    {
      assert k in AccountOf(v, a) + AccountOf(w, a) <==> k in AccountOf(v, a) || k in AccountOf(w, a);
    }
  }

  /** The value that a merge adds to the total is what both write sets add less what is lost. */
  lemma MergeGain(v: Cache, w: Cache, balanceOf: Address -> int)
    ensures TotalGain(Overlay(v, w), balanceOf) == TotalGain(v, balanceOf) + TotalGain(w, balanceOf)
            - Sum(v.Keys + w.Keys, (a: Address) => Lost(v, w, balanceOf, a))
  {
    var all, both := v.Keys + w.Keys, Overlay(v, w);
    var f, g, h := Gain(v, balanceOf), Gain(w, balanceOf), Gain(both, balanceOf);
    var lost := (a: Address) => Lost(v, w, balanceOf, a);
    SumSupport(v.Keys, all, f);
    SumSupport(w.Keys, all, g);
    assert both.Keys == all;
    forall a | a in all
      ensures f(a) + g(a) == h(a) + lost(a)
    {
      GainOfOverlay(v, w, balanceOf, a);
    }
    var sum := (a: Address) => f(a) + g(a);
    SumOfSums(all, f, g, sum);
    SumOfSums(all, h, lost, sum);
  }

  /** The entries that move value. */
  function BalancePart(w: Cache): Cache {
    map a | a in w :: map k | k in w[a] && (k == BalanceKey || k == SubBalanceKey) :: w[a][k]
  }

  lemma NothingLost(v: Cache, w: Cache, balanceOf: Address -> int)
    requires !Clashes(BalancePart(w), v)
    ensures TotalGain(Overlay(v, w), balanceOf) == TotalGain(v, balanceOf) + TotalGain(w, balanceOf)
  {
    var lost := (a: Address) => Lost(v, w, balanceOf, a);
    forall a | a in v.Keys + w.Keys
      ensures lost(a) == 0
    {
      forall k | k == BalanceKey || k == SubBalanceKey
        ensures !(Entry(v, a, k).Some? && Entry(w, a, k).Some?)
      {
        assert Entry(w, a, k).Some? ==> k in BalancePart(w)[a];
      }
    }
    SumZero(v.Keys + w.Keys, lost);
    MergeGain(v, w, balanceOf);
  }

  /** A level conserves value when its accepted transactions do and no two of them write the same account under the same balance
      key. */
  lemma {:induction false} LevelConserves(records: seq<RWRecord>, balanceOf: Address -> int)
    requires forall r | r in records :: !r.failed && TotalGain(r.writeSet, balanceOf) == 0
    requires forall i | 0 <= i < |records| ::
               !ClashesWithAccepted(BalancePart(records[i].writeSet), records[..i], Detect(records).0[..i])
    ensures TotalGain(Detect(records).1, balanceOf) == 0
  {
    if records != [] {
      var n := |records| - 1;
      var init, last := records[..n], records[n];
      var (accepted, written) := Detect(init);
      assert Detect(records).0[..n] == accepted;
      forall i | 0 <= i < n
        ensures !ClashesWithAccepted(BalancePart(init[i].writeSet), init[..i], accepted[..i])
      {
        assert init[..i] == records[..i] && accepted[..i] == Detect(records).0[..i];
        assert !ClashesWithAccepted(BalancePart(records[i].writeSet), records[..i], Detect(records).0[..i]);
      }
      LevelConserves(init, balanceOf);
      if !Clashes(last.readSet, written) {
        WrittenIsAccepted(BalancePart(last.writeSet), init);
        MergeIsOverlay(written, last);
        NothingLost(written, last.writeSet, balanceOf);
      }
    }
  }

  /** What the accepted transactions of a level add to the total of all balances, each by itself. */
  ghost function AcceptedGain(records: seq<RWRecord>, balanceOf: Address -> int): int {
    if records == [] then 0
    else
      var init, last := records[..|records| - 1], records[|records| - 1];
      AcceptedGain(init, balanceOf) + if Clashes(last.readSet, Detect(init).1) then 0 else TotalGain(last.writeSet, balanceOf)
  }

  ghost function LossOf(v: Cache, w: Cache, balanceOf: Address -> int): int {
    Sum(v.Keys + w.Keys, (a: Address) => Lost(v, w, balanceOf, a))
  }

  /** What is lost as they are merged one after the other. */
  ghost function LevelLoss(records: seq<RWRecord>, balanceOf: Address -> int): int {
    if records == [] then 0
    else
      var init, last := records[..|records| - 1], records[|records| - 1];
      LevelLoss(init, balanceOf) + if Clashes(last.readSet, Detect(init).1) then 0 else LossOf(Detect(init).1, last.writeSet, balanceOf)
  }

  /** The exact gain of a level. */
  lemma {:induction false} LevelGain(records: seq<RWRecord>, balanceOf: Address -> int)
    requires forall i | 0 <= i < |records| :: !records[i].failed
    ensures TotalGain(Detect(records).1, balanceOf) == AcceptedGain(records, balanceOf) - LevelLoss(records, balanceOf)
  {
    if records != [] {
      var init, last := records[..|records| - 1], records[|records| - 1];
      LevelGain(init, balanceOf);
      if !Clashes(last.readSet, Detect(init).1) {
        MergeIsOverlay(Detect(init).1, last);
        MergeGain(Detect(init).1, last.writeSet, balanceOf);
      }
    }
  }

  /** So a level of transactions that each conserve value conserves it exactly when what is lost comes to nothing. */
  lemma {:induction false} LevelConservesIff(records: seq<RWRecord>, balanceOf: Address -> int)
    requires forall i | 0 <= i < |records| :: !records[i].failed && TotalGain(records[i].writeSet, balanceOf) == 0
    ensures TotalGain(Detect(records).1, balanceOf) == 0 <==> LevelLoss(records, balanceOf) == 0
  {
    LevelGain(records, balanceOf);
    NoGain(records, balanceOf);
  }

  lemma {:induction false} NoGain(records: seq<RWRecord>, balanceOf: Address -> int)
    requires forall i | 0 <= i < |records| :: TotalGain(records[i].writeSet, balanceOf) == 0
    ensures AcceptedGain(records, balanceOf) == 0
  {
    if records != [] {
      NoGain(records[..|records| - 1], balanceOf);
    }
  }

  /** A transfer as Call records it, at a recipient whose balance was read from the snapshot. */
  function TransferEntries(from: Address, to: Address, amount: nat, balanceOf: Address -> int): Cache {
    Credited(Debited(map[], from, amount), to, amount, balanceOf(to))
  }

  /** Two records that each conserve value, and are both accepted, need not conserve it together: when two transactions make one
      account pay two others, the first payment is never taken from its balance. */
  lemma MergeMayCreateValue(payer: Address, x: Address, y: Address, amount: nat, balanceOf: Address -> int, readSet: Cache)
    requires payer !in {x, y} && x != y
    requires Keys(readSet) == {(payer, BalanceKey), (y, BalanceKey)}
    ensures var v, w := TransferEntries(payer, x, amount, balanceOf), TransferEntries(payer, y, amount, balanceOf);
            && TotalGain(v, balanceOf) == 0 == TotalGain(w, balanceOf)
            && !Clashes(readSet, v)
            && TotalGain(Overlay(v, w), balanceOf) == amount
  {
    var nothing: Cache := map[];
    var v, w := TransferEntries(payer, x, amount, balanceOf), TransferEntries(payer, y, amount, balanceOf);
    TransferConserves(nothing, balanceOf, payer, x, amount, balanceOf(x));
    TransferConserves(nothing, balanceOf, payer, y, amount, balanceOf(y));
    PaymentsDoNotClash(payer, x, y, amount, balanceOf, readSet);
    MergeGain(v, w, balanceOf);
    PaymentsLose(payer, x, y, amount, balanceOf);
  }

  lemma PaymentsDoNotClash(payer: Address, x: Address, y: Address, amount: nat, balanceOf: Address -> int, readSet: Cache)
    requires payer !in {x, y} && x != y
    requires Keys(readSet) == {(payer, BalanceKey), (y, BalanceKey)}
    ensures !Clashes(readSet, TransferEntries(payer, x, amount, balanceOf))
  {
    TransferEntriesAre(payer, x, amount, balanceOf);
    var v := TransferEntries(payer, x, amount, balanceOf);
    forall a, k | a in readSet && k in readSet[a]
      ensures !(a in v && k in v[a])
    {
      assert (a, k) in Keys(readSet);
    }
  }

  lemma PaymentsLose(payer: Address, x: Address, y: Address, amount: nat, balanceOf: Address -> int)
    requires payer !in {x, y} && x != y
    ensures var v, w := TransferEntries(payer, x, amount, balanceOf), TransferEntries(payer, y, amount, balanceOf);
            Sum(v.Keys + w.Keys, (a: Address) => Lost(v, w, balanceOf, a)) + amount == 0
  {
    var v, w := TransferEntries(payer, x, amount, balanceOf), TransferEntries(payer, y, amount, balanceOf);
    var lost := (a: Address) => Lost(v, w, balanceOf, a);
    forall a | a in v.Keys + w.Keys
      ensures lost(a) + (if a == payer then amount else 0) == 0
    {
      LostOfPayments(payer, x, y, amount, balanceOf, a);
    }
    SumRemove(v.Keys + w.Keys, lost, payer);
    SumZero(v.Keys + w.Keys - {payer}, lost);
  }

  lemma LostOfPayments(payer: Address, x: Address, y: Address, amount: nat, balanceOf: Address -> int, a: Address)
    requires payer !in {x, y} && x != y
    ensures Lost(TransferEntries(payer, x, amount, balanceOf), TransferEntries(payer, y, amount, balanceOf), balanceOf, a)
            + (if a == payer then amount else 0) == 0
  {
    TransferEntriesAre(payer, x, amount, balanceOf);
    TransferEntriesAre(payer, y, amount, balanceOf);
  }

  lemma TransferEntriesAre(from: Address, to: Address, amount: nat, balanceOf: Address -> int)
    requires from != to
    ensures TransferEntries(from, to, amount, balanceOf)
            == map[from := map[SubBalanceKey := BigInt(amount)], to := map[BalanceKey := BigInt(balanceOf(to) + amount)]]
  {}
}
