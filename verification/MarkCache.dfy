/** Partition of a block's transactions into levels (transcut/transactionMark.go). */
module Marks {
  import opened Words

  /** A transaction as the partition sees it; without a recipient it creates a contract. */
  datatype Item = Item(hash: Hash, from: Address, to: Option<Address>)

  /** All items, level by level. */
  ghost function Flatten<T>(levels: seq<seq<T>>): seq<T> {
    if levels == [] then [] else Flatten(levels[..|levels| - 1]) + levels[|levels| - 1]
  }

  lemma {:induction false} FlattenAppend<T>(left: seq<seq<T>>, right: seq<seq<T>>)
    ensures Flatten(left + right) == Flatten(left) + Flatten(right)
  {
    if right == [] {
      assert left + right == left;
    } else {
      var n := |right| - 1;
      var both := left + right;
      FlattenAppend(left, right[..n]);
      assert both[..|both| - 1] == left + right[..n] && both[|both| - 1] == right[n];
      assert Flatten(both) == Flatten(left) + Flatten(right[..n]) + right[n];
    }
  }

  /** Empty levels hold nothing. */
  lemma {:induction false} FlattenEmpty<T>(levels: seq<seq<T>>)
    requires forall i | 0 <= i < |levels| :: levels[i] == []
    ensures Flatten(levels) == []
  {
    if levels != [] {
      FlattenEmpty(levels[..|levels| - 1]);
    }
  }

  /** One more item in the last level that holds any comes last of all. */
  lemma FlattenLast<T>(levels: seq<seq<T>>, m: nat, item: T)
    requires m < |levels|
    requires forall i | m < i < |levels| :: levels[i] == []
    ensures Flatten(levels[m := levels[m] + [item]]) == Flatten(levels) + [item]
  {
    var after := levels[m := levels[m] + [item]];
    var rest := levels[m + 1..];
    assert levels == levels[..m] + ([levels[m]] + rest);
    assert after == levels[..m] + ([after[m]] + rest);
    FlattenAppend(levels[..m], [levels[m]] + rest);
    FlattenAppend(levels[..m], [after[m]] + rest);
    FlattenAppend([levels[m]], rest);
    FlattenAppend([after[m]], rest);
    FlattenEmpty(rest);
    FlattenOne(levels[m]);
    FlattenOne(after[m]);
  }

  lemma FlattenOne<T>(level: seq<T>)
    ensures Flatten([level]) == level
  {
    var none: seq<seq<T>> := [];
    assert [level][..0] == none && Flatten(none) == [];
  }

  // ---------------------------------------------------------------- filing one item

  ghost predicate EmptyFrom(items: seq<seq<Item>>, n: nat) {
    forall i | n <= i < |items| :: items[i] == []
  }

  ghost predicate FilledUpTo(items: seq<seq<Item>>, n: nat) {
    n <= |items| && forall i | 0 <= i < n :: items[i] != []
  }

  /** The levels in use, and the marks left by the items so far. */
  datatype Levels = Levels(marks: map<Address, nat>, items: seq<seq<Item>>, maxLevel: nat) {

    ghost predicate Valid() {
      && (forall a | a in marks :: marks[a] <= maxLevel)
      && maxLevel < |items|
      && EmptyFrom(items, maxLevel + 1)
      && (if Submitted() == [] then maxLevel == 0 && marks == map[] else FilledUpTo(items, maxLevel + 1))
    }

    ghost function Submitted(): seq<Item> {
      Flatten(items)
    }

    /** One past the mark of a known address, zero for a new one. */
    function NextMark(a: Address): nat {
      if a in marks then marks[a] + 1 else 0
    }

    /** The mark an item asks for: the later of those its sender and its recipient ask for. */
    function Asked(data: Item): nat {
      if data.to.Some? && NextMark(data.to.value) > NextMark(data.from) then NextMark(data.to.value) else NextMark(data.from)
    }

    /** The levels once an item with a recipient is filed. It goes to the highest level, whatever it asked for, and its
        recipient is marked zero: the recipient's mark is computed in a variable that shadows the one stored. */
    ghost function Filed(data: Item): Levels
      requires data.to.Some? && maxLevel < |items|
    {
      var top := Max(maxLevel, Asked(data));
      var padded := Padded(items, top + 1);
      Levels(marks[data.from := Asked(data)][data.to.value := 0], padded[top := padded[top] + [data]], top)
    }
  }

  /** At least n levels. */
  ghost function Padded(items: seq<seq<Item>>, n: nat): (r: seq<seq<Item>>)
    ensures |r| == Max(|items|, n) && r[..|items|] == items
    ensures forall i | |items| <= i < |r| :: r[i] == []
  {
    items + seq(Max(0, n - |items|), _ => [])
  }

  ghost function Initial(): Levels {
    Levels(map[], [[], []], 0)
  }

  lemma InitialIsValid()
    ensures Initial().Valid() && Initial().Submitted() == []
  {
    FlattenEmpty<Item>([[], []]);
  }

  lemma ItemsOnceFiled(items: seq<seq<Item>>, top: nat, data: Item)
    requires EmptyFrom(items, top + 1)
    ensures var padded := Padded(items, top + 1);
            var after := padded[top := padded[top] + [data]];
            && EmptyFrom(after, top + 1)
            && Flatten(after) == Flatten(items) + [data]
            && (FilledUpTo(items, top) ==> FilledUpTo(after, top + 1))
  {
    var padded := Padded(items, top + 1);
    assert padded == items + padded[|items|..];
    FlattenAppend(items, padded[|items|..]);
    FlattenEmpty(padded[|items|..]);
    FlattenLast(padded, top, data);
  }

  /** Filing an item keeps the partition: the item comes last of all, at most one level is opened, and none is left empty. */
  lemma FiledKeepsLevels(p: Levels, data: Item)
    requires p.Valid() && data.to.Some?
    ensures var after := p.Filed(data);
            after.Valid() && after.Submitted() == p.Submitted() + [data] && p.maxLevel <= after.maxLevel <= p.maxLevel + 1
  {
    ItemsOnceFiled(p.items, Max(p.maxLevel, p.Asked(data)), data);
  }

  // ---------------------------------------------------------------- a whole block

  ghost predicate HaveRecipients(txs: seq<Item>) {
    forall i | 0 <= i < |txs| :: txs[i].to.Some?
  }

  /** The levels in use hold all the items. */
  lemma LevelsInUse(p: Levels)
    requires p.Valid()
    ensures Flatten(p.items[..p.maxLevel + 1]) == p.Submitted()
  {
    var n := p.maxLevel + 1;
    assert p.items == p.items[..n] + p.items[n..];
    FlattenAppend(p.items[..n], p.items[n..]);
    FlattenEmpty(p.items[n..]);
  }

  /** Marks do not separate the transactions that share an address: here the last two pay the same account, in one level. */
  lemma LevelsShareRecipients(h: Hash, a: Address, b: Address, c: Address, d: Address)
    requires a !in {b, c, d} && b !in {c, d} && c != d
    ensures var first, second, third := Item(h, a, Some(b)), Item(h, c, Some(b)), Item(h, d, Some(b));
            Initial().Filed(first).Filed(second).Filed(third).items == [[first], [second, third]]
  {
    var first, second, third := Item(h, a, Some(b)), Item(h, c, Some(b)), Item(h, d, Some(b));
    SmallSequences(first, second, third);
    SmallSequences(second, third, first);
    SmallSequences([], [], [first]);
    SmallSequences([first], [], [second]);
    SmallSequences([first], [second], [second, third]);
    OpensNoLevel(Initial(), first, 0);
    var one := Initial().Filed(first);
    assert one.items == [[first], []] && one.marks == map[a := 0, b := 0];
    OpensNoLevel(one, second, 1);
    var two := one.Filed(second);
    assert two.items == [[first], [second]] && two.marks == map[a := 0, b := 0, c := 1];
    OpensNoLevel(two, third, 1);
  }

  lemma SmallSequences<T>(x: T, y: T, z: T)
    ensures [] + [x] == [x] && [] + [y] == [y] && [x] + [y] == [x, y]
    ensures [x, y][0 := z] == [z, y] && [x, y][1 := z] == [x, z]
  {}

  lemma OpensNoLevel(p: Levels, data: Item, top: nat)
    requires data.to.Some? && top == Max(p.maxLevel, p.Asked(data)) < |p.items|
    ensures p.Filed(data) == Levels(p.marks[data.from := p.Asked(data)][data.to.value := 0], p.items[top := p.items[top] + [data]], top)
  {
    var padded := Padded(p.items, top + 1);
    assert padded[..|p.items|] == padded;
  }

  // ---------------------------------------------------------------- levels apart

  /** Some address is sender or recipient of both. */
  ghost predicate Shares(x: Item, y: Item) {
    x.from == y.from || x.to == Some(y.from) || y.to == Some(x.from) || (x.to.Some? && x.to == y.to)
  }

  ghost predicate AwayFrom(level: seq<Item>, data: Item) {
    forall i | 0 <= i < |level| :: !Shares(level[i], data)
  }

  /** No two transactions of the level share an address. */
  ghost predicate Apart(level: seq<Item>) {
    forall j | 0 <= j < |level| :: AwayFrom(level[..j], level[j])
  }

  ghost predicate AllApart(items: seq<seq<Item>>) {
    forall k | 0 <= k < |items| :: Apart(items[k])
  }

  /** The item asks for a level of its own, or shares no address with those in the highest level. */
  ghost predicate KeepsApart(p: Levels, data: Item)
    requires p.maxLevel < |p.items|
  {
    p.Asked(data) > p.maxLevel || AwayFrom(p.items[p.maxLevel], data)
  }

  lemma ApartOnceAppended(level: seq<Item>, data: Item)
    ensures Apart(level + [data]) <==> Apart(level) && AwayFrom(level, data)
  {
    var after := level + [data];
    assert after[..|level|] == level && after[|level|] == data;
    assert forall j | 0 <= j < |level| :: after[..j] == level[..j] && after[j] == level[j];
    if Apart(after) {
      forall j | 0 <= j < |level|
        ensures AwayFrom(level[..j], level[j])
      {
        assert AwayFrom(after[..j], after[j]);
      }
      assert AwayFrom(after[..|level|], after[|level|]);
    }
  }

  /** The levels before and after: one has grown, by the item; the others, but for new empty ones, are as they were. */
  lemma LevelsOnceFiled(p: Levels, data: Item)
    requires p.Valid() && data.to.Some?
    ensures var after, top := p.Filed(data).items, Max(p.maxLevel, p.Asked(data));
            && |p.items| <= |after| && p.Filed(data).maxLevel == top < |after|
            && after[top] == (if p.Asked(data) > p.maxLevel then [] else p.items[p.maxLevel]) + [data]
            && (top < |p.items| && p.Asked(data) > p.maxLevel ==> p.items[top] == [])
            && (forall k | 0 <= k < |p.items| && k != top :: after[k] == p.items[k])
            && forall k | |p.items| <= k < |after| && k != top :: after[k] == []
  {
    var top := Max(p.maxLevel, p.Asked(data));
    var padded := Padded(p.items, top + 1);
    assert forall k | 0 <= k < |p.items| :: padded[k] == padded[..|p.items|][k];
  }

  /** Filing an item keeps it apart from the rest of its level exactly then. */
  lemma FiledApartIff(p: Levels, data: Item)
    requires p.Valid() && data.to.Some?
    ensures var after := p.Filed(data);
            var level := after.items[after.maxLevel];
            && level != [] && level[|level| - 1] == data
            && (AwayFrom(level[..|level| - 1], data) <==> KeepsApart(p, data))
            && (AllApart(after.items) <==> AllApart(p.items) && KeepsApart(p, data))
  {
    LevelsOnceFiled(p, data);
    var after, top := p.Filed(data).items, Max(p.maxLevel, p.Asked(data));
    var rest := if p.Asked(data) > p.maxLevel then [] else p.items[p.maxLevel];
    assert after[top][..|after[top]| - 1] == rest;
    ApartOnceAppended(rest, data);
    SameLevelsApart(p.items, after, top, rest);
  }

  lemma SameLevelsApart(before: seq<seq<Item>>, after: seq<seq<Item>>, top: nat, rest: seq<Item>)
    requires |before| <= |after| && top < |after| && (top < |before| ==> before[top] == rest) && (top >= |before| ==> rest == [])
    requires forall k | 0 <= k < |before| && k != top :: after[k] == before[k]
    requires forall k | |before| <= k < |after| && k != top :: after[k] == []
    requires Apart(after[top]) ==> Apart(rest)
    ensures AllApart(after) <==> AllApart(before) && Apart(after[top])
  {
    if AllApart(after) {
      assert Apart(after[top]);
      forall k | 0 <= k < |before|
        ensures Apart(before[k])
      {
        assert k != top ==> Apart(after[k]);
      }
    }
  }

  /** The levels once a whole list of items is filed. */
  ghost function FiledAll(p: Levels, txs: seq<Item>): Levels
    requires HaveRecipients(txs) && p.maxLevel < |p.items|
    decreases |txs|
  {
    if txs == [] then p else FiledAll(p.Filed(txs[0]), txs[1..])
  }

  lemma HeadFirst<T>(s: seq<T>, t: seq<T>)
    requires t != []
    ensures (s + [t[0]]) + t[1..] == s + t
  {}

  lemma {:induction false} FiledAllSubmits(p: Levels, txs: seq<Item>)
    requires p.Valid() && HaveRecipients(txs)
    ensures FiledAll(p, txs).Valid() && FiledAll(p, txs).Submitted() == p.Submitted() + txs
    decreases |txs|
  {
    if txs != [] {
      FiledKeepsLevels(p, txs[0]);
      FiledAllSubmits(p.Filed(txs[0]), txs[1..]);
      HeadFirst(p.Submitted(), txs);
    }
  }

  /** Every item, when its turn comes, keeps apart. */
  ghost predicate AllKeepApart(p: Levels, txs: seq<Item>)
    requires HaveRecipients(txs) && p.maxLevel < |p.items|
    decreases |txs|
  {
    txs == [] || (KeepsApart(p, txs[0]) && AllKeepApart(p.Filed(txs[0]), txs[1..]))
  }

  /** The levels of a block are kept apart exactly when every item keeps apart as it is filed. */
  lemma {:induction false} LevelsApartIff(p: Levels, txs: seq<Item>)
    requires p.Valid() && HaveRecipients(txs)
    ensures AllApart(FiledAll(p, txs).items) <==> AllApart(p.items) && AllKeepApart(p, txs)
    decreases |txs|
  {
    if txs != [] {
      FiledKeepsLevels(p, txs[0]);
      FiledApartIff(p, txs[0]);
      LevelsApartIff(p.Filed(txs[0]), txs[1..]);
    }
  }

  /** What filing a block comes to: its transactions in their order, level by level, none of the levels in use empty, and the
      levels kept apart exactly when every item kept apart. */
  lemma LevelsOfBlock(txs: seq<Item>)
    requires HaveRecipients(txs)
    ensures var p := FiledAll(Initial(), txs);
            && p.Valid()
            && Flatten(p.items[..p.maxLevel + 1]) == txs
            && (txs != [] ==> FilledUpTo(p.items, p.maxLevel + 1))
            && (AllApart(p.items) <==> AllKeepApart(Initial(), txs))
  {
    InitialIsValid();
    FiledAllSubmits(Initial(), txs);
    LevelsInUse(FiledAll(Initial(), txs));
    LevelsApartIff(Initial(), txs);
  }

  // ---------------------------------------------------------------- the cache

  class MarkCache {
    var fromAndToMark: map<Address, nat>
    var items: seq<seq<Item>>
    var maxLevel: nat

    constructor ()
      ensures State() == Initial()
    {
      fromAndToMark, items, maxLevel := map[], [[], []], 0;
    }

    ghost function State(): Levels
      reads this
    {
      Levels(fromAndToMark, items, maxLevel)
    }

    method Pad()
      modifies this`items
      ensures items == Padded(old(items), maxLevel + 1)
    {
      ghost var levels := items;
      while |items| <= maxLevel
        invariant |levels| <= |items| <= Max(|levels|, maxLevel + 1)
        invariant items[..|levels|] == levels && EmptyFrom(items, |levels|)
      {
        items := items + [[]];
      }
      var padded := Padded(levels, maxLevel + 1);
      assert padded == padded[..|levels|] + padded[|levels|..] && items == levels + items[|levels|..];
    }

    /** An item without a recipient faults on a nil recipient, its level already raised. */
    method SetMarkCache(addr: Address, data: Item) returns (faulted: bool)
      requires State().Valid() && addr == data.from
      modifies this
      ensures faulted <==> data.to.None?
      ensures !faulted ==> State() == old(State()).Filed(data)
      ensures faulted ==> items == old(items) && maxLevel == Max(old(maxLevel), old(State()).NextMark(addr))
      ensures faulted ==> fromAndToMark == old(fromAndToMark)[addr := old(State()).NextMark(addr)]
    {
      var fromMark, toMark := 0, 0;
      if addr in fromAndToMark {
        fromMark := fromAndToMark[addr] + 1;
      }
      if data.to.Some? {
        var shadow := 0;
        if data.to.value in fromAndToMark {
          shadow := fromAndToMark[data.to.value] + 1;
        }
        if fromMark >= shadow {
          shadow := fromMark;
        } else {
          fromMark := shadow;
        }
        if shadow >= maxLevel {
          maxLevel := shadow;
        }
      } else if fromMark >= maxLevel {
        maxLevel := fromMark;
      }

      assert fromMark == if data.to.Some? then old(State()).Asked(data) else old(State()).NextMark(addr);
      fromAndToMark := fromAndToMark[addr := fromMark];
      if data.to.None? {
        return true;
      }
      fromAndToMark := fromAndToMark[data.to.value := toMark];

      Pad();
      items := items[maxLevel := items[maxLevel] + [data]];
      return false;
    }

    /** The loop that files a block. LevelsOfBlock says what comes of it. */
    method FillLevels(txs: seq<Item>) returns (faulted: bool)
      requires State() == Initial()
      modifies this
      ensures faulted <==> !HaveRecipients(txs)
      ensures !faulted ==> State() == FiledAll(Initial(), txs)
    {
      var i := 0;
      InitialIsValid();
      while i < |txs|
        invariant 0 <= i <= |txs| && HaveRecipients(txs[..i])
        invariant State().Valid()
        invariant HaveRecipients(txs) ==> FiledAll(State(), txs[i..]) == FiledAll(Initial(), txs)
      {
        ghost var before := State();
        var fault := SetMarkCache(txs[i].from, txs[i]);
        if fault {
          return true;
        }
        FiledKeepsLevels(before, txs[i]);
        i := i + 1;
      }
      return false;
    }

    function GetMaxLevel(): nat
      reads this
    {
      maxLevel + 1
    }
  }
}
