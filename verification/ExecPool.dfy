/** The worker pool that executes one level (process/execpool.go): a dispatcher, workers and two bounded channels, stepped in
    any order. */
module ExecPools {
  import opened Words
  import opened Conflicts
  import opened Marks

  /** What the pool's function reports for an item. */
  datatype Outcome = Outcome(item: Item, record: RWRecord)

  /** A worker waits for a chunk, executes the items of one, holds a result it is about to send, or has returned. */
  datatype Worker =
    | Idle
    | Busy(rest: seq<Item>)
    | Sending(outcome: Outcome, rest: seq<Item>)
    | Exited
  {
    function Held(): seq<Item> {
      match this
      case Busy(rest) => rest
      case Sending(outcome, rest) => [outcome.item] + rest
      case _ => []
    }

    /** A bound on the steps that are left to the worker and to what it holds. */
    function Effort(): nat {
      match this
      case Idle => 1
      case Busy(rest) => 2 + 3 * |rest|
      case Sending(_, rest) => 4 + 3 * |rest|
      case Exited => 0
    }
  }

  /** What the dispatcher is doing: adding chunks, waiting with the queue closed, draining the results, or done. */
  datatype Phase = Adding | Waiting | Draining | Finished

  /** The pool's function; the dispatcher's chunks, the queue of chunks, the workers, the result channel, and what has been
      drained. */
  datatype Pool = Pool(
    run: Item -> RWRecord, items: seq<Item>, chunks: seq<seq<Item>>, queue: seq<seq<Item>>, workers: seq<Worker>, results: seq<Outcome>,
    drained: seq<Outcome>, phase: Phase)

  datatype Step =
    | Add
    | HandOver(w: nat)
    | Close
    | Take(w: nat)
    | Execute(w: nat)
    | Send(w: nat)
    | FinishChunk(w: nat)
    | Exit(w: nat)
    | AllExited
    | Drain

  // ---------------------------------------------------------------- chunks

  /** The loop that cuts the items into one part for each worker: equal parts, and the remainder goes to the last. */
  method PartItems(items: seq<Item>, count: nat) returns (parts: seq<seq<Item>>)
    requires 0 < count
    ensures |parts| == count && Flatten(parts) == items
    ensures forall i | 0 <= i < count - 1 :: |parts[i]| == |items| / count
    ensures |parts[count - 1]| == |items| / count + |items| % count
  {
    var num, elsNum := |items| / count, |items| % count;
    parts := [];
    var i := 0;
    while i < count
      invariant 0 <= i <= count && |parts| == i
      invariant Cut(|items|, count, i) <= |items| && Flatten(parts) == items[..Cut(|items|, count, i)]
      invariant forall j | 0 <= j < i && j < count - 1 :: |parts[j]| == num
      invariant i == count ==> |parts[count - 1]| == num + elsNum
    {
      NextCut(|items|, count, i);
      var part := if i == count - 1 then items[i * num..num * (i + 1) + elsNum] else items[i * num..num * (i + 1)];
      PartAppended(parts, items, i * num, part);
      parts := parts + [part];
      i := i + 1;
    }
  }

  /** Where part i begins. */
  ghost function Cut(n: nat, count: nat, i: nat): nat
    requires 0 < count
  {
    if i < count then i * (n / count) else n
  }

  lemma NextCut(n: nat, count: nat, i: nat)
    requires i < count
    ensures var num := n / count;
            && Cut(n, count, i) == i * num <= num * (i + 1) <= n
            && Cut(n, count, i + 1) == (if i == count - 1 then num * (i + 1) + n % count else num * (i + 1)) <= n
            && num * (i + 1) == i * num + num
  {
    var num, left := n / count, count - (i + 1);
    assert num * count == num * (i + 1) + num * left;
    assert num * left >= 0;
  }

  lemma PartAppended(parts: seq<seq<Item>>, items: seq<Item>, i: nat, part: seq<Item>)
    requires i <= i + |part| <= |items| && Flatten(parts) == items[..i] && part == items[i..i + |part|]
    ensures Flatten(parts + [part]) == items[..i + |part|]
  {
    FlattenAppend(parts, [part]);
    FlattenOne(part);
  }

  // ---------------------------------------------------------------- one step

  function Start(run: Item -> RWRecord, items: seq<Item>, parts: seq<seq<Item>>): Pool {
    Pool(run, items, parts, [], seq(|parts|, _ => Idle), [], [], Adding)
  }

  predicate Is(s: Pool, w: nat, worker: Worker) {
    w < |s.workers| && s.workers[w] == worker
  }

  /** Whether a step can be taken: both channels hold as many elements as there are items, a closed queue still delivers what
      it holds, and a sender and a waiting receiver of the queue may meet directly. */
  predicate Enabled(s: Pool, step: Step) {
    match step
    case Add => s.phase == Adding && s.chunks != [] && |s.queue| < |s.items|
    case HandOver(w) => s.phase == Adding && s.chunks != [] && s.queue == [] && Is(s, w, Idle)
    case Close => s.phase == Adding && s.chunks == []
    case Take(w) => Is(s, w, Idle) && s.queue != []
    case Execute(w) => w < |s.workers| && s.workers[w].Busy? && s.workers[w].rest != []
    case Send(w) => w < |s.workers| && s.workers[w].Sending? && |s.results| < |s.items|
    case FinishChunk(w) => Is(s, w, Busy([]))
    case Exit(w) => Is(s, w, Idle) && s.queue == [] && s.phase != Adding
    case AllExited => s.phase == Waiting && forall w | 0 <= w < |s.workers| :: s.workers[w] == Exited
    case Drain => s.phase == Draining && s.results != []
  }

  function Next(s: Pool, step: Step): Pool
    requires Enabled(s, step)
  {
    match step
    case Add => s.(chunks := s.chunks[1..], queue := s.queue + [s.chunks[0]])
    case HandOver(w) => s.(chunks := s.chunks[1..], workers := s.workers[w := Busy(s.chunks[0])])
    case Close => s.(phase := Waiting)
    case Take(w) => s.(queue := s.queue[1..], workers := s.workers[w := Busy(s.queue[0])])
    case Execute(w) =>
      var rest := s.workers[w].rest;
      s.(workers := s.workers[w := Sending(Outcome(rest[0], s.run(rest[0])), rest[1..])])
    case Send(w) =>
      s.(workers := s.workers[w := Busy(s.workers[w].rest)], results := s.results + [s.workers[w].outcome])
    case FinishChunk(w) => s.(workers := s.workers[w := Idle])
    case Exit(w) => s.(workers := s.workers[w := Exited])
    case AllExited => s.(phase := Draining)
    case Drain =>
      var drained := s.drained + [s.results[0]];
      s.(results := s.results[1..], drained := drained, phase := if |drained| == |s.items| then Finished else Draining)
  }

  ghost predicate Moves(s: Pool, step: Step, t: Pool) {
    Enabled(s, step) && t == Next(s, step)
  }

  // ---------------------------------------------------------------- where the items are

  /** How often an item occurs, or how many there are in all. */
  ghost function Count(items: seq<Item>, x: Option<Item>): nat {
    if items == [] then 0
    else Count(items[..|items| - 1], x) + if x == None || x == Some(items[|items| - 1]) then 1 else 0
  }

  lemma {:induction false} CountAppend(left: seq<Item>, right: seq<Item>, x: Option<Item>)
    ensures Count(left + right, x) == Count(left, x) + Count(right, x)
  {
    if right == [] {
      assert left + right == left;
    } else {
      var n := |right| - 1;
      CountAppend(left, right[..n], x);
      assert (left + right)[..|left| + n] == left + right[..n];
    }
  }

  lemma {:induction false} CountFirst(items: seq<Item>, x: Option<Item>)
    requires items != []
    ensures Count(items, x) == Count([items[0]], x) + Count(items[1..], x)
  {
    CountAppend([items[0]], items[1..], x);
    assert items == [items[0]] + items[1..];
  }

  lemma {:induction false} CountAll(items: seq<Item>)
    ensures Count(items, None) == |items|
  {
    if items != [] {
      CountAll(items[..|items| - 1]);
    }
  }

  function ItemsOf(outcomes: seq<Outcome>): (items: seq<Item>)
    ensures |items| == |outcomes|
  {
    seq(|outcomes|, i requires 0 <= i < |outcomes| => outcomes[i].item)
  }

  /** The sum of a quantity over all workers. */
  ghost function Total(workers: seq<Worker>, of: Worker -> nat): nat {
    if workers == [] then 0 else Total(workers[..|workers| - 1], of) + of(workers[|workers| - 1])
  }

  /** How often an item is held. */
  ghost function Share(x: Option<Item>): Worker -> nat {
    (worker: Worker) => Count(worker.Held(), x)
  }

  ghost function HeldBy(workers: seq<Worker>, x: Option<Item>): nat {
    Total(workers, Share(x))
  }

  ghost function EffortOf(workers: seq<Worker>): nat {
    Total(workers, Efforts())
  }

  ghost function Efforts(): Worker -> nat {
    (worker: Worker) => worker.Effort()
  }

  lemma PrefixUpdated<T>(xs: seq<T>, w: nat, x: T)
    requires w < |xs|
    ensures var n := |xs| - 1;
            && xs[w := x][..n] == (if w < n then xs[..n][w := x] else xs[..n])
            && xs[w := x][n] == if w < n then xs[n] else x
  {}

  /** Replacing one worker changes a sum by that worker's part. */
  lemma {:induction false} TotalReplaced(workers: seq<Worker>, w: nat, worker: Worker, of: Worker -> nat)
    requires w < |workers|
    ensures Total(workers[w := worker], of) + of(workers[w]) == Total(workers, of) + of(worker)
  {
    var n := |workers| - 1;
    PrefixUpdated(workers, w, worker);
    if w < n {
      TotalReplaced(workers[..n], w, worker, of);
    }
  }

  lemma HeldReplaced(workers: seq<Worker>, w: nat, worker: Worker, x: Option<Item>)
    requires w < |workers|
    ensures HeldBy(workers[w := worker], x) + Count(workers[w].Held(), x) == HeldBy(workers, x) + Count(worker.Held(), x)
  {
    TotalReplaced(workers, w, worker, Share(x));
  }

  lemma EffortReplaced(workers: seq<Worker>, w: nat, worker: Worker)
    requires w < |workers|
    ensures EffortOf(workers[w := worker]) + workers[w].Effort() == EffortOf(workers) + worker.Effort()
  {
    TotalReplaced(workers, w, worker, Efforts());
  }

  /** How often an item is somewhere in the pool. */
  ghost function Inventory(s: Pool, x: Option<Item>): nat {
    Count(Flatten(s.chunks), x) + Count(Flatten(s.queue), x) + HeldBy(s.workers, x)
    + Count(ItemsOf(s.results), x) + Count(ItemsOf(s.drained), x)
  }

  ghost predicate AllHaveExited(workers: seq<Worker>) {
    forall w | 0 <= w < |workers| :: workers[w] == Exited
  }

  ghost predicate Valid(s: Pool) {
    Orderly(s) && Faithful(s) && forall x :: Inventory(s, x) == Count(s.items, x)
  }

  /** Every outcome is what the function reports for its item. */
  ghost predicate Faithful(s: Pool) {
    && Reported(s.run, s.results) && Reported(s.run, s.drained)
    && forall w | 0 <= w < |s.workers| && s.workers[w].Sending? :: s.workers[w].outcome.record == s.run(s.workers[w].outcome.item)
  }

  ghost predicate Reported(run: Item -> RWRecord, outcomes: seq<Outcome>) {
    forall i | 0 <= i < |outcomes| :: outcomes[i].record == run(outcomes[i].item)
  }

  ghost predicate Orderly(s: Pool) {
    && (s.workers == [] ==> s.phase != Adding && s.queue == [])
    && |s.queue| <= |s.items|
    && (s.phase != Adding ==> s.chunks == [])
    && (forall w | 0 <= w < |s.workers| && s.workers[w] == Exited :: s.phase != Adding && s.queue == [])
    && (s.phase == Draining || s.phase == Finished ==> AllHaveExited(s.workers) && s.queue == [])
    && (s.phase == Adding || s.phase == Waiting ==> s.drained == [])
    && (s.phase == Draining ==> |s.drained| < |s.items| || s.items == [])
    && (s.phase == Finished ==> |s.drained| == |s.items| > 0)
  }

  /** Bounds the steps that are left. */
  ghost function Remaining(s: Pool): nat {
    ChunkEffort(s.chunks, 3) + ChunkEffort(s.queue, 2) + EffortOf(s.workers) + |s.results|
    + match s.phase
      case Adding => 3
      case Waiting => 2
      case Draining => 1
      case Finished => 0
  }

  ghost function ChunkEffort(chunks: seq<seq<Item>>, each: nat): nat {
    3 * |Flatten(chunks)| + each * |chunks|
  }

  lemma FirstChunk(chunks: seq<seq<Item>>, x: Option<Item>)
    requires chunks != []
    ensures |Flatten(chunks)| == |chunks[0]| + |Flatten(chunks[1..])|
    ensures Count(Flatten(chunks), x) == Count(chunks[0], x) + Count(Flatten(chunks[1..]), x)
  {
    assert chunks == [chunks[0]] + chunks[1..];
    FlattenAppend([chunks[0]], chunks[1..]);
    FlattenOne(chunks[0]);
    CountAppend(chunks[0], Flatten(chunks[1..]), x);
  }

  lemma LastChunk(chunks: seq<seq<Item>>, chunk: seq<Item>, x: Option<Item>)
    ensures |Flatten(chunks + [chunk])| == |Flatten(chunks)| + |chunk|
    ensures Count(Flatten(chunks + [chunk]), x) == Count(Flatten(chunks), x) + Count(chunk, x)
  {
    FlattenAppend(chunks, [chunk]);
    FlattenOne(chunk);
    CountAppend(Flatten(chunks), chunk, x);
  }

  lemma HandOverConserves(s: Pool, w: nat, t: Pool, x: Option<Item>)
    requires Moves(s, HandOver(w), t)
    ensures Inventory(t, x) == Inventory(s, x)
  {
    FirstChunk(s.chunks, x);
    HeldReplaced(s.workers, w, Busy(s.chunks[0]), x);
  }

  lemma TakeConserves(s: Pool, w: nat, t: Pool, x: Option<Item>)
    requires Moves(s, Take(w), t)
    ensures Inventory(t, x) == Inventory(s, x)
  {
    FirstChunk(s.queue, x);
    HeldReplaced(s.workers, w, Busy(s.queue[0]), x);
  }

  lemma ExecuteConserves(s: Pool, w: nat, t: Pool, x: Option<Item>)
    requires Moves(s, Execute(w), t)
    ensures Inventory(t, x) == Inventory(s, x)
  {
    var rest := s.workers[w].rest;
    assert t.workers[w].Held() == rest;
    HeldReplaced(s.workers, w, t.workers[w], x);
  }

  lemma SendConserves(s: Pool, w: nat, t: Pool, x: Option<Item>)
    requires Moves(s, Send(w), t)
    ensures Inventory(t, x) == Inventory(s, x)
  {
    var outcome, rest := s.workers[w].outcome, s.workers[w].rest;
    HeldReplaced(s.workers, w, Busy(rest), x);
    assert ItemsOf(s.results + [outcome]) == ItemsOf(s.results) + [outcome.item];
    CountAppend(ItemsOf(s.results), [outcome.item], x);
    CountAppend([outcome.item], rest, x);
  }

  lemma DrainConserves(s: Pool, t: Pool, x: Option<Item>)
    requires Moves(s, Drain, t)
    ensures Inventory(t, x) == Inventory(s, x)
  {
    var item := s.results[0].item;
    CountFirst(ItemsOf(s.results), x);
    assert ItemsOf(s.results)[1..] == ItemsOf(s.results[1..]);
    assert ItemsOf(s.drained + [s.results[0]]) == ItemsOf(s.drained) + [item];
    CountAppend(ItemsOf(s.drained), [item], x);
  }

  /** No step loses, duplicates or invents an item. */
  lemma StepConserves(s: Pool, step: Step, t: Pool, x: Option<Item>)
    requires Moves(s, step, t)
    ensures Inventory(t, x) == Inventory(s, x)
  {
    match step
    case Add =>
      FirstChunk(s.chunks, x);
      LastChunk(s.queue, s.chunks[0], x);
    case HandOver(w) => HandOverConserves(s, w, t, x);
    case Close =>
    case Take(w) => TakeConserves(s, w, t, x);
    case Execute(w) => ExecuteConserves(s, w, t, x);
    case Send(w) => SendConserves(s, w, t, x);
    case FinishChunk(w) => HeldReplaced(s.workers, w, Idle, x);
    case Exit(w) => HeldReplaced(s.workers, w, Exited, x);
    case AllExited =>
    case Drain => DrainConserves(s, t, x);
  }

  lemma ChunkMoves(chunks: seq<seq<Item>>, queue: seq<seq<Item>>)
    requires chunks != []
    ensures ChunkEffort(chunks, 3) == 3 + 3 * |chunks[0]| + ChunkEffort(chunks[1..], 3)
    ensures ChunkEffort(chunks, 2) == 2 + 3 * |chunks[0]| + ChunkEffort(chunks[1..], 2)
    ensures ChunkEffort(queue + [chunks[0]], 2) == ChunkEffort(queue, 2) + 2 + 3 * |chunks[0]|
  {
    FirstChunk(chunks, None);
    LastChunk(queue, chunks[0], None);
  }

  lemma HandOverShortens(s: Pool, w: nat, t: Pool)
    requires Moves(s, HandOver(w), t)
    ensures Remaining(t) < Remaining(s)
  {
    ChunkMoves(s.chunks, s.queue);
    assert t.chunks == s.chunks[1..] && t.queue == s.queue && t.results == s.results && t.phase == s.phase;
    EffortReplaced(s.workers, w, Busy(s.chunks[0]));
  }

  lemma TakeShortens(s: Pool, w: nat, t: Pool)
    requires Moves(s, Take(w), t)
    ensures Remaining(t) < Remaining(s)
  {
    ChunkMoves(s.queue, []);
    assert t.queue == s.queue[1..] && t.chunks == s.chunks && t.results == s.results && t.phase == s.phase;
    EffortReplaced(s.workers, w, Busy(s.queue[0]));
  }

  /** Every step leaves fewer to take. */
  lemma StepShortens(s: Pool, step: Step, t: Pool)
    requires Moves(s, step, t)
    ensures Remaining(t) < Remaining(s)
  {
    match step
    case Add => ChunkMoves(s.chunks, s.queue);
    case HandOver(w) => HandOverShortens(s, w, t);
    case Take(w) => TakeShortens(s, w, t);
    case Execute(w) => EffortReplaced(s.workers, w, t.workers[w]);
    case Send(w) => EffortReplaced(s.workers, w, t.workers[w]);
    case FinishChunk(w) => EffortReplaced(s.workers, w, Idle);
    case Exit(w) => EffortReplaced(s.workers, w, Exited);
    case _ =>
  }

  lemma {:induction false} HeldByNone(workers: seq<Worker>, x: Option<Item>)
    requires forall w | 0 <= w < |workers| :: workers[w].Held() == []
    ensures HeldBy(workers, x) == 0
  {
    if workers != [] {
      HeldByNone(workers[..|workers| - 1], x);
    }
  }

  lemma StepKeepsOrder(s: Pool, step: Step)
    requires Orderly(s) && Enabled(s, step)
    requires step == Drain ==> |s.results| + |s.drained| == |s.items|
    ensures Orderly(Next(s, step)) && Next(s, step).items == s.items
  {
    if step == AllExited && s.workers != [] {
      assert s.workers[0] == Exited;
    }
  }

  lemma StepKeepsFaith(s: Pool, step: Step)
    requires Faithful(s) && Enabled(s, step)
    ensures Faithful(Next(s, step)) && Next(s, step).run == s.run
  {}

  lemma StepKeepsValid(s: Pool, step: Step)
    requires Valid(s) && Enabled(s, step)
    ensures Valid(Next(s, step)) && Next(s, step).items == s.items && Next(s, step).run == s.run
  {
    StepKeepsFaith(s, step);
    if step.Drain? {
      DrainedSoFar(s);
    }
    StepKeepsOrder(s, step);
    forall x
      ensures Inventory(Next(s, step), x) == Inventory(s, x)
    {
      StepConserves(s, step, Next(s, step), x);
    }
  }

  /** Once all workers have exited, the results and what has been drained make up the items. */
  lemma DrainedSoFar(s: Pool)
    requires Valid(s) && (s.phase == Draining || s.phase == Finished)
    ensures |s.results| + |s.drained| == |s.items|
  {
    HeldByNone(s.workers, None);
    CountAll(s.items);
    CountAll(ItemsOf(s.results));
    CountAll(ItemsOf(s.drained));
    assert s.chunks == [] && s.queue == [];
  }

  /** A worker that holds a result never finds the channel full. */
  lemma SendNeverBlocks(s: Pool, w: nat)
    requires Valid(s) && w < |s.workers| && s.workers[w].Sending?
    ensures Enabled(s, Send(w))
  {
    HeldReplaced(s.workers, w, Idle, None);
    CountAll(s.workers[w].Held());
    CountAll(ItemsOf(s.results));
    CountAll(s.items);
  }

  /** The pool comes to rest when all results are drained, and only then, unless there are no items at all: then the drain
      waits for a result that never comes. */
  lemma StuckIff(s: Pool)
    requires Valid(s)
    ensures (forall step :: !Enabled(s, step)) <==> s.phase == Finished || (s.phase == Draining && s.items == [])
  {
    if s.phase == Finished || s.phase == Draining {
      if s.phase == Draining {
        DrainedSoFar(s);
      }
      assert s.results != [] && s.phase == Draining ==> Enabled(s, Drain);
    } else {
      var step := SomeStep(s);
    }
  }

  lemma SomeStep(s: Pool) returns (step: Step)
    requires Valid(s) && (s.phase == Adding || s.phase == Waiting)
    ensures Enabled(s, step)
  {
    if w :| 0 <= w < |s.workers| && s.workers[w].Busy? {
      step := if s.workers[w].rest == [] then FinishChunk(w) else Execute(w);
    } else if w :| 0 <= w < |s.workers| && s.workers[w].Sending? {
      SendNeverBlocks(s, w);
      step := Send(w);
    } else if w :| 0 <= w < |s.workers| && s.workers[w].Idle? {
      step := if s.queue != [] then Take(w) else if s.phase == Waiting then Exit(w) else if s.chunks == [] then Close else HandOver(w);
    } else {
      assert s.workers != [] ==> s.workers[0] == Exited;
      step := AllExited;
    }
  }

  // ---------------------------------------------------------------- every schedule

  ghost predicate Schedule(s: Pool, steps: seq<Step>)
    decreases steps
  {
    steps == [] || (Enabled(s, steps[0]) && Schedule(Next(s, steps[0]), steps[1..]))
  }

  ghost function After(s: Pool, steps: seq<Step>): Pool
    requires Schedule(s, steps)
    decreases steps
  {
    if steps == [] then s else After(Next(s, steps[0]), steps[1..])
  }

  /** Whatever the scheduler does, the pool takes boundedly many steps; and where it cannot take another, either the results
      are those of all the items, one for each, or there were no items and the drain blocks for ever. */
  lemma {:induction false} EveryScheduleDelivers(s: Pool, steps: seq<Step>)
    requires Valid(s) && Schedule(s, steps)
    ensures var end := After(s, steps);
            && |steps| + Remaining(end) <= Remaining(s)
            && Valid(end) && end.items == s.items && end.run == s.run
            && ((forall step :: !Enabled(end, step)) ==>
                if s.items == [] then end.phase == Draining
                else end.phase == Finished && multiset(ItemsOf(end.drained)) == multiset(s.items) && Reported(s.run, end.drained))
    decreases steps
  {
    if steps == [] {
      StuckIff(s);
      if s.phase == Finished {
        AllDrained(s);
      }
    } else {
      StepShortens(s, steps[0], Next(s, steps[0]));
      StepKeepsValid(s, steps[0]);
      EveryScheduleDelivers(Next(s, steps[0]), steps[1..]);
    }
  }

  lemma AllDrained(s: Pool)
    requires Valid(s) && s.phase == Finished
    ensures multiset(ItemsOf(s.drained)) == multiset(s.items)
  {
    DrainedSoFar(s);
    HeldByNone(s.workers, None);
    assert s.results == [] && ItemsOf(s.results) == [];
    forall x: Item
      ensures multiset(ItemsOf(s.drained))[x] == multiset(s.items)[x]
    {
      assert Inventory(s, Some(x)) == Count(s.items, Some(x));
      HeldByNone(s.workers, Some(x));
      CountIsMultiplicity(ItemsOf(s.drained), x);
      CountIsMultiplicity(s.items, x);
    }
  }

  lemma {:induction false} CountIsMultiplicity(items: seq<Item>, x: Item)
    ensures Count(items, Some(x)) == multiset(items)[x]
  {
    if items != [] {
      var n := |items| - 1;
      CountIsMultiplicity(items[..n], x);
      assert items == items[..n] + [items[n]];
    }
  }

  lemma StartIsValid(run: Item -> RWRecord, items: seq<Item>, parts: seq<seq<Item>>)
    requires |parts| > 0 && Flatten(parts) == items
    ensures Valid(Start(run, items, parts))
  {
    forall x
      ensures HeldBy(Start(run, items, parts).workers, x) == 0
    {
      HeldByNone(Start(run, items, parts).workers, x);
    }
  }

  /** The steps of a pool, in any order. */
  method RunToEnd(start: Pool) returns (blocked: bool, results: seq<Outcome>)
    requires Valid(start)
    ensures blocked <==> start.items == []
    ensures !blocked ==> multiset(ItemsOf(results)) == multiset(start.items) && Reported(start.run, results)
  {
    var s := start;
    while s.phase != Finished && !(s.phase == Draining && s.items == [])
      invariant Valid(s) && s.items == start.items && s.run == start.run
      decreases Remaining(s)
    {
      StuckIff(s);
      var step :| Enabled(s, step);
      StepShortens(s, step, Next(s, step));
      StepKeepsValid(s, step);
      s := Next(s, step);
    }
    if s.phase == Finished {
      AllDrained(s);
    }
    return s.phase != Finished, s.drained;
  }

  /** One pool for a level, on so many processors. */
  method FillUpPoolWithTask(run: Item -> RWRecord, items: seq<Item>, count: nat) returns (blocked: bool, results: seq<Outcome>)
    requires 0 < count
    ensures blocked <==> items == []
    ensures !blocked ==> multiset(ItemsOf(results)) == multiset(items) && Reported(run, results)
  {
    var parts := PartItems(items, count);
    StartIsValid(run, items, parts);
    blocked, results := RunToEnd(Start(run, items, parts));
  }

  // ---------------------------------------------------------------- a goroutine for each item

  function OneEach(items: seq<Item>): (workers: seq<Worker>)
    ensures |workers| == |items|
  {
    seq(|items|, i requires 0 <= i < |items| => Busy([items[i]]))
  }

  /** ExecBenchTxs starts a goroutine for each item instead, and collects the results in the same way. */
  function FanOut(run: Item -> RWRecord, items: seq<Item>): Pool {
    Pool(run, items, [], [], OneEach(items), [], [], Waiting)
  }

  lemma {:induction false} HeldByOneEach(items: seq<Item>, x: Option<Item>)
    ensures HeldBy(OneEach(items), x) == Count(items, x)
  {
    if items != [] {
      var n := |items| - 1;
      HeldByOneEach(items[..n], x);
      assert OneEach(items)[..n] == OneEach(items[..n]);
      CountOne(items[n], x);
    }
  }

  lemma CountOne(item: Item, x: Option<Item>)
    ensures Count([item], x) == if x == None || x == Some(item) then 1 else 0
  {
    assert [item][..0] == [];
  }

  lemma FanOutIsValid(run: Item -> RWRecord, items: seq<Item>)
    ensures Valid(FanOut(run, items))
  {
    forall x
      ensures HeldBy(FanOut(run, items).workers, x) == Count(items, x)
    {
      HeldByOneEach(items, x);
    }
  }
}
