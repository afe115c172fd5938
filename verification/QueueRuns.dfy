/** Construction of the queue and what holds over every interleaving of its two threads. */
module QueueRuns {
  import opened Options
  import opened ReaderWriterQueue
  import opened BitTricks

  // ------------------------------------------------------------------ construction

  function FreshBlock<T>(size: nat, next: nat): Block<T> {
    Block(size, 0, 0, 0, 0, next, seq(size, _ => None))
  }

  function FreshRing<T>(n: nat, size: nat): seq<Block<T>> {
    seq(n, j requires 0 <= j < n => FreshBlock(size, Inc(j, n)))
  }

  function FreshState<T>(blocks: seq<Block<T>>, largest: nat, maxBlock: nat): State<T> {
    State(blocks, 0, 0, largest, maxBlock, PIdle(NoEnqueue), CIdle(NoDequeue), [], [],
          seq(|blocks|, i requires 0 <= i < |blocks| => i), 0, seq(|blocks|, _ => 0))
  }

  /** A queue made for `requested` elements with blocks of at most `maxBlock` slots: one block, or a ring of
      equal ones. */
  function Created<T>(requested: nat, maxBlock: nat): State<T>
    requires 2 <= maxBlock
  {
    var largest := CeilPow2(requested + 1);
    if largest > maxBlock * 2 then
      var n := (requested + maxBlock * 2 - 3) / (maxBlock - 1);
      FreshState(FreshRing(n, maxBlock), maxBlock, maxBlock)
    else FreshState([FreshBlock(largest, 0)], largest, maxBlock)
  }

  /** Every block but one together hold `requested` elements. */
  ghost predicate Roomy<T>(s: State<T>, requested: nat, m: nat) {
    && (forall b | 0 <= b < |s.blocks| :: m < s.blocks[b].size)
    && m < s.largest
    && (|s.ring| == 1 ==> requested <= m)
    && (2 <= |s.ring| ==> requested <= (|s.ring| - 1) * m)
  }

  lemma BlockCountSuffices(requested: nat, maxBlock: nat)
    requires 2 <= maxBlock && 0 < requested
    ensures var n := (requested + maxBlock * 2 - 3) / (maxBlock - 1);
      2 <= n && requested <= (n - 1) * (maxBlock - 1)
  {
    var d := maxBlock - 1;
    var n := (requested + maxBlock * 2 - 3) / d;
    assert requested + maxBlock * 2 - 3 == n * d + (requested + maxBlock * 2 - 3) % d;
    assert n * d == (n - 1) * d + d;
  }

  lemma FreshIsSteppable<T>(blocks: seq<Block<T>>, largest: nat, maxBlock: nat)
    requires 0 < |blocks| && 1 <= largest && 2 <= maxBlock
    requires forall j | 0 <= j < |blocks| :: blocks[j] == FreshBlock(largest, Inc(j, |blocks|))
    ensures Steppable(FreshState(blocks, largest, maxBlock))
    ensures 2 <= largest ==> Inv(FreshState(blocks, largest, maxBlock))
  {
    var s := FreshState(blocks, largest, maxBlock);
    forall i | 0 <= i < |s.ring| ensures Linked(s.blocks, s.ring, i) {
      assert s.ring[i] == i;
    }
    assert Shape(s);
  }

  /** A new queue is sound for any number of elements but zero, and has room for that number. */
  lemma CreatedIsSound<T>(requested: nat, maxBlock: nat)
    requires 2 <= maxBlock
    ensures var s := Created<T>(requested, maxBlock);
      && Steppable(s) && (1 <= requested ==> Inv(s)) && Roomy(s, requested, s.largest - 1)
      && s.p == PIdle(NoEnqueue) && s.c == CIdle(NoDequeue) && s.enq == [] && s.deq == []
  {
    var largest := CeilPow2(requested + 1);
    hide Inv, Steppable;
    if largest > maxBlock * 2 {
      BlockCountSuffices(requested, maxBlock);
      var n := (requested + maxBlock * 2 - 3) / (maxBlock - 1);
      FreshIsSteppable(FreshRing<T>(n, maxBlock), maxBlock, maxBlock);
    } else {
      FreshIsSteppable([FreshBlock<T>(largest, 0)], largest, maxBlock);
    }
  }

  method Create<T>(requested: nat, maxBlock: nat) returns (s: State<T>)
    requires 2 <= maxBlock
    ensures s == Created(requested, maxBlock)
  {
    var largest := CeilPow2(requested + 1);
    var blocks: seq<Block<T>> := [];
    if largest > maxBlock * 2 {
      var initialBlockCount := (requested + maxBlock * 2 - 3) / (maxBlock - 1);
      largest := maxBlock;
      for i := 0 to initialBlockCount
        invariant |blocks| == i
        invariant forall j | 0 <= j < i :: blocks[j] == FreshBlock(largest, Inc(j, i))
      {
        if i != 0 {
          blocks := blocks[i - 1 := blocks[i - 1].(next := i)];
        }
        blocks := blocks + [FreshBlock(largest, 0)];
      }
    } else {
      blocks := [FreshBlock(largest, 0)];
    }
    s := FreshState(blocks, largest, maxBlock);
  }

  // ------------------------------------------------------------------ runs

  ghost predicate StepsTo<T>(s: State<T>, l: Label<T>, s': State<T>) {
    Steppable(s) && Enabled(s, l) && s' == Apply(s, l)
  }

  /** An interleaving of producer and consumer: step `i` leads from `run[i]` to `run[i + 1]`. */
  ghost predicate IsRun<T>(run: seq<State<T>>, labels: seq<Label<T>>) {
    && |run| == |labels| + 1
    && forall i | 0 <= i < |labels| :: StepsTo(run[i], labels[i], run[i + 1])
  }

  /** The asserts about the block that the producer or the consumer is about to enter. */
  ghost predicate AssertsHold<T>(s: State<T>)
    requires Steppable(s)
  {
    && (s.p.PEnterNext? ==>
          var nb := s.blocks[s.tailBlock].next;
          nb < |s.blocks| && s.blocks[nb].front == s.blocks[nb].tail)
    && (s.c.CEnterNext? ==> s.blocks[s.c.nb].front != s.blocks[s.c.nb].tail)
  }

  /** The producer constructs only in empty slots. */
  ghost predicate NoOverwrite<T>(s: State<T>)
    requires Steppable(s)
  {
    && (s.p.PConstruct? ==> s.blocks[s.p.b].data[s.p.t] == None)
    && (s.p.PConstructNext? ==> s.blocks[s.p.nb].data[s.p.t] == None)
  }

  lemma InvIsSafe<T>(s: State<T>)
    requires Inv(s)
    ensures Steppable(s) && AssertsHold(s) && NoOverwrite(s)
  {
    InvIsSteppable(s);
    if s.p.PEnterNext? {
      assert Linked(s.blocks, s.ring, s.tailPos);
    }
    if s.p.PConstruct? {
      assert SlotOk(s.blocks[s.p.b], s.base[s.p.b], Log(s), false, TakenFrom(s.c, s.p.b), s.p.t);
    }
    if s.p.PConstructNext? {
      assert SlotOk(s.blocks[s.p.nb], s.base[s.p.nb], Log(s), false, TakenFrom(s.c, s.p.nb), s.p.t);
    }
  }

  lemma {:induction false} RunKeepsInv<T>(run: seq<State<T>>, labels: seq<Label<T>>, i: nat)
    requires IsRun(run, labels) && Inv(run[0]) && i < |run|
    ensures Inv(run[i])
  {
    hide Inv, Apply;
    if 0 < i {
      RunKeepsInv(run, labels, i - 1);
      assert StepsTo(run[i - 1], labels[i - 1], run[i - 1 + 1]);
      ApplyKeepsInv(run[i - 1], labels[i - 1]);
    }
  }

  /** Over every interleaving: memory-safe, no assert fails, no unread slot is overwritten, and what was
      dequeued is a prefix of what was enqueued. */
  lemma RunIsSafe<T>(run: seq<State<T>>, labels: seq<Label<T>>)
    requires IsRun(run, labels) && Inv(run[0])
    ensures forall i | 0 <= i < |run| :: Steppable(run[i]) && AssertsHold(run[i]) && NoOverwrite(run[i])
    ensures forall i | 0 <= i < |run| :: run[i].deq <= run[i].enq
  {
    forall i | 0 <= i < |run|
      ensures Steppable(run[i]) && AssertsHold(run[i]) && NoOverwrite(run[i]) && run[i].deq <= run[i].enq
    {
      RunKeepsInv(run, labels, i);
      InvIsSafe(run[i]);
    }
  }

  /** The same for every queue as it is constructed for at least one element. */
  lemma NewQueueIsSafe<T>(run: seq<State<T>>, labels: seq<Label<T>>, requested: nat, maxBlock: nat)
    requires 2 <= maxBlock && 1 <= requested && IsRun(run, labels) && run[0] == Created(requested, maxBlock)
    ensures forall i | 0 <= i < |run| :: Steppable(run[i]) && AssertsHold(run[i]) && NoOverwrite(run[i])
    ensures forall i | 0 <= i < |run| :: run[i].deq <= run[i].enq
  {
    CreatedIsSound<T>(requested, maxBlock);
    hide Created, Roomy;
    RunIsSafe(run, labels);
  }

  // ------------------------------------------------------------------ what a failed operation means

  /** A consumer operation starts at step `i` and has not returned before `run[j]`. */
  ghost predicate ConsumerBusy<T>(run: seq<State<T>>, labels: seq<Label<T>>, i: nat, j: nat) {
    && IsRun(run, labels) && i < j < |run| && labels[i].CallDequeue?
    && forall k | i < k < j :: !run[k].c.CIdle?
  }

  ghost predicate ProducerBusy<T>(run: seq<State<T>>, labels: seq<Label<T>>, i: nat, j: nat) {
    && IsRun(run, labels) && i < j < |run| && labels[i].CallEnqueue?
    && forall k | i < k < j :: !run[k].p.PIdle?
  }

  predicate ByProducer<T>(l: Label<T>) {
    l.CallEnqueue? || l.StepProducer? || l.FailAllocation?
  }

  lemma ProducerFrame<T>(s: State<T>, l: Label<T>)
    requires Steppable(s) && Enabled(s, l) && ByProducer(l)
    ensures var s' := Apply(s, l);
      s'.c == s.c && s'.deq == s.deq && s'.frontBlock == s.frontBlock && s.tailPos <= s'.tailPos &&
      |s.ring| <= |s'.ring|
  {
    match l
    case CallEnqueue(x, canAlloc) => assert Apply(s, l) == BeginEnqueue(s, x, canAlloc);
    case StepProducer => assert Apply(s, l) == ProducerStep(s);
    case FailAllocation =>
  }

  lemma ConsumerFrame<T>(s: State<T>, l: Label<T>)
    requires Steppable(s) && Enabled(s, l) && !ByProducer(l)
    ensures var s' := Apply(s, l);
      s'.p == s.p && s'.enq == s.enq && |s'.ring| == |s.ring| && s'.tailBlock == s.tailBlock
  {
  }

  /** A consumer step reaches the tail-block check only from a reload that found the front block empty. */
  lemma ReloadFoundEmpty<T>(s: State<T>, l: Label<T>)
    requires Inv(s) && Steppable(s) && Enabled(s, l) && !ByProducer(l)
    requires Apply(s, l).c.CCheckTailBlock? && Apply(s, l).tailPos == 0
    ensures Apply(s, l).enq == Apply(s, l).deq
  {
  }

  lemma ReportsEmpty<T>(s: State<T>, l: Label<T>)
    requires Inv(s) && Steppable(s) && Enabled(s, l) && (l.CallDequeue? || !s.c.CIdle?)
    requires Apply(s, l).c == CIdle(Empty)
    ensures s.c.CCheckTailBlock? && s.tailPos == 0
  {
    if ByProducer(l) { ProducerFrame(s, l); }
  }

  /** While the front block stays the tail block, the queue was empty when `tail` was reloaded. */
  lemma {:induction false} EmptyAtReload<T>(run: seq<State<T>>, labels: seq<Label<T>>, i: nat, j: nat) returns (k: nat)
    requires ConsumerBusy(run, labels, i, j) && Inv(run[0])
    requires run[j].c.CCheckTailBlock? && run[j].tailPos == 0
    ensures i < k <= j && run[k].enq == run[k].deq
  {
    hide Inv, Apply;
    RunKeepsInv(run, labels, j - 1);
    assert StepsTo(run[j - 1], labels[j - 1], run[j - 1 + 1]);
    if ByProducer(labels[j - 1]) {
      ProducerFrame(run[j - 1], labels[j - 1]);
      k := EmptyAtReload(run, labels, i, j - 1);
    } else {
      ReloadFoundEmpty(run[j - 1], labels[j - 1]);
      k := j;
    }
  }

  /** `try_dequeue`, `pop` and `peek` report an empty queue only if it was empty at some moment of the call. */
  lemma EmptyMeansEmpty<T>(run: seq<State<T>>, labels: seq<Label<T>>, i: nat, j: nat) returns (k: nat)
    requires ConsumerBusy(run, labels, i, j) && Inv(run[0])
    requires run[j].c == CIdle(Empty)
    ensures i < k <= j && run[k].enq == run[k].deq
  {
    hide Inv, Apply;
    RunKeepsInv(run, labels, j - 1);
    assert StepsTo(run[j - 1], labels[j - 1], run[j - 1 + 1]);
    ReportsEmpty(run[j - 1], labels[j - 1]);
    k := EmptyAtReload(run, labels, i, j - 1);
  }

  lemma {:induction false} FullBlocksHold<T>(s: State<T>, requested: nat, m: nat, i: nat)
    requires Inv(s) && Roomy(s, requested, m) && 1 <= i <= s.tailPos
    ensures |s.deq| + (i - 1) * m <= s.base[s.ring[i]]
  {
    assert Joined(s.blocks, s.base, s.ring, i - 1);
    if 1 < i {
      FullBlocksHold(s, requested, m, i - 1);
      assert (i - 2) * m + m == (i - 1) * m;
    }
  }

  lemma FullRingHolds<T>(s: State<T>, requested: nat, m: nat)
    requires Inv(s) && Roomy(s, requested, m) && TailFullUnlessFront(s)
    requires 2 <= |s.ring| && s.tailPos == |s.ring| - 1
    ensures |s.deq| + requested <= |s.enq|
  {
    FullBlocksHold(s, requested, m, s.tailPos);
    assert (s.tailPos - 1) * m + m == (|s.ring| - 1) * m;
  }

  /** Blocks keep their size. A new one is twice as large as the largest so far, until the limit is reached. */
  predicate SizesKept<T>(s: State<T>, s': State<T>) {
    && |s.blocks| <= |s'.blocks| <= |s.blocks| + 1 && s'.maxBlock == s.maxBlock
    && s'.largest == (if |s'.blocks| == |s.blocks| || s.maxBlock <= s.largest then s.largest else 2 * s.largest)
    && (forall b | 0 <= b < |s.blocks| :: s'.blocks[b].size == s.blocks[b].size)
    && (forall b | |s.blocks| <= b < |s'.blocks| :: s'.blocks[b].size == s'.largest)
    && |s.ring| <= |s'.ring| <= |s.ring| + 1
  }

  lemma ProducerKeepsSizes<T>(s: State<T>)
    requires Shape(s) && ProducerInRange(s) && !s.p.PIdle?
    ensures SizesKept(s, ProducerStep(s))
  {
    assert Linked(s.blocks, s.ring, s.tailPos);
  }

  lemma ConsumerKeepsSizes<T>(s: State<T>)
    requires Shape(s) && ConsumerInRange(s) && !s.c.CIdle?
    ensures SizesKept(s, ConsumerStep(s))
  {
  }

  /** Every step keeps the sizes of the blocks; an allocation doubles the largest, up to the limit. */
  lemma StepKeepsSizes<T>(s: State<T>, l: Label<T>)
    requires Steppable(s) && Enabled(s, l)
    ensures SizesKept(s, Apply(s, l))
  {
    match l
    case StepProducer => ProducerKeepsSizes(s); hide ProducerStep;
    case StepConsumer => ConsumerKeepsSizes(s); hide ConsumerStep;
    case _ =>
  }

  lemma SizesKeepRoomy<T>(s: State<T>, s': State<T>, requested: nat, m: nat)
    requires Roomy(s, requested, m) && SizesKept(s, s') && 0 < |s.ring|
    ensures Roomy(s', requested, m)
  {
    assert (|s.ring| - 1) * m + m == |s.ring| * m;
  }

  lemma StepKeepsRoomy<T>(s: State<T>, l: Label<T>, requested: nat, m: nat)
    requires Steppable(s) && Enabled(s, l) && Roomy(s, requested, m)
    ensures Roomy(Apply(s, l), requested, m)
  {
    match l
    case StepProducer => ProducerKeepsSizes(s); SizesKeepRoomy(s, ProducerStep(s), requested, m);
    case StepConsumer => ConsumerKeepsSizes(s); SizesKeepRoomy(s, ConsumerStep(s), requested, m);
    case _ =>
  }

  lemma {:induction false} RunKeepsRoomy<T>(run: seq<State<T>>, labels: seq<Label<T>>, requested: nat, m: nat, i: nat)
    requires IsRun(run, labels) && Roomy(run[0], requested, m) && i < |run|
    ensures Roomy(run[i], requested, m)
  {
    if 0 < i {
      RunKeepsRoomy(run, labels, requested, m, i - 1);
      assert StepsTo(run[i - 1], labels[i - 1], run[i - 1 + 1]);
      StepKeepsRoomy(run[i - 1], labels[i - 1], requested, m);
    }
  }

  // ------------------------------------------------------------------ counting round with a mask

  ghost predicate SizesArePowers<T>(s: State<T>) {
    PowerOfTwo(s.largest) && forall b | 0 <= b < |s.blocks| :: PowerOfTwo(s.blocks[b].size)
  }

  lemma StepKeepsPowers<T>(s: State<T>, l: Label<T>)
    requires Steppable(s) && Enabled(s, l) && SizesArePowers(s)
    ensures SizesArePowers(Apply(s, l))
  {
    match l
    case StepProducer => ProducerKeepsSizes(s); SizesKeepPowers(s, ProducerStep(s));
    case StepConsumer => ConsumerKeepsSizes(s); SizesKeepPowers(s, ConsumerStep(s));
    case _ =>
  }

  lemma SizesKeepPowers<T>(s: State<T>, s': State<T>)
    requires SizesArePowers(s) && SizesKept(s, s')
    ensures SizesArePowers(s')
  {
    assert PowerOfTwo(2 * s.largest);
  }

  lemma {:induction false} RunKeepsPowers<T>(run: seq<State<T>>, labels: seq<Label<T>>, i: nat)
    requires IsRun(run, labels) && SizesArePowers(run[0]) && i < |run|
    ensures SizesArePowers(run[i])
  {
    hide SizesArePowers, Apply, Steppable;
    if 0 < i {
      RunKeepsPowers(run, labels, i - 1);
      assert StepsTo(run[i - 1], labels[i - 1], run[i - 1 + 1]);
      StepKeepsPowers(run[i - 1], labels[i - 1]);
    }
  }

  /** In every run of a new queue whose block limit is a power of two, `(t + 1) & sizeMask` is the step from
      one slot of a block to the next and from the last to the first. */
  lemma MaskStep<T>(run: seq<State<T>>, labels: seq<Label<T>>, requested: nat, maxBlock: nat, i: nat, b: nat, t: nat)
    requires 2 <= maxBlock && PowerOfTwo(maxBlock) && IsRun(run, labels) && run[0] == Created(requested, maxBlock)
    requires i < |run| && b < |run[i].blocks| && t < run[i].blocks[b].size
    ensures And(t + 1, run[i].blocks[b].size - 1) == Inc(t, run[i].blocks[b].size)
  {
    assert SizesArePowers(run[0]);
    RunKeepsPowers(run, labels, i);
    MaskWraps(t + 1, run[i].blocks[b].size);
  }

  // ------------------------------------------------------------------ a refused enqueue

  /** A producer step reaches the next-block check only from a reload that found the tail block full. */
  lemma ReloadFoundFull<T>(s: State<T>, l: Label<T>)
    requires Inv(s) && Steppable(s) && Enabled(s, l) && ByProducer(l)
    requires Apply(s, l).p.PCheckNext? && |Apply(s, l).ring| == 1
    ensures var s' := Apply(s, l);
      s'.tailBlock < |s'.blocks| && |s'.enq| == |s'.deq| + s'.blocks[s'.tailBlock].size - 1
  {
    assert s.p.PReloadFront?;
  }

  lemma ReportsNoRoom<T>(s: State<T>, l: Label<T>)
    requires Inv(s) && Steppable(s) && Enabled(s, l) && (l.CallEnqueue? || !s.p.PIdle?)
    requires Apply(s, l).p == PIdle(NoRoom)
    ensures s.p.PCheckNext? && s.tailPos == |s.ring| - 1 && TailFullUnlessFront(s)
  {
    if !ByProducer(l) { ConsumerFrame(s, l); }
    assert Linked(s.blocks, s.ring, s.tailPos);
  }

  /** With a single block, the queue was full when `front` was reloaded. */
  lemma {:induction false} FullAtReload<T>(run: seq<State<T>>, labels: seq<Label<T>>, i: nat, j: nat,
                                           requested: nat, m: nat) returns (k: nat)
    requires ProducerBusy(run, labels, i, j) && Inv(run[0]) && Roomy(run[0], requested, m)
    requires run[j].p.PCheckNext? && |run[j].ring| == 1
    ensures i < k <= j && |run[k].deq| + requested <= |run[k].enq|
  {
    hide Inv, Apply;
    RunKeepsInv(run, labels, j - 1);
    RunKeepsRoomy(run, labels, requested, m, j);
    assert StepsTo(run[j - 1], labels[j - 1], run[j - 1 + 1]);
    if ByProducer(labels[j - 1]) {
      ReloadFoundFull(run[j - 1], labels[j - 1]);
      k := j;
    } else {
      ConsumerFrame(run[j - 1], labels[j - 1]);
      k := FullAtReload(run, labels, i, j - 1, requested, m);
    }
  }

  /** `try_enqueue` refuses only if the queue held the requested number of elements at some moment of the call. */
  lemma NoRoomMeansFull<T>(run: seq<State<T>>, labels: seq<Label<T>>, i: nat, j: nat, requested: nat, m: nat)
    returns (k: nat)
    requires ProducerBusy(run, labels, i, j) && Inv(run[0]) && Roomy(run[0], requested, m)
    requires run[j].p == PIdle(NoRoom)
    ensures i < k <= j && |run[k].deq| + requested <= |run[k].enq|
  {
    hide Apply, Inv, Roomy;
    RunKeepsInv(run, labels, j - 1);
    assert StepsTo(run[j - 1], labels[j - 1], run[j - 1 + 1]);
    ReportsNoRoom(run[j - 1], labels[j - 1]);
    if |run[j - 1].ring| == 1 {
      k := FullAtReload(run, labels, i, j - 1, requested, m);
    } else {
      RunKeepsRoomy(run, labels, requested, m, j - 1);
      FullRingHolds(run[j - 1], requested, m);
      k := j - 1;
    }
  }

  /** In a queue as it is constructed for at least one element, a failed dequeue means an empty queue and a
      refused enqueue means a queue with all the elements it was made for, at some moment of the call. */
  lemma NewQueueFailures<T>(run: seq<State<T>>, labels: seq<Label<T>>, requested: nat, maxBlock: nat, i: nat, j: nat)
    returns (k: nat)
    requires 2 <= maxBlock && 1 <= requested && IsRun(run, labels) && run[0] == Created(requested, maxBlock)
    requires (ConsumerBusy(run, labels, i, j) && run[j].c == CIdle(Empty)) ||
             (ProducerBusy(run, labels, i, j) && run[j].p == PIdle(NoRoom))
    ensures i < k <= j
    ensures ConsumerBusy(run, labels, i, j) && run[j].c == CIdle(Empty) ==> run[k].enq == run[k].deq
    ensures ProducerBusy(run, labels, i, j) && run[j].p == PIdle(NoRoom) ==> |run[k].deq| + requested <= |run[k].enq|
  {
    CreatedIsSound<T>(requested, maxBlock);
    hide Created, Roomy, Inv, IsRun;
    if ConsumerBusy(run, labels, i, j) && run[j].c == CIdle(Empty) {
      k := EmptyMeansEmpty(run, labels, i, j);
    } else {
      k := NoRoomMeansFull(run, labels, i, j, requested, run[0].largest - 1);
    }
  }
}
