/** A queue constructed for zero elements: its only block has one slot, which can hold nothing, so
    entering that block again publishes an element into a block that still looks empty. */
module ZeroSizeQueue {
  import opened Options
  import opened ReaderWriterQueue
  import opened QueueRuns

  /** Some interleaving leads from `s` to `s'`. */
  ghost predicate Reaches<T(!new)>(s: State<T>, s': State<T>) {
    exists run, labels :: IsRun(run, labels) && run[0] == s && run[|labels|] == s'
  }

  lemma ReachesSelf<T(!new)>(s: State<T>)
    ensures Reaches(s, s)
  {
    assert IsRun([s], []);
  }

  lemma Extend<T(!new)>(s: State<T>, s1: State<T>, l: Label<T>, s2: State<T>)
    requires Reaches(s, s1) && StepsTo(s1, l, s2)
    ensures Reaches(s, s2)
  {
    hide StepsTo;
    var run, labels :| IsRun(run, labels) && run[0] == s && run[|labels|] == s1;
    var run', labels' := run + [s2], labels + [l];
    forall i | 0 <= i < |labels'| ensures StepsTo(run'[i], labels'[i], run'[i + 1]) {
      if i < |labels| { assert StepsTo(run[i], labels[i], run[i + 1]); }
    }
    assert IsRun(run', labels');
  }

  /** The state `ReaderWriterQueue(0)` constructs. */
  function Start<T>(maxBlock: nat): State<T> {
    State([Block(1, 0, 0, 0, 0, 0, [None])], 0, 0, 1, maxBlock,
          PIdle(NoEnqueue), CIdle(NoDequeue), [], [], [0], 0, [0])
  }

  /** One enqueue later: a second block of two slots holds the element. */
  function Grown<T>(maxBlock: nat, x: T): State<T> {
    State([Block(1, 0, 0, 0, 0, 1, [None]), Block(2, 0, 1, 1, 0, 0, [Some(x), None])], 0, 1, 2, maxBlock,
          PIdle(Accepted), CIdle(NoDequeue), [x], [], [0, 1], 1, [0, 0])
  }

  /** The consumer has moved to the second block and is about to take the element. */
  function Moved<T>(maxBlock: nat, x: T): State<T> {
    Grown(maxBlock, x).(frontBlock := 1, ring := [1, 0], tailPos := 0, c := CTake(TryDequeue, 1, 0))
  }

  /** A second element was enqueued into the one-slot block, whose `tail` did not move. */
  function Lost<T>(maxBlock: nat, x: T, y: T): State<T> {
    Moved(maxBlock, x).(
      blocks := [Block(1, 0, 0, 0, 0, 1, [Some(y)]), Block(2, 0, 1, 1, 0, 0, [Some(x), None])],
      tailBlock := 0, tailPos := 1, enq := [x, y], base := [1, 0])
  }

  /** The consumer is about to enter the one-slot block, which looks empty. */
  function Stuck<T>(maxBlock: nat, x: T, y: T): State<T> {
    Lost(maxBlock, x, y).(
      blocks := [Block(1, 0, 0, 0, 0, 1, [Some(y)]), Block(2, 1, 1, 1, 0, 0, [None, None])],
      c := CEnterNext(TryDequeue, 0), deq := [x], base := [1, 1])
  }

  lemma GrowAsk<T(!new)>(maxBlock: nat, x: T)
    requires 2 <= maxBlock && Reaches<T>(Start(maxBlock), Start(maxBlock))
    ensures Reaches(Start(maxBlock), Start(maxBlock).(p := PAllocate(x, 0)))
  {
    var s0: State<T> := Start(maxBlock);
    var s1 := Start(maxBlock).(p := PReloadFront(x, true, 0, 0));
    Extend(Start(maxBlock), s0, CallEnqueue(x, true), s1);
    var s2 := Start(maxBlock).(p := PCheckNext(x, true, 0));
    Extend(Start(maxBlock), s1, StepProducer, s2);
    var s3 := Start(maxBlock).(p := PAllocate(x, 0));
    Extend(Start(maxBlock), s2, StepProducer, s3);
  }

  lemma GrowLink<T(!new)>(maxBlock: nat, x: T)
    requires 2 <= maxBlock && Reaches(Start(maxBlock), Start(maxBlock).(p := PAllocate(x, 0)))
    ensures Reaches(Start(maxBlock), Grown(maxBlock, x))
  {
    var s0: State<T> := Start(maxBlock).(p := PAllocate(x, 0));
    var s1 := Start(maxBlock).(
      blocks := [Block(1, 0, 0, 0, 0, 0, [None]), Block(2, 0, 1, 1, 0, 0, [Some(x), None])],
      largest := 2, base := [0, 0], p := PLink(x, 0, 1));
    assert NewBlockSize(s0) == 2 && [Some(x)] + seq(1, _ => None) == [Some(x), None];
    Extend(Start(maxBlock), s0, StepProducer, s1);
    var s2 := Grown(maxBlock, x).(p := PAdvance(x, 1), tailBlock := 0, tailPos := 0, enq := []);
    assert s1.ring[..1] + [1] + s1.ring[1..] == [0, 1];
    Extend(Start(maxBlock), s1, StepProducer, s2);
    var s3 := Grown(maxBlock, x);
    Extend(Start(maxBlock), s2, StepProducer, s3);
  }

  lemma MoveCheck<T(!new)>(maxBlock: nat, x: T)
    requires 2 <= maxBlock && Reaches(Start(maxBlock), Grown(maxBlock, x))
    ensures Reaches(Start(maxBlock), Grown(maxBlock, x).(c := CRecheck(TryDequeue, 0)))
  {
    var s0: State<T> := Grown(maxBlock, x);
    var s1 := Grown(maxBlock, x).(c := CReloadTail(TryDequeue, 0, 0));
    Extend(Start(maxBlock), s0, CallDequeue(TryDequeue), s1);
    var s2 := Grown(maxBlock, x).(c := CCheckTailBlock(TryDequeue, 0));
    Extend(Start(maxBlock), s1, StepConsumer, s2);
    var s3 := Grown(maxBlock, x).(c := CRecheck(TryDequeue, 0));
    Extend(Start(maxBlock), s2, StepConsumer, s3);
  }

  lemma MoveEnter<T(!new)>(maxBlock: nat, x: T)
    requires 2 <= maxBlock && Reaches(Start(maxBlock), Grown(maxBlock, x).(c := CRecheck(TryDequeue, 0)))
    ensures Reaches(Start(maxBlock), Grown(maxBlock, x).(c := CEnterNext(TryDequeue, 1)))
  {
    var s0: State<T> := Grown(maxBlock, x).(c := CRecheck(TryDequeue, 0));
    var s1 := Grown(maxBlock, x).(c := CLoadNext(TryDequeue, 0));
    Extend(Start(maxBlock), s0, StepConsumer, s1);
    var s2 := Grown(maxBlock, x).(c := CEnterNext(TryDequeue, 1));
    Extend(Start(maxBlock), s1, StepConsumer, s2);
  }

  lemma MoveFront<T(!new)>(maxBlock: nat, x: T)
    requires 2 <= maxBlock && Reaches(Start(maxBlock), Grown(maxBlock, x).(c := CEnterNext(TryDequeue, 1)))
    ensures Reaches(Start(maxBlock), Moved(maxBlock, x))
  {
    var s0: State<T> := Grown(maxBlock, x).(c := CEnterNext(TryDequeue, 1));
    var s1 := Grown(maxBlock, x).(c := CAdvance(TryDequeue, 1, 0));
    Extend(Start(maxBlock), s0, StepConsumer, s1);
    var s2 := Moved(maxBlock, x);
    assert s1.ring[1..] + [s1.ring[0]] == [1, 0];
    Extend(Start(maxBlock), s1, StepConsumer, s2);
  }

  lemma LoseCheck<T(!new)>(maxBlock: nat, x: T, y: T)
    requires 2 <= maxBlock && Reaches(Start(maxBlock), Moved(maxBlock, x))
    ensures Reaches(Start(maxBlock), Moved(maxBlock, x).(p := PEnterNext(y, 1)))
  {
    var s0: State<T> := Moved(maxBlock, x);
    var s1 := Moved(maxBlock, x).(p := PReloadFront(y, true, 1, 1));
    Extend(Start(maxBlock), s0, CallEnqueue(y, true), s1);
    var s2 := Moved(maxBlock, x).(p := PCheckNext(y, true, 1));
    Extend(Start(maxBlock), s1, StepProducer, s2);
    var s3 := Moved(maxBlock, x).(p := PEnterNext(y, 1));
    Extend(Start(maxBlock), s2, StepProducer, s3);
  }

  lemma LoseEnter<T(!new)>(maxBlock: nat, x: T, y: T)
    requires 2 <= maxBlock && Reaches(Start(maxBlock), Moved(maxBlock, x).(p := PEnterNext(y, 1)))
    ensures Reaches(Start(maxBlock),
                    Lost(maxBlock, x, y).(p := PPublishNext(y, 0, 0), tailBlock := 1, tailPos := 0, enq := [x]))
  {
    var s0: State<T> := Moved(maxBlock, x).(p := PEnterNext(y, 1));
    var s1 := Moved(maxBlock, x).(p := PConstructNext(y, 0, 0));
    Extend(Start(maxBlock), s0, StepProducer, s1);
    var s2 := Lost(maxBlock, x, y).(p := PPublishNext(y, 0, 0), tailBlock := 1, tailPos := 0, enq := [x]);
    assert s1.base[0 := 1] == [1, 0] && s1.blocks[0].data[0 := Some(y)] == [Some(y)];
    Extend(Start(maxBlock), s1, StepProducer, s2);
  }

  lemma LosePublish<T(!new)>(maxBlock: nat, x: T, y: T)
    requires 2 <= maxBlock
    requires Reaches(Start(maxBlock),
                     Lost(maxBlock, x, y).(p := PPublishNext(y, 0, 0), tailBlock := 1, tailPos := 0, enq := [x]))
    ensures Reaches(Start(maxBlock), Lost(maxBlock, x, y))
  {
    var s0: State<T> := Lost(maxBlock, x, y).(p := PPublishNext(y, 0, 0), tailBlock := 1, tailPos := 0, enq := [x]);
    var s1 := Lost(maxBlock, x, y).(p := PAdvance(y, 0), tailBlock := 1, tailPos := 0, enq := [x]);
    Extend(Start(maxBlock), s0, StepProducer, s1);
    var s2 := Lost(maxBlock, x, y);
    Extend(Start(maxBlock), s1, StepProducer, s2);
  }

  lemma StuckTake<T(!new)>(maxBlock: nat, x: T, y: T)
    requires 2 <= maxBlock && Reaches(Start(maxBlock), Lost(maxBlock, x, y))
    ensures Reaches(Start(maxBlock), Stuck(maxBlock, x, y).(c := CIdle(Got(x))))
  {
    var s0: State<T> := Lost(maxBlock, x, y);
    var s1 := Stuck(maxBlock, x, y).(
      blocks := [Block(1, 0, 0, 0, 0, 1, [Some(y)]), Block(2, 0, 1, 1, 0, 0, [None, None])],
      deq := [], base := [1, 0], c := CPublishFront(x, 1, 0));
    assert s0.blocks[1].data[0 := None] == [None, None];
    Extend(Start(maxBlock), s0, StepConsumer, s1);
    var s2 := Stuck(maxBlock, x, y).(c := CIdle(Got(x)));
    assert s1.base[1 := 1] == [1, 1];
    Extend(Start(maxBlock), s1, StepConsumer, s2);
  }

  lemma StuckCheck<T(!new)>(maxBlock: nat, x: T, y: T)
    requires 2 <= maxBlock && Reaches(Start(maxBlock), Stuck(maxBlock, x, y).(c := CIdle(Got(x))))
    ensures Reaches(Start(maxBlock), Stuck(maxBlock, x, y).(c := CRecheck(TryDequeue, 1)))
  {
    var s0: State<T> := Stuck(maxBlock, x, y).(c := CIdle(Got(x)));
    var s1 := Stuck(maxBlock, x, y).(c := CReloadTail(TryDequeue, 1, 1));
    Extend(Start(maxBlock), s0, CallDequeue(TryDequeue), s1);
    var s2 := Stuck(maxBlock, x, y).(c := CCheckTailBlock(TryDequeue, 1));
    Extend(Start(maxBlock), s1, StepConsumer, s2);
    var s3 := Stuck(maxBlock, x, y).(c := CRecheck(TryDequeue, 1));
    Extend(Start(maxBlock), s2, StepConsumer, s3);
  }

  lemma StuckEnter<T(!new)>(maxBlock: nat, x: T, y: T)
    requires 2 <= maxBlock && Reaches(Start(maxBlock), Stuck(maxBlock, x, y).(c := CRecheck(TryDequeue, 1)))
    ensures Reaches(Start(maxBlock), Stuck(maxBlock, x, y))
  {
    var s0: State<T> := Stuck(maxBlock, x, y).(c := CRecheck(TryDequeue, 1));
    var s1 := Stuck(maxBlock, x, y).(c := CLoadNext(TryDequeue, 1));
    Extend(Start(maxBlock), s0, StepConsumer, s1);
    var s2 := Stuck(maxBlock, x, y);
    Extend(Start(maxBlock), s1, StepConsumer, s2);
  }

  lemma StuckIsReached<T(!new)>(maxBlock: nat, x: T, y: T)
    requires 2 <= maxBlock
    ensures Reaches(Start(maxBlock), Stuck(maxBlock, x, y))
  {
    hide Reaches, Start, Grown, Moved, Lost, Stuck;
    ReachesSelf<T>(Start(maxBlock));
    GrowAsk(maxBlock, x);
    GrowLink(maxBlock, x);
    MoveCheck(maxBlock, x);
    MoveEnter(maxBlock, x);
    MoveFront(maxBlock, x);
    LoseCheck(maxBlock, x, y);
    LoseEnter(maxBlock, x, y);
    LosePublish(maxBlock, x, y);
    StuckTake(maxBlock, x, y);
    StuckCheck(maxBlock, x, y);
    StuckEnter(maxBlock, x, y);
  }

  /** From a queue constructed for zero elements, two enqueues and two dequeues reach a failing assert,
      whatever the elements. For every other size, QueueRuns.RunIsSafe rules this out. */
  lemma ZeroSizeFailsAssert<T(!new)>(maxBlock: nat, x: T, y: T)
    requires 2 <= maxBlock
    ensures Start<T>(maxBlock) == Created(0, maxBlock)
    ensures Reaches(Start(maxBlock), Stuck(maxBlock, x, y))
    ensures Steppable(Stuck(maxBlock, x, y)) && !AssertsHold(Stuck(maxBlock, x, y))
  {
    hide Reaches;
    var f: State<T> := FreshState([FreshBlock(1, 0)], 1, maxBlock);
    assert f.blocks[0].data == [None] && f.ring == [0] && f.base == [0];
    StuckIsReached(maxBlock, x, y);
  }
}
