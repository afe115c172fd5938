/** What each operation of the queue ends with, over every interleaving, and that it ends. */
module QueueOutcomes {
  import opened Options
  import opened ReaderWriterQueue
  import opened QueueRuns

  // ------------------------------------------------------------------ enqueue

  /** The producer is at work on an enqueue of `x`; only one that may allocate gets to allocating. */
  predicate EnqueuesFor<T(==)>(p: Producer<T>, x: T, canAlloc: bool) {
    && !p.PIdle? && p.x == x
    && (p.PReloadFront? || p.PCheckNext? ==> p.canAlloc == canAlloc)
    && (p.PAllocate? || p.PLink? ==> canAlloc)
  }

  /** How an enqueue of `x` may end: accepted, with `x` last in the log; refused for lack of room, which only
      one that may not allocate can be; or refused by the allocator. Nothing else is logged. */
  predicate EnqueueEnds<T(==)>(s: State<T>, s': State<T>, l: Label<T>, x: T, canAlloc: bool)
    requires s'.p.PIdle?
  {
    match s'.p.last
    case Accepted => l.StepProducer? && s'.enq == s.enq + [x]
    case NoRoom => l.StepProducer? && !canAlloc && s'.enq == s.enq
    case NoMemory => l.FailAllocation? && canAlloc && s'.enq == s.enq
    case NoEnqueue => false
  }

  lemma BeginsEnqueue<T>(s: State<T>, x: T, canAlloc: bool)
    requires Steppable(s)
    ensures var s' := BeginEnqueue(s, x, canAlloc); EnqueuesFor(s'.p, x, canAlloc) && s'.enq == s.enq
  {
  }

  lemma ProducerGetsOn<T>(s: State<T>, l: Label<T>, x: T, canAlloc: bool)
    requires Steppable(s) && Enabled(s, l) && (l.StepProducer? || l.FailAllocation?) && EnqueuesFor(s.p, x, canAlloc)
    ensures var s' := Apply(s, l);
      if s'.p.PIdle? then EnqueueEnds(s, s', l, x, canAlloc) else EnqueuesFor(s'.p, x, canAlloc) && s'.enq == s.enq
  {
    assert Shape(s) && ProducerInRange(s);
    hide Shape, ProducerInRange, Steppable;
  }

  /** Steps the producer has left at most, whatever the consumer does. */
  function ProducerLeft<T>(p: Producer<T>): nat {
    match p
    case PIdle(_) => 0
    case PReloadFront(_, _, _, _) => 6
    case PCheckNext(_, _, _) => 5
    case PEnterNext(_, _) => 4
    case PConstructNext(_, _, _) => 3
    case PAllocate(_, _) => 3
    case PPublishNext(_, _, _) => 2
    case PLink(_, _, _) => 2
    case PConstruct(_, _, _) => 2
    case PPublishTail(_, _, _) => 1
    case PAdvance(_, _) => 1
  }

  lemma ProducerComesCloser<T>(s: State<T>, l: Label<T>)
    requires Steppable(s) && Enabled(s, l) && (l.StepProducer? || l.FailAllocation?)
    ensures ProducerLeft(Apply(s, l).p) < ProducerLeft(s.p)
  {
    assert Shape(s) && ProducerInRange(s);
    hide Shape, ProducerInRange, Steppable;
  }

  // ------------------------------------------------------------------ dequeue

  /** The consumer is at work on `op`. */
  predicate DequeuesFor<T>(c: Consumer<T>, op: Op) {
    !c.CIdle? && if c.CPublishFront? then op != Peek else c.op == op
  }

  /** How a dequeue may end: with the oldest element, which `peek` leaves and the others remove, or empty. */
  predicate DequeueEnds<T(==)>(s: State<T>, s': State<T>, op: Op)
    requires s'.c.CIdle?
  {
    match s'.c.last
    case Got(x) => op != Peek && |s.deq| < |s.enq| && x == s.enq[|s.deq|] && s'.deq == s.deq + [x]
    case Peeked(x) => op == Peek && |s.deq| < |s.enq| && x == s.enq[|s.deq|] && s'.deq == s.deq
    case Empty => s'.deq == s.deq
    case NoDequeue => false
  }

  lemma BeginsDequeue<T>(s: State<T>, op: Op)
    requires Steppable(s)
    ensures var s' := BeginDequeue(s, op); DequeuesFor(s'.c, op) && s'.deq == s.deq
  {
  }

  lemma PublishedIsOldest<T>(s: State<T>)
    requires Inv(s) && s.c.CPublishFront?
    ensures |s.deq| < |s.enq| && s.c.x == s.enq[|s.deq|]
  {
    assert ConsumerOk(s) && Fifo(s);
    hide Shape, Chained, Slots, ProducerOk;
  }

  /** Short of the end, nothing is removed. */
  lemma ConsumerSearches<T>(s: State<T>, op: Op)
    requires Steppable(s) && DequeuesFor(s.c, op) && !s.c.CPublishFront? && !(s.c.CTake? && op == Peek)
    ensures var s' := ConsumerStep(s);
      s'.deq == s.deq && if s'.c.CIdle? then s'.c.last.Empty? else DequeuesFor(s'.c, op)
  {
    assert Shape(s) && ConsumerInRange(s);
    hide Shape, Steppable;
  }

  lemma ConsumerGetsOn<T>(s: State<T>, op: Op)
    requires Inv(s) && Steppable(s) && DequeuesFor(s.c, op)
    ensures var s' := ConsumerStep(s);
      if s'.c.CIdle? then DequeueEnds(s, s', op) else DequeuesFor(s'.c, op) && s'.deq == s.deq
  {
    assert Shape(s) && ConsumerInRange(s);
    hide Inv, Shape, Steppable, ConsumerInRange;
    if s.c.CPublishFront? {
      PublishedIsOldest(s);
    } else if s.c.CTake? && op == Peek {
      SlotIsLive(s);
    } else {
      ConsumerSearches(s, op);
      hide ConsumerStep;
    }
  }

  /** Steps the consumer has left at most, whatever the producer does. */
  function ConsumerLeft<T>(c: Consumer<T>): nat {
    match c
    case CIdle(_) => 0
    case CReloadTail(_, _, _) => 8
    case CCheckTailBlock(_, _) => 7
    case CRecheck(_, _) => 6
    case CLoadNext(_, _) => 5
    case CEnterNext(_, _) => 4
    case CAdvance(_, _, _) => 3
    case CTake(_, _, _) => 2
    case CPublishFront(_, _, _) => 1
  }

  lemma ConsumerComesCloser<T>(s: State<T>)
    requires Steppable(s) && !s.c.CIdle?
    ensures ConsumerLeft(ConsumerStep(s).c) < ConsumerLeft(s.c)
  {
    assert Shape(s) && ConsumerInRange(s);
    hide Shape, Steppable;
  }

  // ------------------------------------------------------------------ whole operations

  lemma {:induction false} EnqueueInProgress<T>(run: seq<State<T>>, labels: seq<Label<T>>, i: nat, j: nat)
    requires ProducerBusy(run, labels, i, j) && !run[j].p.PIdle?
    ensures EnqueuesFor(run[j].p, labels[i].x, labels[i].canAlloc) && run[j].enq == run[i].enq
    decreases j
  {
    var h := j - 1;
    assert StepsTo(run[h], labels[h], run[h + 1]);
    hide Apply, Steppable, EnqueuesFor;
    if h == i {
      CallBegins(run[i], labels[i]);
    } else {
      EnqueueInProgress(run, labels, i, h);
      if ByProducer(labels[h]) {
        ProducerGetsOn(run[h], labels[h], labels[i].x, labels[i].canAlloc);
      } else {
        ConsumerFrame(run[h], labels[h]);
      }
    }
  }

  lemma CallBegins<T>(s: State<T>, l: Label<T>)
    requires Steppable(s) && Enabled(s, l)
    ensures l.CallEnqueue? ==> EnqueuesFor(Apply(s, l).p, l.x, l.canAlloc) && Apply(s, l).enq == s.enq
    ensures l.CallDequeue? ==> DequeuesFor(Apply(s, l).c, l.op) && Apply(s, l).deq == s.deq
  {
    if l.CallEnqueue? { BeginsEnqueue(s, l.x, l.canAlloc); }
    if l.CallDequeue? { BeginsDequeue(s, l.op); }
  }

  /** The call ends with the step before `run[j]`. */
  ghost predicate EnqueueReturns<T>(run: seq<State<T>>, labels: seq<Label<T>>, i: nat, j: nat) {
    ProducerBusy(run, labels, i, j) && run[j].p.PIdle?
  }

  /** Over every interleaving an enqueue ends accepted, with its element added last and nothing else; or
      refused, with nothing added: for lack of room only if it may not allocate, and for lack of memory only
      if the allocator failed. */
  lemma EnqueueOutcome<T>(run: seq<State<T>>, labels: seq<Label<T>>, i: nat, j: nat)
    requires EnqueueReturns(run, labels, i, j)
    ensures match run[j].p.last
      case Accepted => run[j].enq == run[i].enq + [labels[i].x]
      case NoRoom => !labels[i].canAlloc && run[j].enq == run[i].enq
      case NoMemory => labels[j - 1].FailAllocation? && labels[i].canAlloc && run[j].enq == run[i].enq
      case NoEnqueue => false
  {
    var h := j - 1;
    assert StepsTo(run[h], labels[h], run[h + 1]);
    hide Apply, Steppable;
    if h == i {
      CallBegins(run[i], labels[i]);
    } else {
      EnqueueInProgress(run, labels, i, h);
      if ByProducer(labels[h]) {
        ProducerGetsOn(run[h], labels[h], labels[i].x, labels[i].canAlloc);
      } else {
        ConsumerFrame(run[h], labels[h]);
      }
    }
  }

  /** An enqueue that may allocate is accepted unless the allocator fails. */
  lemma AllocatingEnqueueIsAccepted<T>(run: seq<State<T>>, labels: seq<Label<T>>, i: nat, j: nat)
    requires EnqueueReturns(run, labels, i, j) && labels[i].canAlloc && !labels[j - 1].FailAllocation?
    ensures run[j].p == PIdle(Accepted) && run[j].enq == run[i].enq + [labels[i].x]
  {
    EnqueueOutcome(run, labels, i, j);
  }

  lemma {:induction false} DequeueInProgress<T>(run: seq<State<T>>, labels: seq<Label<T>>, i: nat, j: nat)
    requires ConsumerBusy(run, labels, i, j) && Inv(run[0]) && !run[j].c.CIdle?
    ensures DequeuesFor(run[j].c, labels[i].op) && run[j].deq == run[i].deq
    decreases j
  {
    var h := j - 1;
    assert StepsTo(run[h], labels[h], run[h + 1]);
    RunKeepsInv(run, labels, h);
    hide Apply, Steppable, DequeuesFor, Inv;
    if h == i {
      CallBegins(run[i], labels[i]);
    } else {
      DequeueInProgress(run, labels, i, h);
      if ByProducer(labels[h]) {
        ProducerFrame(run[h], labels[h]);
      } else {
        ConsumerTakesStep(run[h], labels[h], labels[i].op);
      }
    }
  }

  lemma ConsumerTakesStep<T>(s: State<T>, l: Label<T>, op: Op)
    requires Inv(s) && Steppable(s) && Enabled(s, l) && !ByProducer(l) && DequeuesFor(s.c, op)
    ensures var s' := Apply(s, l);
      if s'.c.CIdle? then DequeueEnds(s, s', op) else DequeuesFor(s'.c, op) && s'.deq == s.deq
  {
    hide Inv, Steppable, ConsumerStep;
    ConsumerGetsOn(s, op);
  }

  /** Over every interleaving a dequeue ends with the oldest element of the queue, which `peek` leaves and
      `try_dequeue` and `pop` remove, or empty, with nothing removed. */
  lemma DequeueOutcome<T>(run: seq<State<T>>, labels: seq<Label<T>>, i: nat, j: nat)
    requires ConsumerBusy(run, labels, i, j) && Inv(run[0]) && run[j].c.CIdle?
    ensures match run[j].c.last
      case Got(x) => labels[i].op != Peek && run[j].deq == run[i].deq + [x] && run[j].deq <= run[j].enq
      case Peeked(x) => labels[i].op == Peek && run[j].deq == run[i].deq && run[j].deq + [x] <= run[j].enq
      case Empty => run[j].deq == run[i].deq
      case NoDequeue => false
  {
    var h := j - 1;
    assert StepsTo(run[h], labels[h], run[h + 1]);
    RunKeepsInv(run, labels, h);
    RunKeepsInv(run, labels, j);
    assert Fifo(run[j]) && Fifo(run[h]);
    hide Apply, Steppable, Inv;
    if h == i {
      CallBegins(run[i], labels[i]);
    } else {
      DequeueInProgress(run, labels, i, h);
      if ByProducer(labels[h]) {
        ProducerFrame(run[h], labels[h]);
      } else {
        ConsumerTakesStep(run[h], labels[h], labels[i].op);
        ConsumerFrame(run[h], labels[h]);
      }
    }
  }

  /** How many of the steps from `i` up to `j` are the producer's. */
  function ProducerSteps<T>(labels: seq<Label<T>>, i: nat, j: nat): nat
    requires i <= j <= |labels|
    decreases j
  {
    if i == j then 0 else ProducerSteps(labels, i, j - 1) + if ByProducer(labels[j - 1]) then 1 else 0
  }

  lemma ProducerStepsNext<T>(labels: seq<Label<T>>, i: nat, h: nat)
    requires i <= h < |labels|
    ensures ProducerSteps(labels, i, i) == 0
    ensures ProducerSteps(labels, i, h + 1) == ProducerSteps(labels, i, h) + if ByProducer(labels[h]) then 1 else 0
  {
  }

  lemma OwnStep<T>(s: State<T>, l: Label<T>)
    requires Steppable(s) && Enabled(s, l)
    ensures var s' := Apply(s, l);
      if !ByProducer(l) then s'.p == s.p
      else if l.CallEnqueue? then ProducerLeft(s'.p) <= 6
      else ProducerLeft(s'.p) < ProducerLeft(s.p)
    ensures var s' := Apply(s, l);
      if ByProducer(l) then s'.c == s.c
      else if l.CallDequeue? then ConsumerLeft(s'.c) <= 8
      else ConsumerLeft(s'.c) < ConsumerLeft(s.c)
  {
    if l.CallEnqueue? { StartOfEnqueue(s, l); }
    if l.CallDequeue? { StartOfDequeue(s, l); }
    hide Steppable, Apply, ProducerLeft, ConsumerLeft;
    if ByProducer(l) {
      ProducerFrame(s, l);
      if !l.CallEnqueue? { ProducerComesCloser(s, l); }
    } else {
      ConsumerFrame(s, l);
      if !l.CallDequeue? { ConsumerStepCloser(s, l); }
    }
  }

  /** An enqueue takes at most seven steps of its own, whatever the consumer does in between. */
  lemma {:induction false} EnqueueIsWaitFree<T>(run: seq<State<T>>, labels: seq<Label<T>>, i: nat, j: nat)
    requires ProducerBusy(run, labels, i, j)
    ensures ProducerSteps(labels, i, j) + ProducerLeft(run[j].p) <= 7
    decreases j
  {
    var h := j - 1;
    assert StepsTo(run[h], labels[h], run[h + 1]);
    hide Apply, Steppable, ProducerLeft, ConsumerLeft, ProducerSteps;
    ProducerStepsNext(labels, i, h);
    OwnStep(run[h], labels[h]);
    if i < h { EnqueueIsWaitFree(run, labels, i, h); }
  }

  lemma StartOfEnqueue<T>(s: State<T>, l: Label<T>)
    requires Steppable(s) && Enabled(s, l) && l.CallEnqueue?
    ensures ProducerLeft(Apply(s, l).p) <= 6
  {
  }

  /** A dequeue takes at most nine, whatever the producer does. */
  lemma {:induction false} DequeueIsWaitFree<T>(run: seq<State<T>>, labels: seq<Label<T>>, i: nat, j: nat)
    requires ConsumerBusy(run, labels, i, j)
    ensures j - i - ProducerSteps(labels, i, j) + ConsumerLeft(run[j].c) <= 9
    decreases j
  {
    var h := j - 1;
    assert StepsTo(run[h], labels[h], run[h + 1]);
    hide Apply, Steppable, ProducerLeft, ConsumerLeft, ProducerSteps;
    ProducerStepsNext(labels, i, h);
    OwnStep(run[h], labels[h]);
    if i < h { DequeueIsWaitFree(run, labels, i, h); }
  }

  lemma StartOfDequeue<T>(s: State<T>, l: Label<T>)
    requires Steppable(s) && Enabled(s, l) && l.CallDequeue?
    ensures ConsumerLeft(Apply(s, l).c) <= 8
  {
  }

  lemma ConsumerStepCloser<T>(s: State<T>, l: Label<T>)
    requires Steppable(s) && Enabled(s, l) && !ByProducer(l) && !s.c.CIdle?
    ensures ConsumerLeft(Apply(s, l).c) < ConsumerLeft(s.c)
  {
    hide Steppable, ConsumerStep;
    ConsumerComesCloser(s);
  }
}
