/** The blocking queue: an enqueue is followed by a signal, a dequeue is preceded by a wait. */
module BlockingQueue {
  import opened ReaderWriterQueue
  import QueueRuns
  import O = QueueOutcomes
  import S = Semaphore

  datatype ProducerPhase = PReady | PEnqueuing | PSignalling

  /** The blocking operations: `try_dequeue` and `pop` only probe the semaphore, `wait_dequeue` waits
      again after every failed wait, `wait_dequeue_timed` waits once. */
  datatype Dequeue = TryDequeueOp | PopOp | WaitOp | WaitTimedOp(timeout: S.Timeout)

  datatype ConsumerPhase = CReady | CWaiting(op: Dequeue) | CDequeuing(op: Dequeue) | CPeeking

  datatype Channel<T> = Channel(q: State<T>, m: S.Sema, pp: ProducerPhase, cp: ConsumerPhase)

  function InnerOp(op: Dequeue): Op {
    if op.PopOp? then Pop else TryDequeue
  }

  function WaitLabel(op: Dequeue): S.Label {
    match op
    case TryDequeueOp => S.CallWait(false, S.Instant)
    case PopOp => S.CallWait(false, S.Instant)
    case WaitOp => S.CallWait(true, S.Forever)
    case WaitTimedOp(timeout) => S.CallWait(true, timeout)
  }

  datatype Label<T> =
    | Enqueue(x: T, canAlloc: bool)
    | EnqueueStep
    | EnqueueNoMemory
    | SignalStep
    | Dequeue(op: Dequeue)
    | WaitStep
    | WaitExpires
    | DequeueStep
    | Peek
    | PeekStep

  ghost predicate Enabled<T>(s: Channel<T>, l: Label<T>) {
    Steppable(s.q) &&
    match l
    case Enqueue(_, _) => s.pp.PReady? && s.q.p.PIdle?
    case EnqueueStep => s.pp.PEnqueuing? && !s.q.p.PIdle?
    case EnqueueNoMemory => s.pp.PEnqueuing? && s.q.p.PAllocate?
    case SignalStep => s.pp.PSignalling? && !s.m.poster.SIdle?
    case Dequeue(_) => s.cp.CReady? && s.q.c.CIdle? && s.m.waiter.WIdle?
    case WaitStep => s.cp.CWaiting? && s.q.c.CIdle? && S.Enabled(s.m, S.StepWait)
    case WaitExpires => s.cp.CWaiting? && S.Enabled(s.m, S.ExpireWait)
    case DequeueStep => s.cp.CDequeuing? && !s.q.c.CIdle?
    case Peek => s.cp.CReady? && s.q.c.CIdle?
    case PeekStep => s.cp.CPeeking? && !s.q.c.CIdle?
  }

  function AfterEnqueue<T>(s: Channel<T>, q': State<T>): Channel<T> {
    if q'.p == PIdle(Accepted) then s.(q := q', pp := PSignalling, m := s.m.(poster := S.SAdd(1)))
    else if q'.p.PIdle? then s.(q := q', pp := PReady)
    else s.(q := q')
  }

  function AfterSignal<T>(s: Channel<T>, m': S.Sema): Channel<T> {
    s.(m := m', pp := if m'.poster.SIdle? then PReady else PSignalling)
  }

  ghost function AfterWait<T>(s: Channel<T>, m': S.Sema): Channel<T>
    requires Shape(s.q) && s.cp.CWaiting?
  {
    if m'.waiter == S.WIdle(S.Acquired) then
      s.(m := m', cp := CDequeuing(s.cp.op), q := BeginDequeue(s.q, InnerOp(s.cp.op)))
    else if m'.waiter.WIdle? then
      if s.cp.op.WaitOp? then s.(m := S.Apply(m', WaitLabel(s.cp.op))) else s.(m := m', cp := CReady)
    else s.(m := m')
  }

  function AfterDequeue<T>(s: Channel<T>, q': State<T>): Channel<T> {
    if q'.c.CIdle? then s.(q := q', cp := CReady) else s.(q := q')
  }

  ghost function Apply<T>(s: Channel<T>, l: Label<T>): Channel<T>
    requires Enabled(s, l)
  {
    match l
    case Enqueue(x, canAlloc) => s.(q := BeginEnqueue(s.q, x, canAlloc), pp := PEnqueuing)
    case EnqueueStep => AfterEnqueue(s, ProducerStep(s.q))
    case EnqueueNoMemory => AfterEnqueue(s, s.q.(p := PIdle(NoMemory)))
    case SignalStep => AfterSignal(s, S.StepPoster(s.m))
    case Dequeue(op) => s.(m := S.Apply(s.m, WaitLabel(op)), cp := CWaiting(op))
    case WaitStep => AfterWait(s, S.StepWaiter(s.m))
    case WaitExpires => s.(m := S.Apply(s.m, S.ExpireWait))
    case DequeueStep => AfterDequeue(s, ConsumerStep(s.q))
    case Peek => s.(q := BeginDequeue(s.q, ReaderWriterQueue.Peek), cp := CPeeking)
    case PeekStep => AfterDequeue(s, ConsumerStep(s.q))
  }

  // ------------------------------------------------------------------ invariant

  /** Elements enqueued whose signal has not been counted yet. */
  function Unsignalled<T>(s: Channel<T>): nat {
    if s.pp.PSignalling? && s.m.poster.SAdd? then 1 else 0
  }

  /** Units acquired whose element has not been removed yet. */
  function Unused<T>(s: Channel<T>): nat {
    if s.cp.CDequeuing? then 1 else 0
  }

  ghost predicate Inv<T>(s: Channel<T>) {
    && ReaderWriterQueue.Inv(s.q) && S.Inv(s.m)
    && Counted(s) && Phased(s)
  }

  /** Signals are enqueues, acquired units are dequeues. */
  predicate Counted<T>(s: Channel<T>) {
    && |s.q.enq| == s.m.posted + Unsignalled(s)
    && s.m.acquired == |s.q.deq| + Unused(s)
  }

  predicate Phased<T>(s: Channel<T>) {
    && (s.pp.PEnqueuing? <==> !s.q.p.PIdle?)
    && (s.pp.PSignalling? <==> !s.m.poster.SIdle?)
    && (s.m.poster.SAdd? ==> s.m.poster.n == 1)
    && (s.cp.CWaiting? <==> !s.m.waiter.WIdle?)
    && (s.cp.CDequeuing? || s.cp.CPeeking? <==> !s.q.c.CIdle?)
    && (s.cp.CDequeuing? ==> WorksOn(s.q.c, InnerOp(s.cp.op)))
    && (s.cp.CPeeking? ==> WorksOn(s.q.c, ReaderWriterQueue.Peek))
    // holding a unit, the consumer reaches the tail-block check only with another block ahead
    && (s.cp.CDequeuing? && s.q.c.CCheckTailBlock? ==> 0 < s.q.tailPos)
  }

  predicate WorksOn<T>(c: Consumer<T>, op: Op) {
    !c.CIdle? && (if c.CPublishFront? then op != ReaderWriterQueue.Peek else c.op == op)
  }

  // ------------------------------------------------------------------ effects of the parts

  lemma EnqueueEffect<T>(q: State<T>)
    requires ReaderWriterQueue.Inv(q) && !q.p.PIdle?
    ensures var q' := ProducerStep(q);
      && q'.c == q.c && q'.deq == q.deq && q.tailPos <= q'.tailPos
      && |q'.enq| == |q.enq| + (if q'.p == PIdle(Accepted) then 1 else 0)
  {
    assert Shape(q) && ProducerInRange(q);
    hide ReaderWriterQueue.Inv, Shape;
  }

  lemma DequeueEffect<T>(q: State<T>, op: Op)
    requires ReaderWriterQueue.Inv(q) && WorksOn(q.c, op) && Steppable(q)
    ensures var q' := ConsumerStep(q);
      && q'.p == q.p && q'.enq == q.enq
      && q'.deq == q.deq + (if q'.c.CIdle? && q'.c.last.Got? then [q'.c.last.x] else [])
      && (q'.c.CIdle? || WorksOn(q'.c, op))
      && (q'.c.CIdle? && q'.c.last.Got? ==> op != ReaderWriterQueue.Peek)
      && (q'.c.CIdle? && q'.c.last.Peeked? ==> op == ReaderWriterQueue.Peek)
      && (q'.c.CIdle? && !q'.c.last.Got? && !q'.c.last.Peeked? ==> q.c.CCheckTailBlock? && q.tailPos == 0)
  {
  }

  /** With an element in the queue, an empty front block means another block is ahead. */
  lemma NonEmptyHasBlockAhead<T>(q: State<T>)
    requires ReaderWriterQueue.Inv(q) && !q.c.CIdle? && Steppable(q) && |q.deq| < |q.enq|
    ensures ConsumerStep(q).c.CCheckTailBlock? ==> 0 < ConsumerStep(q).tailPos
  {
  }

  lemma BeginDequeueEffect<T>(q: State<T>, op: Op)
    requires ReaderWriterQueue.Inv(q) && q.c.CIdle?
    ensures var q' := BeginDequeue(q, op);
      q'.p == q.p && q'.enq == q.enq && q'.deq == q.deq && WorksOn(q'.c, op) && !q'.c.CCheckTailBlock?
  {
  }

  // ------------------------------------------------------------------ every step keeps the invariant

  lemma EnqueueKeepsInv<T>(s: Channel<T>, l: Label<T>)
    requires Inv(s) && Enabled(s, l) && (l.Enqueue? || l.EnqueueStep? || l.EnqueueNoMemory?)
    ensures Inv(Apply(s, l))
  {
    hide ReaderWriterQueue.Inv, ProducerStep, BeginEnqueue, Steppable;
    match l
    case Enqueue(x, canAlloc) => BeginEnqueueKeepsInv(s.q, x, canAlloc); BeginEnqueueEffect(s.q, x, canAlloc);
    case EnqueueStep => ProducerStepKeepsInv(s.q); EnqueueEffect(s.q);
    case EnqueueNoMemory => FailAllocationKeepsInv(s.q);
  }

  lemma BeginEnqueueEffect<T>(q: State<T>, x: T, canAlloc: bool)
    requires ReaderWriterQueue.Inv(q)
    ensures var q' := BeginEnqueue(q, x, canAlloc);
      q'.c == q.c && q'.enq == q.enq && q'.deq == q.deq && q'.tailPos == q.tailPos && !q'.p.PIdle?
  {
  }

  lemma SignalKeepsInv<T>(s: Channel<T>)
    requires Inv(s) && Enabled(s, SignalStep)
    ensures Inv(Apply(s, SignalStep))
  {
    hide ReaderWriterQueue.Inv, Steppable;
    S.ApplyKeepsInv(s.m, S.StepSignal);
  }

  lemma WaitStepKeepsInv<T>(s: Channel<T>)
    requires Inv(s) && Enabled(s, WaitStep)
    ensures Inv(Apply(s, WaitStep))
  {
    hide ReaderWriterQueue.Inv, BeginDequeue, Steppable;
    S.ApplyKeepsInv(s.m, S.StepWait);
    BeginDequeueKeepsInv(s.q, InnerOp(s.cp.op));
    BeginDequeueEffect(s.q, InnerOp(s.cp.op));
    var m' := S.StepWaiter(s.m);
    if m'.waiter.WIdle? { S.ApplyKeepsInv(m', WaitLabel(s.cp.op)); }
  }

  lemma WaitKeepsInv<T>(s: Channel<T>, l: Label<T>)
    requires Inv(s) && Enabled(s, l) && (l.Dequeue? || l.WaitExpires?)
    ensures Inv(Apply(s, l))
  {
    hide ReaderWriterQueue.Inv, BeginDequeue, Steppable;
    match l
    case Dequeue(op) => S.ApplyKeepsInv(s.m, WaitLabel(op));
    case WaitExpires => S.ApplyKeepsInv(s.m, S.ExpireWait);
  }

  lemma DequeueKeepsInv<T>(s: Channel<T>, l: Label<T>)
    requires Inv(s) && Enabled(s, l) && (l.DequeueStep? || l.Peek? || l.PeekStep?)
    ensures Inv(Apply(s, l))
  {
    hide ReaderWriterQueue.Inv, ConsumerStep, BeginDequeue, Steppable;
    match l
    case DequeueStep =>
      ConsumerStepKeepsInv(s.q);
      DequeueEffect(s.q, InnerOp(s.cp.op));
      NonEmptyHasBlockAhead(s.q);
    case Peek =>
      BeginDequeueKeepsInv(s.q, ReaderWriterQueue.Peek);
      BeginDequeueEffect(s.q, ReaderWriterQueue.Peek);
    case PeekStep =>
      ConsumerStepKeepsInv(s.q);
      DequeueEffect(s.q, ReaderWriterQueue.Peek);
  }

  lemma ApplyKeepsInv<T>(s: Channel<T>, l: Label<T>)
    requires Inv(s) && Enabled(s, l)
    ensures Inv(Apply(s, l))
  {
    hide Inv, Apply;
    match l
    case Enqueue(_, _) => EnqueueKeepsInv(s, l);
    case EnqueueStep => EnqueueKeepsInv(s, l);
    case EnqueueNoMemory => EnqueueKeepsInv(s, l);
    case SignalStep => SignalKeepsInv(s);
    case Dequeue(_) => WaitKeepsInv(s, l);
    case WaitStep => WaitStepKeepsInv(s);
    case WaitExpires => WaitKeepsInv(s, l);
    case DequeueStep => DequeueKeepsInv(s, l);
    case Peek => DequeueKeepsInv(s, l);
    case PeekStep => DequeueKeepsInv(s, l);
  }

  // ------------------------------------------------------------------ runs

  ghost predicate StepsTo<T>(s: Channel<T>, l: Label<T>, s': Channel<T>) {
    Enabled(s, l) && s' == Apply(s, l)
  }

  ghost predicate IsRun<T>(run: seq<Channel<T>>, labels: seq<Label<T>>) {
    && |run| == |labels| + 1
    && forall i | 0 <= i < |labels| :: StepsTo(run[i], labels[i], run[i + 1])
  }

  /** A channel around a queue that nobody has used yet. */
  lemma UnusedChannelIsGood<T>(s: Channel<T>)
    requires ReaderWriterQueue.Inv(s.q) && s.m == S.INITIAL && s.pp.PReady? && s.cp.CReady?
    requires s.q.p.PIdle? && s.q.c.CIdle? && |s.q.enq| == 0 && |s.q.deq| == 0
    ensures Inv(s)
  {
    UnusedIsCounted(s);
  }

  /** So is one around a queue as it is constructed for at least one element. */
  lemma NewChannelIsGood<T>(s: Channel<T>, requested: nat, maxBlock: nat)
    requires 2 <= maxBlock && 1 <= requested && s.q == QueueRuns.Created(requested, maxBlock)
    requires s.m == S.INITIAL && s.pp.PReady? && s.cp.CReady?
    ensures Inv(s)
  {
    QueueRuns.CreatedIsSound<T>(requested, maxBlock);
    hide QueueRuns.Created;
    UnusedChannelIsGood(s);
  }

  lemma UnusedIsCounted<T>(s: Channel<T>)
    requires s.m == S.INITIAL && s.pp.PReady? && s.cp.CReady?
    requires s.q.p.PIdle? && s.q.c.CIdle? && |s.q.enq| == 0 && |s.q.deq| == 0
    ensures Counted(s) && Phased(s)
  {
  }

  lemma {:induction false} RunKeepsInv<T>(run: seq<Channel<T>>, labels: seq<Label<T>>, i: nat)
    requires IsRun(run, labels) && Inv(run[0]) && i < |run|
    ensures Inv(run[i])
  {
    hide Inv, Apply, Enabled;
    if 0 < i {
      RunKeepsInv(run, labels, i - 1);
      assert StepsTo(run[i - 1], labels[i - 1], run[i - 1 + 1]);
      ApplyKeepsInv(run[i - 1], labels[i - 1]);
    }
  }

  /** The assert after every wait: an operation that acquired a unit always gets an element, and it is the
      next one in FIFO order. */
  lemma AcquiredMeansElement<T>(run: seq<Channel<T>>, labels: seq<Label<T>>, i: nat)
    requires IsRun(run, labels) && Inv(run[0]) && 0 < i < |run|
    requires run[i - 1].cp.CDequeuing? && run[i].cp.CReady?
    ensures run[i].q.c.CIdle? && run[i].q.c.last.Got?
    ensures run[i].q.deq == run[i - 1].q.deq + [run[i].q.c.last.x]
    ensures run[i].q.deq <= run[i].q.enq
  {
    hide ReaderWriterQueue.Inv, ConsumerStep, BeginDequeue, BeginEnqueue, ProducerStep, Steppable;
    RunKeepsInv(run, labels, i - 1);
    RunKeepsInv(run, labels, i);
    assert StepsTo(run[i - 1], labels[i - 1], run[i - 1 + 1]);
    if labels[i - 1].DequeueStep? {
      DequeueEffect(run[i - 1].q, InnerOp(run[i - 1].cp.op));
    }
    InvIsFifo(run[i].q);
  }

  /** A dequeue gives up only when every element whose signal was counted had been removed. */
  lemma TimedOutMeansDrained<T>(run: seq<Channel<T>>, labels: seq<Label<T>>, i: nat)
    requires IsRun(run, labels) && Inv(run[0]) && 0 < i < |run|
    requires run[i - 1].cp.CWaiting? && run[i].cp.CReady?
    ensures |run[i].q.deq| == run[i].m.posted == |run[i].q.enq| - Unsignalled(run[i])
  {
    hide ReaderWriterQueue.Inv, ConsumerStep, BeginDequeue, BeginEnqueue, ProducerStep, Steppable;
    RunKeepsInv(run, labels, i - 1);
    RunKeepsInv(run, labels, i);
    assert StepsTo(run[i - 1], labels[i - 1], run[i - 1 + 1]);
  }

  lemma InvIsFifo<T>(q: State<T>)
    requires ReaderWriterQueue.Inv(q)
    ensures q.deq <= q.enq
  {
  }

  /** `size_approx` and a quiet channel: the semaphore count is the number of elements. */
  lemma QuietCountIsSize<T>(s: Channel<T>)
    requires Inv(s) && s.pp.PReady? && (s.cp.CReady? || s.cp.CPeeking?)
    ensures s.m.count == |s.q.enq| - |s.q.deq|
  {
  }

  // ------------------------------------------------------------------ what an operation ends with

  /** An enqueue starts at step `i` and is at work before `run[j]`. */
  ghost predicate EnqueueBusy<T>(run: seq<Channel<T>>, labels: seq<Label<T>>, i: nat, j: nat) {
    && IsRun(run, labels) && i < j < |run| && labels[i].Enqueue?
    && forall k | i < k < j :: run[k].pp.PEnqueuing?
  }

  lemma OthersLeaveProducer<T>(s: Channel<T>, l: Label<T>)
    requires Enabled(s, l) && s.pp.PEnqueuing? && !l.EnqueueStep? && !l.EnqueueNoMemory?
    ensures var s' := Apply(s, l); s'.q.p == s.q.p && s'.q.enq == s.q.enq && s'.pp == s.pp
  {
    if l.DequeueStep? || l.PeekStep? { QueueRuns.ConsumerFrame(s.q, StepConsumer); }
    hide ConsumerStep;
  }

  lemma EnqueueGetsOn<T>(s: Channel<T>, l: Label<T>, x: T, canAlloc: bool)
    requires Enabled(s, l) && s.pp.PEnqueuing? && O.EnqueuesFor(s.q.p, x, canAlloc)
    ensures var s' := Apply(s, l);
      if s'.pp.PEnqueuing? then O.EnqueuesFor(s'.q.p, x, canAlloc) && s'.q.enq == s.q.enq
      else
        && s'.q.p.PIdle? && (s'.q.p.last.Accepted? <==> s'.pp.PSignalling?)
        && (s'.pp.PSignalling? ==> s'.m.poster == S.SAdd(1))
        && (l.EnqueueStep? || l.EnqueueNoMemory?)
        && O.EnqueueEnds(s.q, s'.q, if l.EnqueueStep? then StepProducer else FailAllocation, x, canAlloc)
  {
    assert Steppable(s.q);
    hide Steppable, O.EnqueuesFor;
    if l.EnqueueStep? {
      O.ProducerGetsOn(s.q, StepProducer, x, canAlloc);
      hide ProducerStep;
      EnqueuesMeansBusy(ProducerStep(s.q).p, x, canAlloc);
    } else if l.EnqueueNoMemory? {
      O.ProducerGetsOn(s.q, FailAllocation, x, canAlloc);
    } else {
      OthersLeaveProducer(s, l);
      hide Apply;
    }
  }

  lemma EnqueuesMeansBusy<T>(p: Producer<T>, x: T, canAlloc: bool)
    ensures O.EnqueuesFor(p, x, canAlloc) ==> !p.PIdle?
  {
  }

  lemma {:induction false} EnqueueInProgress<T>(run: seq<Channel<T>>, labels: seq<Label<T>>, i: nat, j: nat)
    requires EnqueueBusy(run, labels, i, j) && run[j].pp.PEnqueuing?
    ensures O.EnqueuesFor(run[j].q.p, labels[i].x, labels[i].canAlloc) && run[j].q.enq == run[i].q.enq
    decreases j
  {
    var h := j - 1;
    assert StepsTo(run[h], labels[h], run[h + 1]);
    if h == i {
      O.BeginsEnqueue(run[i].q, labels[i].x, labels[i].canAlloc);
      hide O.EnqueuesFor, BeginEnqueue, Steppable;
    } else {
      hide O.EnqueuesFor, Apply, Enabled;
      EnqueueInProgress(run, labels, i, h);
      EnqueueGetsOn(run[h], labels[h], labels[i].x, labels[i].canAlloc);
    }
  }

  /** Over every interleaving: an enqueue is accepted, with its element added last, and goes on to signal one
      unit; or it is refused, with nothing added: for lack of room only if it may not allocate, for lack of
      memory only if the allocator failed. */
  lemma EnqueueOutcome<T>(run: seq<Channel<T>>, labels: seq<Label<T>>, i: nat, j: nat)
    requires EnqueueBusy(run, labels, i, j) && !run[j].pp.PEnqueuing?
    ensures run[j].q.p.PIdle?
    ensures match run[j].q.p.last
      case Accepted =>
        run[j].q.enq == run[i].q.enq + [labels[i].x] && run[j].pp.PSignalling? && run[j].m.poster == S.SAdd(1)
      case NoRoom => !labels[i].canAlloc && run[j].q.enq == run[i].q.enq && run[j].pp.PReady?
      case NoMemory =>
        labels[j - 1].EnqueueNoMemory? && labels[i].canAlloc && run[j].q.enq == run[i].q.enq && run[j].pp.PReady?
      case NoEnqueue => false
  {
    var h := j - 1;
    assert StepsTo(run[h], labels[h], run[h + 1]);
    assert i < h by { if h == i { hide BeginEnqueue, Steppable; } }
    hide O.EnqueuesFor, Apply, Enabled;
    EnqueueInProgress(run, labels, i, h);
    EnqueueGetsOn(run[h], labels[h], labels[i].x, labels[i].canAlloc);
  }

  /** `wait_dequeue` waits until it has a unit: it does not give up. */
  lemma WaitNeverGivesUp<T>(run: seq<Channel<T>>, labels: seq<Label<T>>, i: nat)
    requires IsRun(run, labels) && 0 < i < |run| && run[i - 1].cp == CWaiting(WaitOp)
    ensures run[i].cp == CWaiting(WaitOp) || (run[i].cp == CDequeuing(WaitOp) && run[i].m.waiter == S.WIdle(S.Acquired))
  {
    var h := i - 1;
    assert StepsTo(run[h], labels[h], run[h + 1]);
    hide BeginDequeue, BeginEnqueue, ProducerStep, ConsumerStep, Steppable;
  }
}
