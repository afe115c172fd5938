/** The single-producer/single-consumer queue: a ring of circular blocks that grows in the middle.
    Producer and consumer are program counters. Each step makes at most one access to a variable
    that the other thread may write (sequential consistency); accesses to variables the thread
    itself owns are folded into the neighbouring step. */
module ReaderWriterQueue {
  import opened Options

  // ------------------------------------------------------------------ circular indices

  /** `(i + 1) & sizeMask`; QueueRuns.MaskStep shows the mask form agrees. */
  function Inc(i: nat, size: nat): nat {
    if i + 1 == size then 0 else i + 1
  }

  /** Number of increments that lead from `a` to `b`. */
  function Dist(a: nat, b: nat, size: nat): int {
    if a <= b then b - a else b - a + size
  }

  // ------------------------------------------------------------------ state

  datatype Block<T> = Block(size: nat, front: nat, localTail: nat, tail: nat, localFront: nat,
                            next: nat, data: seq<Option<T>>)

  datatype EnqueueResult = NoEnqueue | Accepted | NoRoom | NoMemory

  /** Producer program counter inside `inner_enqueue`, with its locals. */
  datatype Producer<T> =
    | PIdle(last: EnqueueResult)
    | PReloadFront(x: T, canAlloc: bool, b: nat, t: nat)
    | PConstruct(x: T, b: nat, t: nat)
    | PPublishTail(x: T, b: nat, t: nat)
    | PCheckNext(x: T, canAlloc: bool, b: nat)
    | PEnterNext(x: T, b: nat)
    | PConstructNext(x: T, nb: nat, t: nat)
    | PPublishNext(x: T, nb: nat, t: nat)
    | PAllocate(x: T, b: nat)
    | PLink(x: T, b: nat, nb: nat)
    | PAdvance(x: T, nb: nat)

  datatype Op = TryDequeue | Pop | Peek

  datatype DequeueResult<T> = NoDequeue | Got(x: T) | Peeked(x: T) | Empty

  /** Consumer program counter inside `try_dequeue`, `pop` or `peek`, with its locals. */
  datatype Consumer<T> =
    | CIdle(last: DequeueResult<T>)
    | CReloadTail(op: Op, b: nat, f: nat)
    | CCheckTailBlock(op: Op, b: nat)
    | CRecheck(op: Op, b: nat)
    | CLoadNext(op: Op, b: nat)
    | CEnterNext(op: Op, nb: nat)
    | CAdvance(op: Op, nb: nat, f: nat)
    | CTake(op: Op, b: nat, f: nat)
    | CPublishFront(x: T, b: nat, f: nat)

  /** Shared memory, both program counters, and history: `enq` and `deq` are the values enqueued and
      removed so far; `ring` lists the blocks in ring order from `frontBlock`; `ring[tailPos]` is the
      tail block; `base[b]` is the position in `enq` of the element at the front of block `b`. */
  datatype State<T> = State(blocks: seq<Block<T>>, frontBlock: nat, tailBlock: nat,
                            largest: nat, maxBlock: nat,
                            p: Producer<T>, c: Consumer<T>,
                            enq: seq<T>, deq: seq<T>,
                            ring: seq<nat>, tailPos: nat, base: seq<nat>)

  datatype Label<T> =
    | CallEnqueue(x: T, canAlloc: bool)
    | StepProducer
    | FailAllocation
    | CallDequeue(op: Op)
    | StepConsumer

  // ------------------------------------------------------------------ invariant

  predicate BlockOk<T>(b: Block<T>) {
    && 1 <= b.size && b.front < b.size && b.tail < b.size
    && b.localFront < b.size && b.localTail < b.size && |b.data| == b.size
    // the producer's copy of `front` lags behind, so it can only under-report room
    && Dist(b.front, b.tail, b.size) <= Dist(b.localFront, b.tail, b.size)
    // the consumer's copy of `tail` lags behind, so it can only under-report elements
    && Dist(b.front, b.localTail, b.size) <= Dist(b.front, b.tail, b.size)
  }

  function Count<T>(b: Block<T>): int {
    Dist(b.front, b.tail, b.size)
  }

  /** The element constructed by the producer but not yet enqueued. */
  function InFlight<T>(p: Producer<T>): seq<T> {
    if p.PPublishTail? || p.PPublishNext? || p.PLink? || p.PAdvance? then [p.x] else []
  }

  predicate ConstructedPastTail<T>(p: Producer<T>, b: nat) {
    (p.PPublishTail? && p.b == b) || (p.PPublishNext? && p.nb == b)
  }

  predicate TakenFrom<T>(c: Consumer<T>, b: nat) {
    c.CPublishFront? && c.b == b
  }

  /** The block at ring position `i` points to the one at the next position. */
  predicate Linked<T>(blocks: seq<Block<T>>, ring: seq<nat>, i: nat)
    requires i < |ring| && forall k | 0 <= k < |ring| :: ring[k] < |blocks|
  {
    blocks[ring[i]].next == ring[Inc(i, |ring|)]
  }

  /** The block at ring position `i` ends, in FIFO order, where the next one starts. */
  predicate Joined<T>(blocks: seq<Block<T>>, base: seq<nat>, ring: seq<nat>, i: nat)
    requires |base| == |blocks| && i + 1 < |ring|
    requires forall k | 0 <= k < |ring| :: ring[k] < |blocks|
  {
    base[ring[i]] + Count(blocks[ring[i]]) == base[ring[i + 1]]
  }

  predicate Distinct(ring: seq<nat>) {
    forall i, j | 0 <= i < j < |ring| :: ring[i] != ring[j]
  }

  /** Past the front block, blocks up to the tail hold elements, full but for the tail block;
      blocks after the tail are empty, unless the producer is just entering one. */
  predicate FillOk<T>(blk: Block<T>, i: nat, tailPos: nat, entering: bool) {
    && (0 < i <= tailPos ==> 0 < Count(blk))
    && (0 < i < tailPos ==> Count(blk) == blk.size - 1)
    && (tailPos < i && !entering ==> Count(blk) == 0)
  }

  /** What slot `q` of a block holds: exactly the live elements, in FIFO position. */
  predicate SlotOk<T(==)>(blk: Block<T>, base: nat, log: seq<T>, pastTail: bool, taken: bool, q: nat)
    requires BlockOk(blk) && q < blk.size
  {
    var off := Dist(blk.front, q, blk.size);
    var live := Count(blk) + (if pastTail then 1 else 0);
    if off < live && !(taken && off == 0) then
      base + off < |log| && blk.data[q] == Some(log[base + off])
    else
      blk.data[q] == None
  }

  predicate SlotsOk<T(==)>(blk: Block<T>, base: nat, log: seq<T>, pastTail: bool, taken: bool)
    requires BlockOk(blk)
  {
    forall q | 0 <= q < blk.size :: SlotOk(blk, base, log, pastTail, taken, q)
  }

  function Log<T>(s: State<T>): seq<T> {
    s.enq + InFlight(s.p)
  }

  ghost predicate Shape<T>(s: State<T>) {
    && |s.base| == |s.blocks|
    && (forall b | 0 <= b < |s.blocks| :: BlockOk(s.blocks[b]))
    && 0 < |s.ring|
    && (forall i | 0 <= i < |s.ring| :: s.ring[i] < |s.blocks|)
    && Distinct(s.ring)
    && s.tailPos < |s.ring|
    && s.frontBlock == s.ring[0] && s.tailBlock == s.ring[s.tailPos]
    && (forall i | 0 <= i < |s.ring| :: Linked(s.blocks, s.ring, i))
    && 1 <= s.largest && 2 <= s.maxBlock
  }

  ghost predicate Chained<T>(s: State<T>)
    requires Shape(s)
  {
    && (forall b | 0 <= b < |s.blocks| :: 2 <= s.blocks[b].size) && 2 <= s.largest
    && s.base[s.ring[0]] == |s.deq|
    && s.base[s.tailBlock] + Count(s.blocks[s.tailBlock]) == |s.enq|
    && (forall i | 0 <= i < s.tailPos :: Joined(s.blocks, s.base, s.ring, i))
    && (forall i | 0 <= i < |s.ring| ::
          FillOk(s.blocks[s.ring[i]], i, s.tailPos, s.p.PAdvance? && i == s.tailPos + 1))
  }

  ghost predicate Slots<T>(s: State<T>)
    requires |s.base| == |s.blocks| && forall b | 0 <= b < |s.blocks| :: BlockOk(s.blocks[b])
  {
    forall b | 0 <= b < |s.blocks| ::
      SlotsOk(s.blocks[b], s.base[b], Log(s), ConstructedPastTail(s.p, b), TakenFrom(s.c, b))
  }

  ghost predicate TailFullUnlessFront<T>(s: State<T>)
    requires Shape(s)
  {
    0 < s.tailPos ==> Count(s.blocks[s.tailBlock]) == s.blocks[s.tailBlock].size - 1
  }

  ghost predicate ProducerOk<T>(s: State<T>)
    requires Shape(s)
  {
    match s.p
    case PIdle(_) => true
    case PReloadFront(_, _, b, t) => b == s.tailBlock && t == s.blocks[b].tail
    case PConstruct(_, b, t) => b == s.tailBlock && t == s.blocks[b].tail &&
      Dist(s.blocks[b].localFront, t, s.blocks[b].size) < s.blocks[b].size - 1
    case PPublishTail(_, b, t) => b == s.tailBlock && t == s.blocks[b].tail &&
      Dist(s.blocks[b].localFront, t, s.blocks[b].size) < s.blocks[b].size - 1
    case PCheckNext(_, _, b) => b == s.tailBlock && TailFullUnlessFront(s)
    case PEnterNext(_, b) => b == s.tailBlock && TailFullUnlessFront(s) && s.tailPos + 1 < |s.ring|
    case PConstructNext(_, nb, t) => NextReady(s, nb, t)
    case PPublishNext(_, nb, t) => NextReady(s, nb, t) && s.base[nb] == |s.enq|
    case PAllocate(_, b) => b == s.tailBlock && TailFullUnlessFront(s)
    case PLink(_, b, nb) =>
      && b == s.tailBlock && TailFullUnlessFront(s)
      && nb < |s.blocks| && nb !in s.ring && s.blocks[nb].next == s.blocks[b].next
      && s.blocks[nb].front == 0 && s.blocks[nb].tail == 1 && s.base[nb] == |s.enq|
    case PAdvance(_, nb) =>
      && TailFullUnlessFront(s) && s.tailPos + 1 < |s.ring|
      && nb == s.ring[s.tailPos + 1] && Count(s.blocks[nb]) == 1 && s.base[nb] == |s.enq|
  }

  ghost predicate NextReady<T>(s: State<T>, nb: nat, t: nat)
    requires Shape(s)
  {
    && TailFullUnlessFront(s) && s.tailPos + 1 < |s.ring|
    && nb == s.ring[s.tailPos + 1] && t == s.blocks[nb].tail && s.blocks[nb].front == t
    && s.blocks[nb].localFront == t
  }

  ghost predicate ConsumerOk<T>(s: State<T>)
    requires Shape(s)
  {
    match s.c
    case CIdle(_) => true
    case CReloadTail(_, b, f) => b == s.frontBlock && f == s.blocks[b].front
    case CCheckTailBlock(_, b) => b == s.frontBlock
    case CRecheck(_, b) => b == s.frontBlock && 0 < s.tailPos
    case CLoadNext(_, b) => b == s.frontBlock && 0 < s.tailPos && Count(s.blocks[b]) == 0
    case CEnterNext(_, nb) => 0 < s.tailPos && nb == s.ring[1] && Count(s.blocks[s.frontBlock]) == 0
    case CAdvance(op, nb, f) =>
      && op != Peek && 0 < s.tailPos && nb == s.ring[1]
      && Count(s.blocks[s.frontBlock]) == 0 && f == s.blocks[nb].front
      && s.blocks[nb].front != s.blocks[nb].localTail
    case CTake(op, b, f) =>
      && b < |s.blocks| && f == s.blocks[b].front && 0 < Count(s.blocks[b])
      && (|| (b == s.frontBlock && s.blocks[b].front != s.blocks[b].localTail)
          || (op == Peek && 0 < s.tailPos && b == s.ring[1] && Count(s.blocks[s.frontBlock]) == 0))
    case CPublishFront(x, b, f) =>
      && b == s.frontBlock && f == s.blocks[b].front && s.blocks[b].front != s.blocks[b].localTail
      && |s.deq| < |s.enq| && x == s.enq[|s.deq|]
  }

  ghost predicate Fifo<T>(s: State<T>) {
    |s.deq| <= |s.enq| && s.deq == s.enq[..|s.deq|]
  }

  ghost predicate Inv<T>(s: State<T>) {
    Shape(s) && Chained(s) && Slots(s) && ProducerOk(s) && ConsumerOk(s) && Fifo(s)
  }

  // ------------------------------------------------------------------ steps

  predicate Enabled<T>(s: State<T>, l: Label<T>) {
    match l
    case CallEnqueue(_, _) => s.p.PIdle?
    case StepProducer => !s.p.PIdle?
    case FailAllocation => s.p.PAllocate?
    case CallDequeue(_) => s.c.CIdle?
    case StepConsumer => !s.c.CIdle?
  }

  /** The producer's locals are inside the blocks they index. */
  predicate ProducerInRange<T>(s: State<T>) {
    match s.p
    case PIdle(_) => true
    case PReloadFront(_, _, b, _) => b < |s.blocks|
    case PConstruct(_, b, t) => b < |s.blocks| && t < |s.blocks[b].data|
    case PPublishTail(_, b, _) => b < |s.blocks|
    case PCheckNext(_, _, b) => b < |s.blocks|
    case PEnterNext(_, b) => b == s.tailBlock
    case PConstructNext(_, nb, t) => nb < |s.blocks| == |s.base| && t < |s.blocks[nb].data|
    case PPublishNext(_, nb, _) => nb < |s.blocks|
    case PAllocate(_, b) => b < |s.blocks|
    case PLink(_, b, _) => b < |s.blocks|
    case PAdvance(_, _) => true
  }

  /** The consumer's locals are inside the blocks they index, and a slot to read holds an element. */
  predicate ConsumerInRange<T>(s: State<T>) {
    match s.c
    case CIdle(_) => true
    case CReloadTail(_, b, _) => b < |s.blocks|
    case CCheckTailBlock(_, _) => true
    case CRecheck(_, _) => true
    case CLoadNext(_, b) => b < |s.blocks|
    case CEnterNext(_, nb) => nb < |s.blocks|
    case CAdvance(_, _, _) => 0 < s.tailPos
    case CTake(_, b, f) => b < |s.blocks| && f < |s.blocks[b].data| && s.blocks[b].data[f].Some?
    case CPublishFront(_, b, _) => b < |s.blocks| == |s.base|
  }

  /** The memory accesses of the next step stay inside their blocks. */
  ghost predicate Steppable<T>(s: State<T>) {
    Shape(s) && ProducerInRange(s) && ConsumerInRange(s)
  }

  ghost function Apply<T>(s: State<T>, l: Label<T>): State<T>
    requires Steppable(s) && Enabled(s, l)
  {
    match l
    case CallEnqueue(x, canAlloc) => BeginEnqueue(s, x, canAlloc)
    case StepProducer => ProducerStep(s)
    case FailAllocation => s.(p := PIdle(NoMemory))
    case CallDequeue(op) => BeginDequeue(s, op)
    case StepConsumer => ConsumerStep(s)
  }

  /** The start of an enqueue; everything read here is owned by the producer. */
  function BeginEnqueue<T>(s: State<T>, x: T, canAlloc: bool): State<T>
    requires Shape(s)
  {
    var b := s.tailBlock;
    var t := s.blocks[b].tail;
    if Inc(t, s.blocks[b].size) != s.blocks[b].localFront
    then s.(p := PConstruct(x, b, t))
    else s.(p := PReloadFront(x, canAlloc, b, t))
  }

  function SetBlock<T>(s: State<T>, b: nat, blk: Block<T>): State<T>
    requires b < |s.blocks|
  {
    s.(blocks := s.blocks[b := blk])
  }

  function ReloadFront<T>(s: State<T>): State<T>
    requires Shape(s) && ProducerInRange(s) && s.p.PReloadFront?
  {
    var PReloadFront(x, canAlloc, b, t) := s.p;
    var front := s.blocks[b].front;
    var s1 := SetBlock(s, b, s.blocks[b].(localFront := front));
    if Inc(t, s.blocks[b].size) != front
    then s1.(p := PConstruct(x, b, t))
    else s1.(p := PCheckNext(x, canAlloc, b))
  }

  function Construct<T>(s: State<T>): State<T>
    requires Shape(s) && ProducerInRange(s) && s.p.PConstruct?
  {
    var PConstruct(x, b, t) := s.p;
    SetBlock(s, b, s.blocks[b].(data := s.blocks[b].data[t := Some(x)])).(p := PPublishTail(x, b, t))
  }

  function PublishTail<T>(s: State<T>): State<T>
    requires Shape(s) && ProducerInRange(s) && s.p.PPublishTail?
  {
    var PPublishTail(x, b, t) := s.p;
    SetBlock(s, b, s.blocks[b].(tail := Inc(t, s.blocks[b].size))).(
      p := PIdle(Accepted), enq := s.enq + [x])
  }

  function CheckNext<T>(s: State<T>): State<T>
    requires Shape(s) && ProducerInRange(s) && s.p.PCheckNext?
  {
    var PCheckNext(x, canAlloc, b) := s.p;
    if s.blocks[b].next != s.frontBlock then s.(p := PEnterNext(x, b))
    else if canAlloc then s.(p := PAllocate(x, b))
    else s.(p := PIdle(NoRoom))
  }

  function EnterNext<T>(s: State<T>): State<T>
    requires Shape(s) && ProducerInRange(s) && s.p.PEnterNext?
  {
    var PEnterNext(x, b) := s.p;
    assert Linked(s.blocks, s.ring, s.tailPos);
    var nb := s.blocks[b].next;
    SetBlock(s, nb, s.blocks[nb].(localFront := s.blocks[nb].front)).(
      p := PConstructNext(x, nb, s.blocks[nb].tail))
  }

  function ConstructNext<T>(s: State<T>): State<T>
    requires Shape(s) && ProducerInRange(s) && s.p.PConstructNext?
  {
    var PConstructNext(x, nb, t) := s.p;
    SetBlock(s, nb, s.blocks[nb].(data := s.blocks[nb].data[t := Some(x)])).(
      p := PPublishNext(x, nb, t), base := s.base[nb := |s.enq|])
  }

  function PublishNext<T>(s: State<T>): State<T>
    requires Shape(s) && ProducerInRange(s) && s.p.PPublishNext?
  {
    var PPublishNext(x, nb, t) := s.p;
    SetBlock(s, nb, s.blocks[nb].(tail := Inc(t, s.blocks[nb].size))).(p := PAdvance(x, nb))
  }

  function NewBlockSize<T>(s: State<T>): nat {
    if s.largest >= s.maxBlock then s.largest else s.largest * 2
  }

  function Allocate<T>(s: State<T>): State<T>
    requires Shape(s) && ProducerInRange(s) && s.p.PAllocate?
  {
    var PAllocate(x, b) := s.p;
    var size := NewBlockSize(s);
    var blk := Block(size, 0, 1, 1, 0, s.blocks[b].next, [Some(x)] + seq(size - 1, _ => None));
    s.(blocks := s.blocks + [blk], largest := size, base := s.base + [|s.enq|],
       p := PLink(x, b, |s.blocks|))
  }

  function Link<T>(s: State<T>): State<T>
    requires Shape(s) && ProducerInRange(s) && s.p.PLink?
  {
    var PLink(x, b, nb) := s.p;
    SetBlock(s, b, s.blocks[b].(next := nb)).(
      p := PAdvance(x, nb), ring := s.ring[..s.tailPos + 1] + [nb] + s.ring[s.tailPos + 1..])
  }

  function AdvanceTail<T>(s: State<T>): State<T>
    requires Shape(s) && ProducerInRange(s) && s.p.PAdvance?
  {
    s.(tailBlock := s.p.nb, tailPos := s.tailPos + 1, p := PIdle(Accepted), enq := s.enq + [s.p.x])
  }

  function ProducerStep<T>(s: State<T>): State<T>
    requires Shape(s) && ProducerInRange(s) && !s.p.PIdle?
  {
    match s.p
    case PReloadFront(_, _, _, _) => ReloadFront(s)
    case PConstruct(_, _, _) => Construct(s)
    case PPublishTail(_, _, _) => PublishTail(s)
    case PCheckNext(_, _, _) => CheckNext(s)
    case PEnterNext(_, _) => EnterNext(s)
    case PConstructNext(_, _, _) => ConstructNext(s)
    case PPublishNext(_, _, _) => PublishNext(s)
    case PAllocate(_, _) => Allocate(s)
    case PLink(_, _, _) => Link(s)
    case PAdvance(_, _) => AdvanceTail(s)
  }

  /** The start of a dequeue; everything read here is owned by the consumer. */
  function BeginDequeue<T>(s: State<T>, op: Op): State<T>
    requires Shape(s)
  {
    var b := s.frontBlock;
    var f := s.blocks[b].front;
    if f != s.blocks[b].localTail
    then s.(c := CTake(op, b, f))
    else s.(c := CReloadTail(op, b, f))
  }

  function ReloadTail<T>(s: State<T>): State<T>
    requires Shape(s) && ConsumerInRange(s) && s.c.CReloadTail?
  {
    var CReloadTail(op, b, f) := s.c;
    var tail := s.blocks[b].tail;
    var s1 := SetBlock(s, b, s.blocks[b].(localTail := tail));
    if f != tail then s1.(c := CTake(op, b, f)) else s1.(c := CCheckTailBlock(op, b))
  }

  function CheckTailBlock<T>(s: State<T>): State<T>
    requires s.c.CCheckTailBlock?
  {
    if s.c.b != s.tailBlock then s.(c := CRecheck(s.c.op, s.c.b)) else s.(c := CIdle(Empty))
  }

  function Recheck<T>(s: State<T>): State<T>
    requires Shape(s) && s.c.CRecheck?
  {
    var b := s.frontBlock;
    var tail := s.blocks[b].tail;
    var f := s.blocks[b].front;
    var s1 := SetBlock(s, b, s.blocks[b].(localTail := tail));
    if f != tail then s1.(c := CTake(s.c.op, b, f)) else s1.(c := CLoadNext(s.c.op, b))
  }

  function LoadNext<T>(s: State<T>): State<T>
    requires Shape(s) && ConsumerInRange(s) && s.c.CLoadNext?
  {
    s.(c := CEnterNext(s.c.op, s.blocks[s.c.b].next))
  }

  function EnterFrontNext<T>(s: State<T>): State<T>
    requires Shape(s) && ConsumerInRange(s) && s.c.CEnterNext?
  {
    var CEnterNext(op, nb) := s.c;
    var f := s.blocks[nb].front;
    if op == Peek then s.(c := CTake(op, nb, f))
    else SetBlock(s, nb, s.blocks[nb].(localTail := s.blocks[nb].tail)).(c := CAdvance(op, nb, f))
  }

  function AdvanceFront<T>(s: State<T>): State<T>
    requires Shape(s) && ConsumerInRange(s) && s.c.CAdvance?
  {
    var CAdvance(op, nb, f) := s.c;
    s.(frontBlock := nb, ring := s.ring[1..] + [s.ring[0]], tailPos := s.tailPos - 1,
       c := CTake(op, nb, f))
  }

  function Take<T>(s: State<T>): State<T>
    requires Shape(s) && ConsumerInRange(s) && s.c.CTake?
  {
    var CTake(op, b, f) := s.c;
    var x := s.blocks[b].data[f].value;
    if op == Peek then s.(c := CIdle(Peeked(x)))
    else SetBlock(s, b, s.blocks[b].(data := s.blocks[b].data[f := None])).(c := CPublishFront(x, b, f))
  }

  function PublishFront<T>(s: State<T>): State<T>
    requires Shape(s) && ConsumerInRange(s) && s.c.CPublishFront?
  {
    var CPublishFront(x, b, f) := s.c;
    SetBlock(s, b, s.blocks[b].(front := Inc(f, s.blocks[b].size))).(
      c := CIdle(Got(x)), deq := s.deq + [x], base := s.base[b := s.base[b] + 1])
  }

  function ConsumerStep<T>(s: State<T>): State<T>
    requires Shape(s) && ConsumerInRange(s) && !s.c.CIdle?
  {
    match s.c
    case CReloadTail(_, _, _) => ReloadTail(s)
    case CCheckTailBlock(_, _) => CheckTailBlock(s)
    case CRecheck(_, _) => Recheck(s)
    case CLoadNext(_, _) => LoadNext(s)
    case CEnterNext(_, _) => EnterFrontNext(s)
    case CAdvance(_, _, _) => AdvanceFront(s)
    case CTake(_, _, _) => Take(s)
    case CPublishFront(_, _, _) => PublishFront(s)
  }

  lemma SlotIsLive<T>(s: State<T>)
    requires Inv(s) && s.c.CTake?
    ensures s.blocks[s.c.b].data[s.c.f].Some?
    ensures |s.deq| < |s.enq| && s.blocks[s.c.b].data[s.c.f].value == s.enq[|s.deq|]
  {
    assert SlotOk(s.blocks[s.c.b], s.base[s.c.b], Log(s), ConstructedPastTail(s.p, s.c.b),
                  TakenFrom(s.c, s.c.b), s.c.f);
    if s.c.b != s.frontBlock {
      assert Joined(s.blocks, s.base, s.ring, 0);
    }
    CountFits(s, if s.c.b == s.frontBlock then 0 else 1);
  }

  /** Elements of block `ring[i]` lie inside `enq`. */
  lemma {:induction false} CountFits<T>(s: State<T>, i: nat)
    requires Shape(s) && Chained(s) && i <= s.tailPos
    ensures s.base[s.ring[i]] + Count(s.blocks[s.ring[i]]) <= |s.enq|
    decreases s.tailPos - i
  {
    if i < s.tailPos {
      assert Joined(s.blocks, s.base, s.ring, i);
      CountFits(s, i + 1);
    }
  }

  // ------------------------------------------------------------------ every step keeps the invariant

  /** Slots of a block are unaffected when neither the block's element range nor the log changes. */
  lemma SlotsCarryOver<T>(s: State<T>, s': State<T>, b: nat)
    requires Shape(s) && Slots(s) && b < |s.blocks| <= |s'.blocks| == |s'.base|
    requires BlockOk(s'.blocks[b]) && s'.base[b] == s.base[b] && Log(s) <= Log(s')
    requires s'.blocks[b].data == s.blocks[b].data && s'.blocks[b].size == s.blocks[b].size
    requires s'.blocks[b].front == s.blocks[b].front && s'.blocks[b].tail == s.blocks[b].tail
    requires ConstructedPastTail(s'.p, b) == ConstructedPastTail(s.p, b)
    requires TakenFrom(s'.c, b) == TakenFrom(s.c, b)
    ensures SlotsOk(s'.blocks[b], s'.base[b], Log(s'), ConstructedPastTail(s'.p, b), TakenFrom(s'.c, b))
  {
    forall q | 0 <= q < s'.blocks[b].size
      ensures SlotOk(s'.blocks[b], s'.base[b], Log(s'), ConstructedPastTail(s'.p, b), TakenFrom(s'.c, b), q)
    {
      assert SlotOk(s.blocks[b], s.base[b], Log(s), ConstructedPastTail(s.p, b), TakenFrom(s.c, b), q);
    }
  }

  predicate SameExtent<T>(b: Block<T>, b': Block<T>) {
    b'.size == b.size && b'.front == b.front && b'.tail == b.tail && b'.next == b.next
  }

  /** Steps that touch only shadow indices and slots move no block and no element. */
  lemma RingCarryOver<T>(s: State<T>, s': State<T>)
    requires Shape(s) && Chained(s) && |s'.blocks| == |s.blocks|
    requires forall b | 0 <= b < |s.blocks| :: BlockOk(s'.blocks[b]) && SameExtent(s.blocks[b], s'.blocks[b])
    requires s'.base == s.base && s'.ring == s.ring && s'.tailPos == s.tailPos && s'.largest == s.largest
    requires s'.maxBlock == s.maxBlock
    requires s'.frontBlock == s.frontBlock && s'.tailBlock == s.tailBlock
    requires s'.enq == s.enq && s'.deq == s.deq
    requires s.p.PAdvance? ==> s'.p == s.p
    ensures Shape(s') && Chained(s')
  {
    forall i | 0 <= i < |s.ring| ensures Linked(s'.blocks, s.ring, i) {
      assert Linked(s.blocks, s.ring, i);
    }
    forall i | 0 <= i < s.tailPos ensures Joined(s'.blocks, s.base, s.ring, i) {
      assert Joined(s.blocks, s.base, s.ring, i);
    }
  }

  /** Steps that change no slot and no element range. */
  lemma QuietStepKeepsData<T>(s: State<T>, s': State<T>)
    requires Inv(s) && |s'.blocks| == |s.blocks|
    requires forall b | 0 <= b < |s.blocks| ::
        BlockOk(s'.blocks[b]) && SameExtent(s.blocks[b], s'.blocks[b]) && s'.blocks[b].data == s.blocks[b].data
    requires s' == s.(blocks := s'.blocks, p := s'.p, c := s'.c)
    requires s.p.PAdvance? ==> s'.p == s.p
    requires InFlight(s'.p) == InFlight(s.p)
    requires forall b: nat :: ConstructedPastTail(s'.p, b) == ConstructedPastTail(s.p, b)
    requires forall b: nat :: TakenFrom(s'.c, b) == TakenFrom(s.c, b)
    ensures Shape(s') && Chained(s') && Slots(s') && Fifo(s')
  {
    RingCarryOver(s, s');
    forall b | 0 <= b < |s.blocks| { SlotsCarryOver(s, s', b); }
  }

  predicate SameForConsumer<T>(b: Block<T>, b': Block<T>) {
    SameExtent(b, b') && b'.localTail == b.localTail
  }

  predicate SameForProducer<T>(b: Block<T>, b': Block<T>) {
    SameExtent(b, b') && b'.localFront == b.localFront
  }

  /** A producer step that moves no block and no element leaves the consumer where it was. */
  lemma ConsumerCarryOver<T>(s: State<T>, s': State<T>)
    requires Shape(s) && Shape(s') && ConsumerOk(s) && |s'.blocks| == |s.blocks|
    requires forall b | 0 <= b < |s.blocks| :: SameForConsumer(s.blocks[b], s'.blocks[b])
    requires s'.c == s.c && s'.ring == s.ring && s'.tailPos == s.tailPos && s'.frontBlock == s.frontBlock
    requires s'.enq == s.enq && s'.deq == s.deq
    ensures ConsumerOk(s')
  {
  }

  /** The same for a consumer step and the producer. */
  lemma ProducerCarryOver<T>(s: State<T>, s': State<T>)
    requires Shape(s) && Shape(s') && ProducerOk(s) && |s'.blocks| == |s.blocks|
    requires forall b | 0 <= b < |s.blocks| :: SameForProducer(s.blocks[b], s'.blocks[b])
    requires s'.p == s.p && s'.ring == s.ring && s'.tailPos == s.tailPos && s'.tailBlock == s.tailBlock
    requires s'.enq == s.enq && s'.base == s.base
    ensures ProducerOk(s')
  {
  }

  lemma BeginEnqueueKeepsInv<T>(s: State<T>, x: T, canAlloc: bool)
    requires Inv(s) && s.p.PIdle?
    ensures Inv(BeginEnqueue(s, x, canAlloc))
  {
    QuietStepKeepsData(s, BeginEnqueue(s, x, canAlloc));
  }

  lemma BeginDequeueKeepsInv<T>(s: State<T>, op: Op)
    requires Inv(s) && s.c.CIdle?
    ensures Inv(BeginDequeue(s, op))
  {
    QuietStepKeepsData(s, BeginDequeue(s, op));
  }

  lemma ReloadFrontKeepsData<T>(s: State<T>)
    requires Inv(s) && s.p.PReloadFront?
    ensures var s' := ReloadFront(s); Shape(s') && Chained(s') && Slots(s') && Fifo(s') && ConsumerOk(s')
  {
    hide Chained, Slots, Fifo, ConsumerOk;
    QuietStepKeepsData(s, ReloadFront(s));
    ConsumerCarryOver(s, ReloadFront(s));
  }

  lemma ReloadFrontKeepsInv<T>(s: State<T>)
    requires Inv(s) && s.p.PReloadFront?
    ensures Inv(ReloadFront(s))
  {
    hide Slots, Fifo, Chained, ConsumerOk;
    ReloadFrontKeepsData(s);
  }

  lemma CheckNextKeepsData<T>(s: State<T>)
    requires Inv(s) && s.p.PCheckNext?
    ensures var s' := CheckNext(s); Shape(s') && Chained(s') && Slots(s') && Fifo(s') && ConsumerOk(s')
  {
    hide Chained, Slots, Fifo, ConsumerOk;
    assert Linked(s.blocks, s.ring, s.tailPos);
    QuietStepKeepsData(s, CheckNext(s));
    ConsumerCarryOver(s, CheckNext(s));
  }

  lemma CheckNextKeepsInv<T>(s: State<T>)
    requires Inv(s) && s.p.PCheckNext?
    ensures Inv(CheckNext(s))
  {
    hide Slots, Fifo, Chained, ConsumerOk;
    CheckNextKeepsData(s);
    assert Linked(s.blocks, s.ring, s.tailPos);
  }

  lemma EnterNextKeepsData<T>(s: State<T>)
    requires Inv(s) && s.p.PEnterNext?
    ensures var s' := EnterNext(s); Shape(s') && Chained(s') && Slots(s') && Fifo(s') && ConsumerOk(s')
  {
    hide Chained, Slots, Fifo, ConsumerOk;
    assert Linked(s.blocks, s.ring, s.tailPos);
    QuietStepKeepsData(s, EnterNext(s));
    ConsumerCarryOver(s, EnterNext(s));
  }

  lemma EnterNextKeepsInv<T>(s: State<T>)
    requires Inv(s) && s.p.PEnterNext?
    ensures Inv(EnterNext(s))
  {
    hide Slots, Fifo, ConsumerOk;
    EnterNextKeepsData(s);
    assert Linked(s.blocks, s.ring, s.tailPos);
  }

  lemma ReloadTailKeepsData<T>(s: State<T>)
    requires Inv(s) && s.c.CReloadTail?
    ensures var s' := ReloadTail(s); Shape(s') && Chained(s') && Slots(s') && Fifo(s') && ProducerOk(s')
  {
    hide Chained, Slots, Fifo, ProducerOk;
    QuietStepKeepsData(s, ReloadTail(s));
    ProducerCarryOver(s, ReloadTail(s));
  }

  lemma ReloadTailKeepsInv<T>(s: State<T>)
    requires Inv(s) && s.c.CReloadTail?
    ensures Inv(ReloadTail(s))
  {
    hide Slots, Fifo, Chained, ProducerOk;
    ReloadTailKeepsData(s);
  }

  lemma CheckTailBlockKeepsInv<T>(s: State<T>)
    requires Inv(s) && s.c.CCheckTailBlock?
    ensures Inv(CheckTailBlock(s))
  {
    QuietStepKeepsData(s, CheckTailBlock(s));
  }

  lemma RecheckKeepsData<T>(s: State<T>)
    requires Inv(s) && s.c.CRecheck?
    ensures var s' := Recheck(s); Shape(s') && Chained(s') && Slots(s') && Fifo(s') && ProducerOk(s')
  {
    hide Chained, Slots, Fifo, ProducerOk;
    QuietStepKeepsData(s, Recheck(s));
    ProducerCarryOver(s, Recheck(s));
  }

  lemma RecheckKeepsInv<T>(s: State<T>)
    requires Inv(s) && s.c.CRecheck?
    ensures Inv(Recheck(s))
  {
    hide Slots, Fifo, Chained, ProducerOk;
    RecheckKeepsData(s);
  }

  lemma LoadNextKeepsInv<T>(s: State<T>)
    requires Inv(s) && s.c.CLoadNext?
    ensures Inv(LoadNext(s))
  {
    assert Linked(s.blocks, s.ring, 0);
    QuietStepKeepsData(s, LoadNext(s));
  }

  lemma EnterFrontNextKeepsData<T>(s: State<T>)
    requires Inv(s) && s.c.CEnterNext?
    ensures var s' := EnterFrontNext(s); Shape(s') && Chained(s') && Slots(s') && Fifo(s') && ProducerOk(s')
  {
    hide Chained, Slots, Fifo, ProducerOk;
    QuietStepKeepsData(s, EnterFrontNext(s));
    ProducerCarryOver(s, EnterFrontNext(s));
  }

  lemma EnterFrontNextKeepsInv<T>(s: State<T>)
    requires Inv(s) && s.c.CEnterNext?
    ensures Inv(EnterFrontNext(s))
  {
    hide Slots, Fifo, ProducerOk;
    EnterFrontNextKeepsData(s);
  }

  /** An element is constructed in the free slot at the tail. */
  lemma ConstructedSlot<T>(blk: Block<T>, base: nat, log: seq<T>, taken: bool, x: T, q: nat)
    requires BlockOk(blk) && q < blk.size && Count(blk) < blk.size - 1 && base + Count(blk) == |log|
    requires taken ==> 0 < Count(blk)
    requires SlotOk(blk, base, log, false, taken, q)
    ensures var blk' := blk.(data := blk.data[blk.tail := Some(x)]);
      BlockOk(blk') && SlotOk(blk', base, log + [x], true, taken, q)
  {
  }

  lemma ConstructKeepsSlots<T>(s: State<T>)
    requires Inv(s) && s.p.PConstruct? && Shape(Construct(s))
    ensures Slots(Construct(s))
  {
    var s' := Construct(s);
    var b := s.p.b;
    assert BlockOk(s.blocks[b]) && Log(s) == s.enq && Log(s') == s.enq + [s.p.x];
    assert TakenFrom(s.c, b) ==> 0 < Count(s.blocks[b]);
    hide ConsumerOk, Fifo;
    forall k | 0 <= k < |s.blocks| && k != b { SlotsCarryOver(s, s', k); }
    forall q | 0 <= q < s'.blocks[b].size
      ensures SlotOk(s'.blocks[b], s'.base[b], Log(s'), true, TakenFrom(s'.c, b), q)
    {
      assert SlotOk(s.blocks[b], s.base[b], Log(s), false, TakenFrom(s.c, b), q);
      ConstructedSlot(s.blocks[b], s.base[b], s.enq, TakenFrom(s.c, b), s.p.x, q);
    }
  }

  lemma ConstructKeepsInv<T>(s: State<T>)
    requires Inv(s) && s.p.PConstruct?
    ensures Inv(Construct(s))
  {
    RingCarryOver(s, Construct(s));
    ConstructKeepsSlots(s);
    hide Slots, Chained;
  }

  lemma PublishTailKeepsRing<T>(s: State<T>)
    requires Inv(s) && s.p.PPublishTail?
    ensures Shape(PublishTail(s)) && Chained(PublishTail(s))
  {
    var s' := PublishTail(s);
    forall i | 0 <= i < |s.ring| ensures Linked(s'.blocks, s.ring, i) {
      assert Linked(s.blocks, s.ring, i);
    }
    forall i | 0 <= i < s.tailPos ensures Joined(s'.blocks, s.base, s.ring, i) {
      assert Joined(s.blocks, s.base, s.ring, i);
    }
  }

  /** Moving the tail over a constructed element. */
  lemma PublishedSlot<T>(blk: Block<T>, base: nat, log: seq<T>, taken: bool, q: nat)
    requires BlockOk(blk) && q < blk.size && Count(blk) < blk.size - 1 && SlotOk(blk, base, log, true, taken, q)
    requires BlockOk(blk.(tail := Inc(blk.tail, blk.size)))
    ensures SlotOk(blk.(tail := Inc(blk.tail, blk.size)), base, log, false, taken, q)
  {
  }

  lemma PublishTailKeepsSlots<T>(s: State<T>)
    requires Inv(s) && s.p.PPublishTail? && Shape(PublishTail(s))
    ensures Slots(PublishTail(s))
  {
    var s' := PublishTail(s);
    var b := s.p.b;
    assert BlockOk(s.blocks[b]) && Log(s') == Log(s);
    hide Chained, ConsumerOk, Fifo;
    forall k | 0 <= k < |s.blocks| && k != b { SlotsCarryOver(s, s', k); }
    forall q | 0 <= q < s'.blocks[b].size
      ensures SlotOk(s'.blocks[b], s'.base[b], Log(s'), false, TakenFrom(s'.c, b), q)
    {
      assert SlotOk(s.blocks[b], s.base[b], Log(s), true, TakenFrom(s.c, b), q);
      PublishedSlot(s.blocks[b], s.base[b], Log(s), TakenFrom(s.c, b), q);
    }
  }

  lemma PublishTailKeepsInv<T>(s: State<T>)
    requires Inv(s) && s.p.PPublishTail?
    ensures Inv(PublishTail(s))
  {
    PublishTailKeepsRing(s);
    PublishTailKeepsSlots(s);
    hide Slots, Chained;
  }

  lemma ConstructNextKeepsRing<T>(s: State<T>)
    requires Inv(s) && s.p.PConstructNext?
    ensures Shape(ConstructNext(s)) && Chained(ConstructNext(s))
  {
    var s' := ConstructNext(s);
    forall i | 0 <= i < |s.ring| ensures Linked(s'.blocks, s.ring, i) {
      assert Linked(s.blocks, s.ring, i);
    }
    forall i | 0 <= i < s.tailPos ensures Joined(s'.blocks, s'.base, s.ring, i) {
      assert Joined(s.blocks, s.base, s.ring, i);
    }
  }

  lemma ConstructNextKeepsSlots<T>(s: State<T>)
    requires Inv(s) && s.p.PConstructNext? && Shape(ConstructNext(s))
    ensures Slots(ConstructNext(s))
  {
    var s' := ConstructNext(s);
    var nb := s.p.nb;
    var blk := s.blocks[nb];
    assert BlockOk(blk) && Count(blk) == 0 && 2 <= blk.size && !TakenFrom(s.c, nb);
    assert Log(s) == s.enq && Log(s') == s.enq + [s.p.x];
    hide Chained, ProducerOk, ConsumerOk, Fifo;
    forall k | 0 <= k < |s.blocks| && k != nb { SlotsCarryOver(s, s', k); }
    forall q | 0 <= q < blk.size ensures SlotOk(s'.blocks[nb], s'.base[nb], Log(s'), true, TakenFrom(s'.c, nb), q) {
      assert SlotOk(blk, s.base[nb], s.enq, false, false, q);
      ConstructedSlot(blk, |s.enq|, s.enq, false, s.p.x, q);
    }
  }

  lemma ConstructNextKeepsInv<T>(s: State<T>)
    requires Inv(s) && s.p.PConstructNext?
    ensures Inv(ConstructNext(s))
  {
    ConstructNextKeepsRing(s);
    ConstructNextKeepsSlots(s);
    hide Slots;
  }

  lemma PublishNextKeepsRing<T>(s: State<T>)
    requires Inv(s) && s.p.PPublishNext?
    ensures Shape(PublishNext(s)) && Chained(PublishNext(s))
  {
    var s' := PublishNext(s);
    forall i | 0 <= i < |s.ring| ensures Linked(s'.blocks, s.ring, i) {
      assert Linked(s.blocks, s.ring, i);
    }
    forall i | 0 <= i < s.tailPos ensures Joined(s'.blocks, s'.base, s.ring, i) {
      assert Joined(s.blocks, s.base, s.ring, i);
    }
  }

  lemma PublishNextKeepsSlots<T>(s: State<T>)
    requires Inv(s) && s.p.PPublishNext? && Shape(PublishNext(s))
    ensures Slots(PublishNext(s))
  {
    var s' := PublishNext(s);
    var nb := s.p.nb;
    assert BlockOk(s.blocks[nb]) && 2 <= s.blocks[nb].size && Log(s') == Log(s);
    hide Chained, ConsumerOk, Fifo;
    forall k | 0 <= k < |s.blocks| && k != nb { SlotsCarryOver(s, s', k); }
    forall q | 0 <= q < s'.blocks[nb].size
      ensures SlotOk(s'.blocks[nb], s'.base[nb], Log(s'), false, TakenFrom(s'.c, nb), q)
    {
      assert SlotOk(s.blocks[nb], s.base[nb], Log(s), true, TakenFrom(s.c, nb), q);
      PublishedSlot(s.blocks[nb], s.base[nb], Log(s), TakenFrom(s.c, nb), q);
    }
  }

  lemma PublishNextKeepsInv<T>(s: State<T>)
    requires Inv(s) && s.p.PPublishNext?
    ensures Inv(PublishNext(s))
  {
    PublishNextKeepsRing(s);
    PublishNextKeepsSlots(s);
    hide Slots;
  }

  lemma AllocateKeepsRing<T>(s: State<T>)
    requires Inv(s) && s.p.PAllocate?
    ensures Shape(Allocate(s)) && Chained(Allocate(s))
  {
    var s' := Allocate(s);
    forall i | 0 <= i < |s.ring| ensures Linked(s'.blocks, s.ring, i) {
      assert Linked(s.blocks, s.ring, i);
    }
    forall i | 0 <= i < s.tailPos ensures Joined(s'.blocks, s'.base, s.ring, i) {
      assert Joined(s.blocks, s.base, s.ring, i);
    }
  }

  lemma AllocateKeepsInv<T>(s: State<T>)
    requires Inv(s) && s.p.PAllocate?
    ensures Inv(Allocate(s))
  {
    var s' := Allocate(s);
    AllocateKeepsRing(s);
    forall k | 0 <= k < |s.blocks| { SlotsCarryOver(s, s', k); }
    assert SlotsOk(s'.blocks[|s.blocks|], |s.enq|, Log(s'), false, false);
  }

  /** Linking a new block after position `at` inserts it into the ring there. */
  lemma InsertKeepsLinks<T>(blocks: seq<Block<T>>, blocks': seq<Block<T>>, ring: seq<nat>, at: nat, nb: nat)
    requires |blocks'| == |blocks| && at < |ring| && nb < |blocks| && nb !in ring && Distinct(ring)
    requires forall i | 0 <= i < |ring| :: ring[i] < |blocks|
    requires forall i | 0 <= i < |ring| :: Linked(blocks, ring, i)
    requires forall b | 0 <= b < |blocks| && b != ring[at] :: blocks'[b].next == blocks[b].next
    requires blocks'[ring[at]].next == nb && blocks[nb].next == blocks[ring[at]].next
    ensures var ring' := ring[..at + 1] + [nb] + ring[at + 1..];
      Distinct(ring') && (forall i | 0 <= i < |ring'| :: ring'[i] < |blocks'|) &&
      forall i | 0 <= i < |ring'| :: Linked(blocks', ring', i)
  {
    var ring' := ring[..at + 1] + [nb] + ring[at + 1..];
    forall i | 0 <= i < |ring'| ensures ring'[i] < |blocks'| {
      assert ring'[i] == if i <= at then ring[i] else if i == at + 1 then nb else ring[i - 1];
    }
    forall i | 0 <= i < |ring'| ensures Linked(blocks', ring', i) {
      if i <= at {
        assert Linked(blocks, ring, i);
      } else {
        assert Linked(blocks, ring, i - 1);
      }
    }
  }

  lemma LinkKeepsShape<T>(s: State<T>)
    requires Shape(s) && ProducerOk(s) && s.p.PLink?
    ensures Shape(Link(s))
  {
    InsertKeepsLinks(s.blocks, Link(s).blocks, s.ring, s.tailPos, s.p.nb);
  }

  lemma LinkKeepsChain<T>(s: State<T>)
    requires Inv(s) && s.p.PLink? && Shape(Link(s))
    ensures Chained(Link(s))
  {
    var s' := Link(s);
    var k := s.tailPos + 1;
    forall i | 0 <= i < s.tailPos ensures Joined(s'.blocks, s'.base, s'.ring, i) {
      assert Joined(s.blocks, s.base, s.ring, i);
    }
    forall i | 0 <= i < |s'.ring| ensures FillOk(s'.blocks[s'.ring[i]], i, s.tailPos, i == k) {
      if i < k { assert s'.ring[i] == s.ring[i]; }
      if k < i { assert s'.ring[i] == s.ring[i - 1]; }
    }
  }

  lemma LinkKeepsInv<T>(s: State<T>)
    requires Inv(s) && s.p.PLink?
    ensures Inv(Link(s))
  {
    var s' := Link(s);
    LinkKeepsShape(s);
    LinkKeepsChain(s);
    forall k | 0 <= k < |s.blocks| { SlotsCarryOver(s, s', k); }
  }

  lemma AdvanceTailKeepsRing<T>(s: State<T>)
    requires Inv(s) && s.p.PAdvance?
    ensures Shape(AdvanceTail(s)) && Chained(AdvanceTail(s))
  {
    var s' := AdvanceTail(s);
    forall i | 0 <= i < s'.tailPos ensures Joined(s.blocks, s.base, s.ring, i) {
    }
  }

  lemma AdvanceTailKeepsInv<T>(s: State<T>)
    requires Inv(s) && s.p.PAdvance?
    ensures Inv(AdvanceTail(s))
  {
    var s' := AdvanceTail(s);
    AdvanceTailKeepsRing(s);
    forall k | 0 <= k < |s.blocks| { SlotsCarryOver(s, s', k); }
  }

  lemma AdvanceFrontKeepsShape<T>(s: State<T>)
    requires Shape(s) && ConsumerOk(s) && s.c.CAdvance?
    ensures Shape(AdvanceFront(s))
  {
    var n := |s.ring|;
    forall i | 0 <= i < n ensures Linked(s.blocks, AdvanceFront(s).ring, i) {
      assert Linked(s.blocks, s.ring, Inc(i, n));
    }
  }

  lemma AdvanceFrontKeepsRing<T>(s: State<T>)
    requires Inv(s) && s.c.CAdvance?
    ensures Shape(AdvanceFront(s)) && Chained(AdvanceFront(s))
  {
    var s' := AdvanceFront(s);
    var n := |s.ring|;
    AdvanceFrontKeepsShape(s);
    hide Slots, ProducerOk, Fifo;
    assert Joined(s.blocks, s.base, s.ring, 0);
    forall i | 0 <= i < s'.tailPos ensures Joined(s.blocks, s.base, s'.ring, i) {
      assert Joined(s.blocks, s.base, s.ring, i + 1);
    }
    forall i | 0 <= i < n
      ensures FillOk(s.blocks[s'.ring[i]], i, s'.tailPos, s.p.PAdvance? && i == s.tailPos)
    {
      assert s'.ring[i] == s.ring[Inc(i, n)];
    }
  }

  lemma AdvanceFrontKeepsInv<T>(s: State<T>)
    requires Inv(s) && s.c.CAdvance?
    ensures Inv(AdvanceFront(s))
  {
    var s' := AdvanceFront(s);
    AdvanceFrontKeepsRing(s);
    forall k | 0 <= k < |s.blocks| { SlotsCarryOver(s, s', k); }
  }

  lemma TakeKeepsSlots<T>(s: State<T>)
    requires Inv(s) && s.c.CTake? && s.c.op != Peek && s.blocks[s.c.b].data[s.c.f].Some?
    requires Shape(Take(s))
    ensures Slots(Take(s))
  {
    var s' := Take(s);
    var b := s.c.b;
    forall k | 0 <= k < |s.blocks| && k != b { SlotsCarryOver(s, s', k); }
    forall q | 0 <= q < s'.blocks[b].size
      ensures SlotOk(s'.blocks[b], s'.base[b], Log(s'), ConstructedPastTail(s'.p, b), true, q)
    {
      assert SlotOk(s.blocks[b], s.base[b], Log(s), ConstructedPastTail(s.p, b), false, q);
    }
  }

  lemma PeekKeepsInv<T>(s: State<T>)
    requires Inv(s) && s.c.CTake? && s.c.op == Peek && s.blocks[s.c.b].data[s.c.f].Some?
    ensures Inv(Take(s))
  {
    QuietStepKeepsData(s, Take(s));
  }

  lemma TakeKeepsInv<T>(s: State<T>)
    requires Inv(s) && s.c.CTake? && s.c.op != Peek && s.blocks[s.c.b].data[s.c.f].Some?
    ensures Inv(Take(s))
  {
    SlotIsLive(s);
    RingCarryOver(s, Take(s));
    TakeKeepsSlots(s);
  }

  lemma PublishFrontKeepsShape<T>(s: State<T>)
    requires Shape(s) && ConsumerOk(s) && s.c.CPublishFront?
    ensures Shape(PublishFront(s))
  {
    var s' := PublishFront(s);
    forall i | 0 <= i < |s.ring| ensures Linked(s'.blocks, s.ring, i) {
      assert Linked(s.blocks, s.ring, i);
    }
  }

  lemma PublishFrontKeepsRing<T>(s: State<T>)
    requires Inv(s) && s.c.CPublishFront?
    ensures Shape(PublishFront(s)) && Chained(PublishFront(s))
  {
    var s' := PublishFront(s);
    PublishFrontKeepsShape(s);
    hide Slots, ProducerOk, Fifo;
    forall i | 0 <= i < s.tailPos ensures Joined(s'.blocks, s'.base, s.ring, i) {
      assert Joined(s.blocks, s.base, s.ring, i);
    }
  }

  /** Moving the front over a taken element. */
  lemma ReleasedSlot<T>(blk: Block<T>, base: nat, log: seq<T>, pastTail: bool, q: nat)
    requires BlockOk(blk) && q < blk.size && 0 < Count(blk) && SlotOk(blk, base, log, pastTail, true, q)
    requires BlockOk(blk.(front := Inc(blk.front, blk.size)))
    requires pastTail ==> Count(blk) < blk.size - 1
    ensures SlotOk(blk.(front := Inc(blk.front, blk.size)), base + 1, log, pastTail, false, q)
  {
  }

  lemma PublishFrontKeepsSlots<T>(s: State<T>)
    requires Inv(s) && s.c.CPublishFront? && Shape(PublishFront(s))
    ensures Slots(PublishFront(s))
  {
    var s' := PublishFront(s);
    var b := s.c.b;
    var blk := s.blocks[b];
    assert BlockOk(blk) && 0 < Count(blk) && Log(s') == Log(s);
    assert ConstructedPastTail(s.p, b) ==> Count(blk) < blk.size - 1;
    hide Chained, ProducerOk, ConsumerOk, Fifo;
    forall k | 0 <= k < |s.blocks| && k != b { SlotsCarryOver(s, s', k); }
    forall q | 0 <= q < blk.size
      ensures SlotOk(s'.blocks[b], s'.base[b], Log(s'), ConstructedPastTail(s'.p, b), false, q)
    {
      assert SlotOk(blk, s.base[b], Log(s), ConstructedPastTail(s.p, b), true, q);
      ReleasedSlot(blk, s.base[b], Log(s), ConstructedPastTail(s.p, b), q);
    }
  }

  lemma PublishFrontKeepsInv<T>(s: State<T>)
    requires Inv(s) && s.c.CPublishFront?
    ensures Inv(PublishFront(s))
  {
    PublishFrontKeepsRing(s);
    PublishFrontKeepsSlots(s);
  }

  lemma InvIsSteppable<T>(s: State<T>)
    requires Inv(s)
    ensures Steppable(s)
  {
    if s.c.CTake? { SlotIsLive(s); }
  }

  lemma ProducerStepKeepsInv<T>(s: State<T>)
    requires Inv(s) && !s.p.PIdle?
    ensures Inv(ProducerStep(s))
  {
    match s.p
    case PReloadFront(_, _, _, _) => ReloadFrontKeepsInv(s);
    case PConstruct(_, _, _) => ConstructKeepsInv(s);
    case PPublishTail(_, _, _) => PublishTailKeepsInv(s);
    case PCheckNext(_, _, _) => CheckNextKeepsInv(s);
    case PEnterNext(_, _) => EnterNextKeepsInv(s);
    case PConstructNext(_, _, _) => ConstructNextKeepsInv(s);
    case PPublishNext(_, _, _) => PublishNextKeepsInv(s);
    case PAllocate(_, _) => AllocateKeepsInv(s);
    case PLink(_, _, _) => LinkKeepsInv(s);
    case PAdvance(_, _) => AdvanceTailKeepsInv(s);
  }

  lemma ConsumerStepKeepsInv<T>(s: State<T>)
    requires Inv(s) && !s.c.CIdle? && Steppable(s)
    ensures Inv(ConsumerStep(s))
  {
    match s.c
    case CReloadTail(_, _, _) => ReloadTailKeepsInv(s);
    case CCheckTailBlock(_, _) => CheckTailBlockKeepsInv(s);
    case CRecheck(_, _) => RecheckKeepsInv(s);
    case CLoadNext(_, _) => LoadNextKeepsInv(s);
    case CEnterNext(_, _) => EnterFrontNextKeepsInv(s);
    case CAdvance(_, _, _) => AdvanceFrontKeepsInv(s);
    case CTake(op, _, _) => if op == Peek { PeekKeepsInv(s); } else { TakeKeepsInv(s); }
    case CPublishFront(_, _, _) => PublishFrontKeepsInv(s);
  }

  lemma FailAllocationKeepsInv<T>(s: State<T>)
    requires Inv(s) && s.p.PAllocate?
    ensures Inv(s.(p := PIdle(NoMemory)))
  {
    QuietStepKeepsData(s, s.(p := PIdle(NoMemory)));
  }

  lemma ApplyKeepsInv<T>(s: State<T>, l: Label<T>)
    requires Inv(s) && Steppable(s) && Enabled(s, l)
    ensures Inv(Apply(s, l))
  {
    match l
    case CallEnqueue(x, canAlloc) => BeginEnqueueKeepsInv(s, x, canAlloc);
    case StepProducer => ProducerStepKeepsInv(s);
    case FailAllocation => FailAllocationKeepsInv(s);
    case CallDequeue(op) => BeginDequeueKeepsInv(s, op);
    case StepConsumer => ConsumerStepKeepsInv(s);
  }
}
