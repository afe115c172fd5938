/** What every executor call keeps: where one-shot commands are, in which order writes go out, how often
    they are tried and what is reported about them. */
module ExecutorInvariants {
  import opened Options
  import opened RequestQueues
  import opened Executor

  // ------------------------------------------------------------------ sums over the queues

  ghost function Total(keys: seq<int>, queues: map<int, Queues>, f: Queues -> nat): nat
    requires forall i | 0 <= i < |keys| :: keys[i] in queues
  {
    if keys == [] then 0 else f(queues[keys[0]]) + Total(keys[1..], queues, f)
  }

  lemma {:induction false} TotalSame(keys: seq<int>, queues: map<int, Queues>, queues': map<int, Queues>,
                                     f: Queues -> nat)
    requires forall i | 0 <= i < |keys| ::
      keys[i] in queues && keys[i] in queues' && f(queues[keys[i]]) == f(queues'[keys[i]])
    ensures Total(keys, queues, f) == Total(keys, queues', f)
  {
    if keys != [] { TotalSame(keys[1..], queues, queues', f); }
  }

  lemma {:induction false} TotalUpdate(keys: seq<int>, queues: map<int, Queues>, k: int, q: Queues, f: Queues -> nat)
    requires (forall i | 0 <= i < |keys| :: keys[i] in queues) && k in keys
    requires forall i, j | 0 <= i < j < |keys| :: keys[i] < keys[j]
    ensures Total(keys, queues[k := q], f) == Total(keys, queues, f) - f(queues[k]) + f(q)
  {
    if keys[0] == k {
      TotalSame(keys[1..], queues, queues[k := q], f);
    } else {
      TotalUpdate(keys[1..], queues, k, q, f);
    }
  }

  lemma {:induction false} TotalInsert(keys: seq<int>, queues: map<int, Queues>, s: int, q: Queues, f: Queues -> nat)
    requires (forall i | 0 <= i < |keys| :: keys[i] in queues) && s !in keys
    ensures forall i | 0 <= i < |InsertSorted(keys, s)| :: InsertSorted(keys, s)[i] in queues[s := q]
    ensures Total(InsertSorted(keys, s), queues[s := q], f) == Total(keys, queues, f) + f(q)
  {
    if keys == [] || s < keys[0] {
      assert ([s] + keys)[1..] == keys;
      TotalSame(keys, queues, queues[s := q], f);
    } else {
      TotalInsert(keys[1..], queues, s, q, f);
      assert InsertSorted(keys, s)[1..] == InsertSorted(keys[1..], s);
    }
  }

  lemma {:induction false} TotalBound(keys: seq<int>, queues: map<int, Queues>, f: Queues -> nat, k: int)
    requires (forall i | 0 <= i < |keys| :: keys[i] in queues) && k in keys
    ensures f(queues[k]) <= Total(keys, queues, f)
  {
    if keys[0] != k { TotalBound(keys[1..], queues, f, k); }
  }

  lemma {:induction false} TotalZero(keys: seq<int>, queues: map<int, Queues>, f: Queues -> nat)
    requires forall i | 0 <= i < |keys| :: keys[i] in queues && f(queues[keys[i]]) == 0
    ensures Total(keys, queues, f) == 0
  {
    if keys != [] { TotalZero(keys[1..], queues, f); }
  }

  ghost function QueueLoad(e: Exec, f: Queues -> nat): nat
    requires KeysOk(e)
  {
    Total(e.keys, e.queues, f)
  }

  lemma WithQueueLoad(e: Exec, s: int, q: Queues, f: Queues -> nat)
    requires KeysOk(e) && f(NEW) == 0
    ensures KeysOk(WithQueue(e, s, q))
    ensures QueueLoad(WithQueue(e, s, q), f) == QueueLoad(e, f) - f(QueueOf(e, s)) + f(q)
  {
    WithQueueKeepsKeys(e, s, q);
    if s in e.queues { TotalUpdate(e.keys, e.queues, s, q, f); } else { TotalInsert(e.keys, e.queues, s, q, f); }
  }

  // ------------------------------------------------------------------ where commands are

  function WriteLoad(q: Queues): nat {
    |q.writes|
  }

  /** How often a command is in a slave's queues. */
  function LoadOf(c: Command): Queues -> nat {
    (q: Queues) => multiset(q.polls)[c] + multiset(q.writes)[c]
  }

  /** How often a command is waiting, in the slot or in a queue. */
  ghost function CountIn(e: Exec, c: Command): nat
    requires KeysOk(e)
  {
    (if e.waiting == Some(c) then 1 else 0) + QueueLoad(e, LoadOf(c))
  }

  ghost function PendingWrites(e: Exec): nat
    requires KeysOk(e)
  {
    (if e.waiting.Some? && e.waiting.value.isWrite then 1 else 0) + QueueLoad(e, WriteLoad)
  }

  /** The writes to a slave still to be done, in the order they will be. */
  function PendingWritesOf(e: Exec, s: int): seq<Command> {
    (if e.waiting.Some? && e.waiting.value.isWrite && e.waiting.value.slave == s then [e.waiting.value] else [])
    + QueueOf(e, s).writes
  }

  predicate QueueOk(k: int, q: Queues) {
    && (forall i | 0 <= i < |q.writes| :: q.writes[i].isWrite && q.writes[i].slave == k)
    && (forall i | 0 <= i < |q.polls| :: !q.polls[i].isWrite)
  }

  ghost predicate Sorted(e: Exec) {
    KeysOk(e) && forall k | k in e.queues :: QueueOk(k, e.queues[k])
  }

  /** The write counter is the number of pending and of abandoned writes. */
  ghost predicate Counted(e: Exec)
    requires KeysOk(e)
  {
    e.writesQueued == PendingWrites(e) + e.abandoned
  }

  /** Writes to a slave are finished in the order they were accepted. */
  ghost predicate InOrder(e: Exec) {
    forall s :: WritesOf(e.accepted, s) == WritesOf(e.finished, s) + PendingWritesOf(e, s)
  }

  /** An accepted one-shot command is finished or in exactly one place. */
  ghost predicate Conserved(e: Exec)
    requires KeysOk(e)
  {
    forall c: Command | c.OneShot() :: multiset(e.accepted)[c] == multiset(e.finished)[c] + CountIn(e, c)
  }

  ghost predicate AcceptedOnce(e: Exec) {
    && (forall c :: multiset(e.accepted)[c] <= 1)
    && (forall i | 0 <= i < |e.accepted| :: e.accepted[i].OneShot())
  }

  ghost predicate Placed(e: Exec) {
    Sorted(e) && Counted(e) && InOrder(e) && Conserved(e) && AcceptedOnce(e)
  }

  // ------------------------------------------------------------------ history of the bus and of messages

  function Attempts(bus: seq<BusEvent>, c: Command): nat {
    if bus == [] then 0
    else Attempts(bus[..|bus| - 1], c) + (if bus[|bus| - 1].cmd == c then 1 else 0)
  }

  function Reports(sent: seq<Message>, c: Command): nat {
    if sent == [] then 0
    else Reports(sent[..|sent| - 1], c) + (if sent[|sent| - 1].cmd == c then 1 else 0)
  }

  /** Each bus use starts at least the required silence after the one before it ended. */
  ghost predicate Silent(e: Exec) {
    && (if e.bus == [] then e.last.None?
        else e.last == Some(e.bus[|e.bus| - 1].cmd) && e.lastTime == e.bus[|e.bus| - 1].end)
    && (forall i | 0 < i < |e.bus| :: SilentBefore(e.bus, i))
  }

  /** The bus has been silent for as long as `c` asks, given the command before: for its first-command delay
      if it has one and the slave changes, else for its own delay. */
  predicate SilentFor(last: Option<Command>, c: Command, passed: int) {
    if c.firstDelay != 0 && last.Some? && last.value.slave != c.slave then c.firstDelay <= passed
    else c.delay <= passed
  }

  predicate SilentBefore(bus: seq<BusEvent>, i: nat)
    requires 0 < i < |bus|
  {
    SilentFor(Some(bus[i - 1].cmd), bus[i].cmd, bus[i].start - bus[i - 1].end)
  }

  /** The `i`-th bus use, if a write, is that of the accepted write its ordinal names. */
  ghost predicate OrdinalOk(e: Exec, i: nat)
    requires i < |e.bus|
  {
    var b := e.bus[i];
    b.cmd.isWrite ==>
      && b.ordinal < |WritesOf(e.accepted, b.cmd.slave)|
      && WritesOf(e.accepted, b.cmd.slave)[b.ordinal] == b.cmd
      && b.ordinal <= |WritesOf(e.finished, b.cmd.slave)|
      && (b.ok ==> b.cmd in e.finished)
  }

  predicate SameSlaveWrites(a: BusEvent, b: BusEvent) {
    a.cmd.isWrite && b.cmd.isWrite && a.cmd.slave == b.cmd.slave
  }

  /** Writes to one slave use the bus in the order they were accepted, and not after succeeding. */
  ghost predicate WritesOrdered(e: Exec) {
    && (forall i | 0 <= i < |e.bus| :: OrdinalOk(e, i))
    && (forall i, j | 0 <= i < j < |e.bus| && SameSlaveWrites(e.bus[i], e.bus[j]) ::
          e.bus[i].ordinal <= e.bus[j].ordinal && (e.bus[i].ok ==> e.bus[j].cmd != e.bus[i].cmd))
  }

  predicate AttemptsOk(e: Exec, c: Command) {
    if e.waiting == Some(c) && e.last == Some(c) then
      Attempts(e.bus, c) + e.writeRetry == c.maxWrite == e.maxWrite
    else if c in e.finished then 1 <= Attempts(e.bus, c) <= 1 + c.maxWrite
    else Attempts(e.bus, c) == 0
  }

  predicate ReportsOk(e: Exec, c: Command) {
    Reports(e.sent, c) == if c.isWrite then Attempts(e.bus, c) else if c in e.finished then 1 else 0
  }

  ghost predicate Tracked(e: Exec) {
    && (forall c: Command | c.isWrite :: AttemptsOk(e, c))
    && (forall c: Command | c.OneShot() :: ReportsOk(e, c))
  }

  /** A message tells what became of the bus use that caused it. */
  predicate Truthful(bus: seq<BusEvent>, m: Message) {
    && m.use < |bus| && bus[m.use].cmd == m.cmd
    && m.kind == (if bus[m.use].ok then Values else if m.cmd.isWrite then WriteFailed else ReadFailed)
  }

  ghost predicate Honest(e: Exec) {
    forall i | 0 <= i < |e.sent| :: Truthful(e.bus, e.sent[i])
  }

  ghost predicate Inv(e: Exec) {
    Placed(e) && Silent(e) && WritesOrdered(e) && Tracked(e) && Honest(e)
  }

  // ------------------------------------------------------------------ small facts

  lemma WritesOfAppend(commands: seq<Command>, c: Command, s: int)
    ensures WritesOf(commands + [c], s) ==
      WritesOf(commands, s) + (if c.isWrite && c.slave == s then [c] else [])
  {
    assert (commands + [c])[..|commands|] == commands;
  }

  lemma NoWritePending(e: Exec, s: int)
    requires Sorted(e) && PendingWrites(e) == 0
    ensures PendingWritesOf(e, s) == []
  {
    if s in e.queues { TotalBound(e.keys, e.queues, WriteLoad, s); }
  }

  /** A pending one-shot command was accepted and is not finished. */
  lemma PendingIsUnfinished(e: Exec, c: Command)
    requires Placed(e) && c.OneShot() && 0 < CountIn(e, c)
    ensures c in e.accepted && c !in e.finished && CountIn(e, c) == 1
  {
    assert multiset(e.accepted)[c] == multiset(e.finished)[c] + CountIn(e, c);
  }

  lemma WaitingIsPending(e: Exec)
    requires Placed(e) && e.waiting.Some? && e.waiting.value.OneShot()
    ensures e.waiting.value in e.accepted && e.waiting.value !in e.finished
  {
    PendingIsUnfinished(e, e.waiting.value);
  }

  // ------------------------------------------------------------------ one queue and the slot change

  /** One slave's queues and the waiting slot are replaced. */
  function Put(e: Exec, s: int, q: Queues, w: Option<Command>): Exec {
    WithQueue(e, s, q).(waiting := w)
  }

  function InSlot(w: Option<Command>, c: Command): nat {
    if w == Some(c) then 1 else 0
  }

  function WriteInSlot(w: Option<Command>): nat {
    if w.Some? && w.value.isWrite then 1 else 0
  }

  function SlotWrites(w: Option<Command>, s: int): seq<Command> {
    if w.Some? && w.value.isWrite && w.value.slave == s then [w.value] else []
  }

  lemma PutSorted(e: Exec, s: int, q: Queues, w: Option<Command>)
    requires Sorted(e) && QueueOk(s, q)
    ensures Sorted(Put(e, s, q, w))
  {
    WithQueueKeepsKeys(e, s, q);
  }

  lemma PutCount(e: Exec, s: int, q: Queues, w: Option<Command>, c: Command)
    requires KeysOk(e)
    ensures KeysOk(Put(e, s, q, w))
    ensures CountIn(Put(e, s, q, w), c) ==
      CountIn(e, c) - InSlot(e.waiting, c) + InSlot(w, c) - LoadOf(c)(QueueOf(e, s)) + LoadOf(c)(q)
  {
    WithQueueLoad(e, s, q, LoadOf(c));
  }

  lemma PutWrites(e: Exec, s: int, q: Queues, w: Option<Command>)
    requires KeysOk(e)
    ensures KeysOk(Put(e, s, q, w))
    ensures PendingWrites(Put(e, s, q, w)) ==
      PendingWrites(e) - WriteInSlot(e.waiting) + WriteInSlot(w) - |QueueOf(e, s).writes| + |q.writes|
  {
    WithQueueLoad(e, s, q, WriteLoad);
  }

  lemma PutPendingOf(e: Exec, s: int, q: Queues, w: Option<Command>, t: int)
    ensures PendingWritesOf(Put(e, s, q, w), t) ==
      SlotWrites(w, t) + (if t == s then q.writes else QueueOf(e, t).writes)
  {
  }

  /** Changes of the other fields move no command. */
  lemma SamePlaces(e: Exec, e': Exec)
    requires Sorted(e) && KeysOk(e') && e'.keys == e.keys && e'.queues == e.queues && e'.waiting == e.waiting
    ensures Sorted(e') && PendingWrites(e') == PendingWrites(e)
    ensures forall c :: CountIn(e', c) == CountIn(e, c)
    ensures forall s :: PendingWritesOf(e', s) == PendingWritesOf(e, s)
  {
  }

  // ------------------------------------------------------------------ RPC reads

  ghost predicate NewRead(e: Exec, c: Command) {
    c.IsRpc() && !c.isWrite && c !in e.accepted
  }

  lemma NewIsNowhere(e: Exec, c: Command)
    requires Placed(e) && c.OneShot() && c !in e.accepted
    ensures CountIn(e, c) == 0 && c !in e.finished && e.waiting != Some(c)
    ensures c !in QueueOf(e, c.slave).polls
  {
    assert multiset(e.accepted)[c] == multiset(e.finished)[c] + CountIn(e, c);
    if c.slave in e.queues { TotalBound(e.keys, e.queues, LoadOf(c), c.slave); }
    assert LoadOf(c)(QueueOf(e, c.slave)) == 0;
  }

  lemma AddReadIsPut(e: Exec, c: Command)
    requires Placed(e) && NewRead(e, c)
    ensures var q := QueueOf(e, c.slave);
      var p := Put(e, c.slave, q.(polls := q.polls + [c]), e.waiting);
      var r := AddRead(e, c);
      r == p.(accepted := e.accepted + [c], current := r.current, commandsLeft := r.commandsLeft)
  {
    NewIsNowhere(e, c);
    assert [c][1..] == [];
    var q := QueueOf(e, c.slave);
    assert AddPolls(q, [c]) == q.(polls := q.polls + [c]);
  }

  /** A new command that is in one place keeps the one-place rule. */
  lemma AcceptKeepsConserved(e: Exec, c: Command, r: Exec)
    requires KeysOk(e) && KeysOk(r) && Conserved(e) && r.accepted == e.accepted + [c] && r.finished == e.finished
    requires forall d :: CountIn(r, d) == CountIn(e, d) + if d == c then 1 else 0
    ensures Conserved(r)
  {
    forall d: Command | d.OneShot() ensures multiset(r.accepted)[d] == multiset(r.finished)[d] + CountIn(r, d) {
      assert multiset(e.accepted)[d] == multiset(e.finished)[d] + CountIn(e, d);
    }
  }

  /** A new write that comes last among its slave's pending writes keeps the order. */
  lemma AcceptKeepsOrder(e: Exec, c: Command, r: Exec)
    requires InOrder(e) && r.accepted == e.accepted + [c] && r.finished == e.finished
    requires forall s :: PendingWritesOf(r, s) == PendingWritesOf(e, s) + SlotWrites(Some(c), s)
    ensures InOrder(r)
  {
    forall s ensures WritesOf(r.accepted, s) == WritesOf(r.finished, s) + PendingWritesOf(r, s) {
      WritesOfAppend(e.accepted, c, s);
      assert WritesOf(e.accepted, s) == WritesOf(e.finished, s) + PendingWritesOf(e, s);
    }
  }

  lemma AcceptOnce(e: Exec, c: Command, r: Exec)
    requires AcceptedOnce(e) && c.OneShot() && c !in e.accepted && r.accepted == e.accepted + [c]
    ensures AcceptedOnce(r)
  {
    assert multiset(e.accepted)[c] == 0;
  }

  lemma AddReadCounts(e: Exec, c: Command, p: Exec)
    requires Sorted(e)
    requires p == Put(e, c.slave, QueueOf(e, c.slave).(polls := QueueOf(e, c.slave).polls + [c]), e.waiting)
    ensures KeysOk(p) && PendingWrites(p) == PendingWrites(e)
    ensures forall d :: CountIn(p, d) == CountIn(e, d) + if d == c then 1 else 0
    ensures forall s :: PendingWritesOf(p, s) == PendingWritesOf(e, s)
  {
    var q := QueueOf(e, c.slave);
    var q' := q.(polls := q.polls + [c]);
    WithQueueKeepsKeys(e, c.slave, q');
    assert KeysOk(p);
    hide Sorted, CountIn, KeysOk, PendingWrites, WithQueue;
    PutWrites(e, c.slave, q', e.waiting);
    forall s ensures PendingWritesOf(p, s) == PendingWritesOf(e, s) {
      PutPendingOf(e, c.slave, q', e.waiting, s);
    }
    hide Put, PendingWritesOf;
    forall d ensures CountIn(p, d) == CountIn(e, d) + if d == c then 1 else 0 {
      PutCount(e, c.slave, q', e.waiting, d);
    }
  }

  lemma AddReadSorted(e: Exec, c: Command, p: Exec)
    requires Sorted(e) && !c.isWrite
    requires p == Put(e, c.slave, QueueOf(e, c.slave).(polls := QueueOf(e, c.slave).polls + [c]), e.waiting)
    ensures Sorted(p) && c.slave in p.queues
  {
    if c.slave in e.queues { assert QueueOk(c.slave, e.queues[c.slave]); }
    PutSorted(e, c.slave, QueueOf(e, c.slave).(polls := QueueOf(e, c.slave).polls + [c]), e.waiting);
  }

  lemma AddReadPlaced(e: Exec, c: Command)
    requires Placed(e) && NewRead(e, c)
    ensures Placed(AddRead(e, c))
  {
    var r := AddRead(e, c);
    var p := Put(e, c.slave, QueueOf(e, c.slave).(polls := QueueOf(e, c.slave).polls + [c]), e.waiting);
    AddReadIsPut(e, c);
    AddReadSorted(e, c, p);
    assert KeysOk(r);
    hide AddRead, KeysOk, CountIn, QueueLoad, Put;
    AddReadCounts(e, c, p);
    SamePlaces(p, r);
    AcceptKeepsOrder(e, c, r);
    AcceptKeepsConserved(e, c, r);
    AcceptOnce(e, c, r);
  }

  // ------------------------------------------------------------------ writes

  ghost predicate NewWrite(e: Exec, c: Command) {
    c.isWrite && c !in e.accepted
  }

  /** `p` holds what `e` holds and the write `c`, last among the writes to its slave. */
  ghost predicate Gained(e: Exec, p: Exec, c: Command)
    requires KeysOk(e)
  {
    && Sorted(p) && PendingWrites(p) == PendingWrites(e) + 1
    && (forall d :: CountIn(p, d) == CountIn(e, d) + if d == c then 1 else 0)
    && (forall s :: PendingWritesOf(p, s) == PendingWritesOf(e, s) + SlotWrites(Some(c), s))
  }

  lemma GainedPlaced(e: Exec, c: Command, p: Exec, r: Exec)
    requires Placed(e) && NewWrite(e, c) && Gained(e, p, c) && KeysOk(r)
    requires r.keys == p.keys && r.queues == p.queues && r.waiting == p.waiting
    requires r.accepted == e.accepted + [c] && r.finished == e.finished
    requires r.writesQueued == e.writesQueued + 1 && r.abandoned == e.abandoned
    ensures Placed(r)
  {
    SamePlaces(p, r);
    AcceptKeepsOrder(e, c, r);
    AcceptKeepsConserved(e, c, r);
    AcceptOnce(e, c, r);
  }

  lemma QueueOfOk(e: Exec, s: int)
    requires Sorted(e)
    ensures QueueOk(s, QueueOf(e, s))
  {
    if s in e.queues { assert QueueOk(s, e.queues[s]); }
  }

  lemma EnqueueGains(e: Exec, c: Command, p: Exec)
    requires Sorted(e) && c.isWrite && p == Put(e, c.slave, AddWrite(QueueOf(e, c.slave), c), e.waiting)
    ensures Gained(e, p, c)
  {
    var q' := AddWrite(QueueOf(e, c.slave), c);
    QueueOfOk(e, c.slave);
    PutSorted(e, c.slave, q', e.waiting);
    assert KeysOk(e) && |q'.writes| == |QueueOf(e, c.slave).writes| + 1;
    hide Sorted, CountIn, KeysOk, PendingWrites, PendingWritesOf, Put, AddWrite;
    PutWrites(e, c.slave, q', e.waiting);
    forall s ensures PendingWritesOf(p, s) == PendingWritesOf(e, s) + SlotWrites(Some(c), s) {
      EnqueuePending(e, c, p, s);
    }
    forall d ensures CountIn(p, d) == CountIn(e, d) + if d == c then 1 else 0 {
      PutCount(e, c.slave, q', e.waiting, d);
      AddWriteLoad(QueueOf(e, c.slave), c, d);
    }
  }

  lemma EnqueuePending(e: Exec, c: Command, p: Exec, s: int)
    requires c.isWrite && p == Put(e, c.slave, AddWrite(QueueOf(e, c.slave), c), e.waiting)
    ensures PendingWritesOf(p, s) == PendingWritesOf(e, s) + SlotWrites(Some(c), s)
  {
    PutPendingOf(e, c.slave, AddWrite(QueueOf(e, c.slave), c), e.waiting, s);
    hide Put;
  }

  lemma AddWriteLoad(q: Queues, c: Command, d: Command)
    ensures LoadOf(d)(AddWrite(q, c)) == LoadOf(d)(q) + if d == c then 1 else 0
  {
  }

  lemma DisplaceGains(e: Exec, c: Command, d: Command, p: Exec)
    requires Sorted(e) && c.isWrite && e.waiting == Some(d) && PendingWrites(e) == 0
    requires p == Put(e, c.slave, Readd(QueueOf(e, c.slave), d), Some(c))
    ensures Gained(e, p, c)
  {
    var q' := Readd(QueueOf(e, c.slave), d);
    QueueOfOk(e, c.slave);
    assert !d.isWrite by { hide QueueLoad; }
    PutSorted(e, c.slave, q', Some(c));
    hide Sorted, CountIn, KeysOk, PendingWrites;
    PutWrites(e, c.slave, q', Some(c));
    forall s ensures PendingWritesOf(p, s) == PendingWritesOf(e, s) + SlotWrites(Some(c), s) {
      NoWritePending(e, s);
      PutPendingOf(e, c.slave, q', Some(c), s);
      if c.slave == s { assert QueueOf(e, s).writes == []; }
    }
    hide PendingWritesOf, Put, WithQueue;
    forall x ensures CountIn(p, x) == CountIn(e, x) + if x == c then 1 else 0 {
      PutCount(e, c.slave, q', Some(c), x);
    }
  }

  lemma TakeSlotGains(e: Exec, c: Command, p: Exec)
    requires Sorted(e) && c.isWrite && e.waiting.None? && PendingWrites(e) == 0 && p == e.(waiting := Some(c))
    ensures Gained(e, p, c)
  {
    hide Total;
    forall s ensures PendingWritesOf(p, s) == PendingWritesOf(e, s) + SlotWrites(Some(c), s) {
      NoWritePending(e, s);
    }
  }

  lemma AddWritePlaced(e: Exec, c: Command)
    requires Placed(e) && NewWrite(e, c)
    ensures Placed(AddWriteCommand(e, c))
  {
    var r := AddWriteCommand(e, c);
    var q := QueueOf(e, c.slave);
    hide CountIn, PendingWritesOf, QueueLoad, InOrder, Conserved, AcceptedOnce;
    if e.writesQueued != 0 {
      var p := Put(e, c.slave, AddWrite(q, c), e.waiting);
      EnqueueGains(e, c, p);
      GainedPlaced(e, c, p, r);
    } else if e.waiting.Some? {
      var p := Put(e, c.slave, Readd(q, e.waiting.value), Some(c));
      DisplaceGains(e, c, e.waiting.value, p);
      GainedPlaced(e, c, p, r);
    } else {
      var p := e.(waiting := Some(c));
      TakeSlotGains(e, c, p);
      GainedPlaced(e, c, p, r);
    }
  }

  /** The fast path never displaces a write: with the counter at zero, none is pending. */
  lemma FastPathDisplacesPolls(e: Exec)
    requires Placed(e) && e.writesQueued == 0
    ensures e.waiting.Some? ==> !e.waiting.value.isWrite
    ensures forall s | s in e.queues :: e.queues[s].writes == []
  {
    forall s | s in e.queues ensures e.queues[s].writes == [] { NoWritePending(e, s); }
  }

  // ------------------------------------------------------------------ moving commands around

  /** `p` holds the same one-shot commands as `e`, and each slave's writes in the same order. */
  ghost predicate Kept(e: Exec, p: Exec)
    requires KeysOk(e)
  {
    && Sorted(p) && PendingWrites(p) == PendingWrites(e)
    && (forall d: Command | d.OneShot() :: CountIn(p, d) == CountIn(e, d))
    && (forall s :: PendingWritesOf(p, s) == PendingWritesOf(e, s))
  }

  lemma KeptPlaced(e: Exec, p: Exec, r: Exec)
    requires Placed(e) && Kept(e, p) && KeysOk(r)
    requires r.keys == p.keys && r.queues == p.queues && r.waiting == p.waiting
    requires r.accepted == e.accepted && r.finished == e.finished
    requires r.writesQueued == e.writesQueued && r.abandoned == e.abandoned
    ensures Placed(r)
  {
    SamePlaces(p, r);
    forall d: Command | d.OneShot() ensures multiset(r.accepted)[d] == multiset(r.finished)[d] + CountIn(r, d) {
      assert multiset(e.accepted)[d] == multiset(e.finished)[d] + CountIn(e, d);
    }
    forall s ensures WritesOf(r.accepted, s) == WritesOf(r.finished, s) + PendingWritesOf(r, s) {
      assert WritesOf(e.accepted, s) == WritesOf(e.finished, s) + PendingWritesOf(e, s);
    }
  }

  lemma PopOk(k: int, q: Queues)
    requires QueueOk(k, q) && !q.Empty()
    ensures QueueOk(k, PopNext(q))
    ensures Popped(q).isWrite <==> !PoppedFrom(q)
    ensures Popped(q).isWrite ==> Popped(q).slave == k
    ensures q.writes == (if Popped(q).isWrite then [Popped(q)] else []) + PopNext(q).writes
  {
  }

  lemma PopLoad(q: Queues, c: Command)
    requires !q.Empty()
    ensures LoadOf(c)(q) == LoadOf(c)(PopNext(q)) + InSlot(Some(Popped(q)), c)
  {
    if PoppedFrom(q) {
      assert q.polls == [q.polls[0]] + q.polls[1..];
    } else {
      assert q.writes == [q.writes[0]] + q.writes[1..];
    }
  }

  lemma PopKeeps(e: Exec)
    requires Sorted(e) && e.waiting.None? && CanPop(e)
    ensures Kept(e, PopCurrent(e)) && KeysOk(PopCurrent(e))
  {
    var s := e.current.value;
    var q := e.queues[s];
    var p := PopCurrent(e);
    assert QueueOk(s, q);
    PopOk(s, q);
    assert p == Put(e, s, PopNext(q), Some(Popped(q)));
    hide PopCurrent, PopNext, Popped, Put;
    PutSorted(e, s, PopNext(q), Some(Popped(q)));
    PutWrites(e, s, PopNext(q), Some(Popped(q)));
    forall t ensures PendingWritesOf(p, t) == PendingWritesOf(e, t) {
      PutPendingOf(e, s, PopNext(q), Some(Popped(q)), t);
    }
    PopCounts(e, s, p);
  }

  lemma PopCounts(e: Exec, s: int, p: Exec)
    requires KeysOk(e) && e.waiting.None? && s in e.queues && !e.queues[s].Empty()
    requires p == Put(e, s, PopNext(e.queues[s]), Some(Popped(e.queues[s])))
    ensures KeysOk(p) && forall d :: CountIn(p, d) == CountIn(e, d)
  {
    var q := e.queues[s];
    WithQueueKeepsKeys(e, s, PopNext(q));
    hide CountIn, KeysOk, PopNext, Popped;
    forall d ensures CountIn(p, d) == CountIn(e, d) {
      PutCount(e, s, PopNext(q), Some(Popped(q)), d);
      PopLoad(q, d);
    }
  }

  lemma MoveOnPlaced(e: Exec, s: int)
    requires Placed(e) && e.waiting.None? && s in e.queues && !e.queues[s].Empty()
    ensures Placed(ResetCounter(PopCurrent(e.(current := Some(s)))))
  {
    var e1 := e.(current := Some(s));
    SamePlaces(e, e1);
    PopKeeps(e1);
    hide PopCurrent, CountIn, PendingWrites, PendingWritesOf;
    KeptPlaced(e, PopCurrent(e1), ResetCounter(PopCurrent(e1)));
  }

  lemma ChoosePlaced(e: Exec)
    requires Placed(e) && !AllDone(e)
    ensures Placed(Choose(e))
    ensures e.waiting.Some? ==> Choose(e) == e
  {
    assert KeysOk(e);
    hide PopCurrent, Placed, ResetCounter;
    if e.waiting.None? && e.current.Some? {
      if e.commandsLeft == 0 || e.queues[e.current.value].Empty() {
        MoveOnPlaced(e, e.keys[NextBusy(e)]);
      } else {
        PopPlaced(e);
      }
    }
  }

  lemma PopPlaced(e: Exec)
    requires Placed(e) && e.waiting.None? && CanPop(e)
    ensures Placed(PopCurrent(e))
  {
    PopKeeps(e);
    KeptPlaced(e, PopCurrent(e), PopCurrent(e));
  }

  // ------------------------------------------------------------------ scheduled polls

  predicate NoOneShots(list: seq<Command>) {
    forall i | 0 <= i < |list| :: !list[i].OneShot()
  }

  ghost predicate ScheduledOnly(regs: PollMap) {
    forall i | 0 <= i < |regs| :: NoOneShots(regs[i].1)
  }

  lemma InsertOneKeeps(e: Exec, s: int, list: seq<Command>)
    requires Sorted(e) && NoOneShots(list)
    ensures Kept(e, WithQueue(e, s, AddPolls(QueueOf(e, s), list)))
  {
    var q := QueueOf(e, s);
    var q' := AddPolls(q, list);
    var p := WithQueue(e, s, q');
    AddPollsKeeps(q, list);
    QueueOfOk(e, s);
    forall i | 0 <= i < |q'.polls| ensures !q'.polls[i].isWrite {
      assert q'.polls[i] in q'.polls;
    }
    assert p == Put(e, s, q', e.waiting);
    hide AddPolls, WithQueue;
    PutSorted(e, s, q', e.waiting);
    hide Sorted, KeysOk, CountIn, PendingWrites;
    PutWrites(e, s, q', e.waiting);
    forall t ensures PendingWritesOf(p, t) == PendingWritesOf(e, t) {
      PutPendingOf(e, s, q', e.waiting, t);
    }
    hide PendingWritesOf, Put, QueueOk;
    forall d: Command | d.OneShot() ensures CountIn(p, d) == CountIn(e, d) {
      PutCount(e, s, q', e.waiting, d);
      AddPollsCounts(q, list, d);
    }
  }

  lemma {:induction false} InsertPollsKeeps(e: Exec, regs: PollMap)
    requires Sorted(e) && ScheduledOnly(regs)
    ensures Kept(e, InsertPolls(e, regs))
    ensures InsertPolls(e, regs) == e.(keys := InsertPolls(e, regs).keys, queues := InsertPolls(e, regs).queues)
    decreases |regs|
  {
    if regs != [] {
      InsertOneKeeps(e, regs[0].0, regs[0].1);
      InsertPollsKeeps(WithQueue(e, regs[0].0, AddPolls(QueueOf(e, regs[0].0), regs[0].1)), regs[1..]);
    }
  }

  /** Nothing but scheduled polls anywhere. */
  ghost predicate Quiet(e: Exec) {
    && KeysOk(e) && (e.waiting.Some? ==> !e.waiting.value.OneShot())
    && forall k | k in e.queues :: QuietQueue(e.queues[k])
  }

  predicate QuietQueue(q: Queues) {
    q.writes == [] && NoOneShots(q.polls)
  }

  lemma QuietIsKept(e: Exec, p: Exec)
    requires Quiet(e) && Quiet(p)
    ensures Kept(e, p)
  {
    QuietHoldsNothing(e);
    QuietHoldsNothing(p);
  }

  lemma QuietHoldsNothing(e: Exec)
    requires Quiet(e)
    ensures Sorted(e) && PendingWrites(e) == 0
    ensures forall d: Command | d.OneShot() :: CountIn(e, d) == 0
    ensures forall s :: PendingWritesOf(e, s) == []
  {
    assert forall k | k in e.queues :: QuietQueue(e.queues[k]);
    TotalZero(e.keys, e.queues, WriteLoad);
    forall d: Command | d.OneShot() ensures CountIn(e, d) == 0 {
      forall k | k in e.queues ensures LoadOf(d)(e.queues[k]) == 0 {
        assert QuietQueue(e.queues[k]);
      }
      TotalZero(e.keys, e.queues, LoadOf(d));
    }
  }

  lemma {:induction false} InsertPollsQuiet(e: Exec, regs: PollMap)
    requires Quiet(e) && ScheduledOnly(regs)
    ensures Quiet(InsertPolls(e, regs))
    decreases |regs|
  {
    if regs != [] {
      var q := QueueOf(e, regs[0].0);
      var q' := AddPolls(q, regs[0].1);
      AddPollsKeeps(q, regs[0].1);
      WithQueueKeepsKeys(e, regs[0].0, q');
      forall i | 0 <= i < |q'.polls| ensures !q'.polls[i].OneShot() {
        assert q'.polls[i] in q'.polls;
      }
      InsertPollsQuiet(WithQueue(e, regs[0].0, q'), regs[1..]);
    }
  }

  lemma UpdateKeepsQuiet(e: Exec, s: int, q: Queues, w: Option<Command>, c: Option<int>)
    requires Quiet(e) && s in e.queues && QuietQueue(q)
    requires (w.Some? ==> !w.value.OneShot()) && (c == e.current || c == Some(s))
    ensures Quiet(SetQ(e, s, q).(waiting := w, current := c))
  {
  }

  lemma ElectOneQuiet(e: Exec, s: int, period: int, best: Duration)
    requires Quiet(e) && s in e.queues
    ensures var (r, d) := ElectOne(e, s, period, best);
      Quiet(r) && r == e.(queues := r.queues, waiting := r.waiting, current := r.current)
  {
    var q := e.queues[s];
    assert QuietQueue(q) && (e.waiting.Some? ==> !e.waiting.value.OneShot());
    var ignoreFirst := e.current == Some(s);
    var (delay, found) := Scan(q.polls, period, ignoreFirst, 0, Infinite, q.lastFound);
    ScanIsFresh(q.polls, period, ignoreFirst, 0, Infinite, q.lastFound);
    hide Scan, Quiet;
    var q1 := q.(lastFound := found);
    if delay.Less(best) {
      EraseKeepsQuiet(q1);
      UpdateKeepsQuiet(e, s, EraseFound(q1), Some(q.polls[found.value]), Some(s));
    } else {
      UpdateKeepsQuiet(e, s, q1, e.waiting, e.current);
    }
  }

  lemma EraseKeepsQuiet(q: Queues)
    requires QuietQueue(q) && q.lastFound.Some? && q.lastFound.value < |q.polls|
    ensures QuietQueue(EraseFound(q)) && !q.polls[q.lastFound.value].OneShot()
  {
  }

  /** The election may drop scheduled polls, but touches nothing else. */
  lemma {:induction false} ElectQuiet(e: Exec, i: nat, period: int, best: Duration)
    requires Quiet(e) && i <= |e.keys|
    ensures var r := Elect(e, i, period, best);
      Quiet(r) && r == e.(queues := r.queues, waiting := r.waiting, current := r.current)
    decreases |e.keys| - i
  {
    if i < |e.keys| && best != Finite(0) {
      hide ElectOne;
      var (e1, best1) := ElectOne(e, e.keys[i], period, best);
      ElectOneQuiet(e, e.keys[i], period, best);
      ElectQuiet(e1, i + 1, period, best1);
    }
  }

  lemma PopQuiet(e: Exec)
    requires Quiet(e) && CanPop(e)
    ensures var r := PopCurrent(e);
      Quiet(r) && r == e.(queues := r.queues, waiting := r.waiting)
  {
    var s := e.current.value;
    assert s in e.queues;
    var q := e.queues[s];
    assert QuietQueue(q);
    assert QuietQueue(PopNext(q));
  }

  lemma StartPollsQuiet(e: Exec, first: int, period: int)
    requires Quiet(e) && first in e.queues
    ensures var r := StartPolls(e, first, period);
      && Quiet(r)
      && r == e.(queues := r.queues, waiting := r.waiting, current := r.current, commandsLeft := r.commandsLeft)
  {
    var e0 := ResetCounter(e.(current := Some(first)));
    var e1 := Elect(e0, 0, period, Infinite);
    ElectQuiet(e0, 0, period, Infinite);
    hide Elect;
    if e1.waiting.None? && CanPop(e1) { PopQuiet(e1); }
  }

  lemma {:induction false} FirstAddedIsQueued(e: Exec, regs: PollMap)
    requires KeysOk(e)
    ensures e.queues.Keys <= InsertPolls(e, regs).queues.Keys
    ensures FirstAdded(regs).Some? ==> FirstAdded(regs).value in InsertPolls(e, regs).queues
    decreases |regs|
  {
    if regs != [] {
      var q' := AddPolls(QueueOf(e, regs[0].0), regs[0].1);
      WithQueueKeepsKeys(e, regs[0].0, q');
      FirstAddedIsQueued(WithQueue(e, regs[0].0, q'), regs[1..]);
    }
  }

  /** Only the queues, the slot and the cursor differ, and a new command in the slot is a scheduled poll. */
  predicate Rearranged(e: Exec, r: Exec) {
    && r == e.(keys := r.keys, queues := r.queues, waiting := r.waiting, current := r.current,
               commandsLeft := r.commandsLeft, initialPoll := r.initialPoll)
    && (r.waiting != e.waiting ==> r.waiting.Some? && !r.waiting.value.OneShot())
  }

  lemma InsertPollsPlaced(e: Exec, regs: PollMap)
    requires Placed(e) && ScheduledOnly(regs)
    ensures Placed(InsertPolls(e, regs)) && Rearranged(e, InsertPolls(e, regs))
  {
    InsertPollsKeepsKeys(e, regs);
    InsertPollsKeeps(e, regs);
    hide InsertPolls, CountIn, PendingWrites, PendingWritesOf;
    KeptPlaced(e, InsertPolls(e, regs), InsertPolls(e, regs));
  }

  lemma StartPollsPlaced(e: Exec, regs: PollMap, period: int)
    requires Placed(e) && ScheduledOnly(regs) && AllDone(e) && FirstAdded(regs).Some?
    ensures KeysOk(InsertPolls(e, regs))
    ensures var r := StartPolls(InsertPolls(e, regs), FirstAdded(regs).value, period);
      Placed(r) && Rearranged(e, r)
  {
    var e1 := InsertPolls(e, regs);
    var first := FirstAdded(regs).value;
    assert Quiet(e);
    InsertPollsQuiet(e, regs);
    InsertPollsPlaced(e, regs);
    FirstAddedIsQueued(e, regs);
    hide InsertPolls;
    var r := StartPolls(e1, first, period);
    StartPollsQuiet(e1, first, period);
    hide StartPolls;
    QuietIsKept(e, r);
    hide CountIn, PendingWrites, PendingWritesOf;
    KeptPlaced(e, r, r);
  }

  lemma AddPollListPlaced(e: Exec, regs: PollMap, initialPoll: bool, now: int)
    requires Placed(e) && ScheduledOnly(regs)
    ensures Placed(WithPollList(e, regs, initialPoll, now)) && Rearranged(e, WithPollList(e, regs, initialPoll, now))
  {
    hide StartPolls, InsertPolls, CountIn, PendingWrites, PendingWritesOf;
    var e0 := e.(initialPoll := e.initialPoll || initialPoll);
    FlagPlaced(e, e0.initialPoll);
    if e.initialPoll && !PollDone(e) {
    } else if !AllDone(e) || FirstAdded(regs).None? {
      InsertPollsPlaced(e0, regs);
    } else {
      StartPollsPlaced(e0, regs, now - e.lastTime);
    }
  }

  lemma FlagPlaced(e: Exec, flag: bool)
    requires Placed(e)
    ensures Placed(e.(initialPoll := flag))
  {
    SamePlaces(e, e.(initialPoll := flag));
    KeptPlaced(e, e, e.(initialPoll := flag));
  }
}
