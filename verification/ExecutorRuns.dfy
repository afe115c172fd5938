/** The executor's laws over every run of its calls. */
module ExecutorRuns {
  import opened Options
  import opened RequestQueues
  import opened Executor
  import opened ExecutorInvariants

  // ------------------------------------------------------------------ one use of the bus

  /** The command in the slot is done: it leaves the slot and, if one-shot, is listed as finished. */
  lemma FinishPlaced(e: Exec, c: Command, r: Exec)
    requires Placed(e) && e.waiting == Some(c) && KeysOk(r)
    requires r.keys == e.keys && r.queues == e.queues && r.waiting.None? && r.accepted == e.accepted
    requires r.finished == if c.OneShot() then e.finished + [c] else e.finished
    requires r.writesQueued - r.abandoned == e.writesQueued - e.abandoned - WriteInSlot(e.waiting)
    ensures Placed(r)
  {
    FinishInOrder(e, c, r);
    FinishConserved(e, c, r);
  }

  lemma FinishInOrder(e: Exec, c: Command, r: Exec)
    requires InOrder(e) && e.waiting == Some(c) && r.queues == e.queues && r.waiting.None? && r.accepted == e.accepted
    requires r.finished == if c.OneShot() then e.finished + [c] else e.finished
    ensures InOrder(r)
  {
    forall s ensures WritesOf(r.accepted, s) == WritesOf(r.finished, s) + PendingWritesOf(r, s) {
      assert WritesOf(e.accepted, s) == WritesOf(e.finished, s) + PendingWritesOf(e, s);
      hide InOrder, WritesOf;
      FinishOne(e, c, r, s);
    }
  }

  lemma Reassociate(a: seq<Command>, b: seq<Command>, c: seq<Command>)
    ensures a + (b + c) == (a + b) + c
  {
  }

  lemma FinishOne(e: Exec, c: Command, r: Exec, s: int)
    requires e.waiting == Some(c) && r.queues == e.queues && r.waiting.None?
    requires r.finished == if c.OneShot() then e.finished + [c] else e.finished
    ensures WritesOf(e.finished, s) + PendingWritesOf(e, s) == WritesOf(r.finished, s) + PendingWritesOf(r, s)
  {
    WritesOfAppend(e.finished, c, s);
    hide WritesOf;
    var f, w, q := WritesOf(e.finished, s), SlotWrites(Some(c), s), PendingWritesOf(r, s);
    assert PendingWritesOf(e, s) == w + q;
    assert WritesOf(r.finished, s) == f + w;
    hide PendingWritesOf, SlotWrites;
    Reassociate(f, w, q);
  }

  lemma FinishConserved(e: Exec, c: Command, r: Exec)
    requires KeysOk(e) && KeysOk(r) && Conserved(e) && e.waiting == Some(c)
    requires r.keys == e.keys && r.queues == e.queues && r.waiting.None? && r.accepted == e.accepted
    requires r.finished == if c.OneShot() then e.finished + [c] else e.finished
    ensures Conserved(r)
  {
    forall d: Command | d.OneShot() ensures multiset(r.accepted)[d] == multiset(r.finished)[d] + CountIn(r, d) {
      assert multiset(e.accepted)[d] == multiset(e.finished)[d] + CountIn(e, d);
      assert CountIn(e, d) == CountIn(r, d) + InSlot(Some(c), d);
    }
  }

  /** What one use of the bus does to the places commands can be in. */
  lemma SendMoves(e: Exec, o: Outcome)
    requires e.waiting.Some?
    ensures var c := e.waiting.value; var r := Send(e, o);
      && r.keys == e.keys && r.queues == e.queues && r.current == e.current && r.accepted == e.accepted
      && (r.waiting == e.waiting ==>
            r.finished == e.finished && r.writesQueued == e.writesQueued && r.abandoned == e.abandoned)
      && (r.waiting != e.waiting ==>
            && r.waiting.None? && r.finished == (if c.OneShot() then e.finished + [c] else e.finished)
            && r.writesQueued - r.abandoned == e.writesQueued - e.abandoned - WriteInSlot(e.waiting))
  {
    SendFields(e, o);
    hide Send;
  }

  lemma SendPlaced(e: Exec, o: Outcome)
    requires Placed(e) && e.waiting.Some?
    ensures Placed(Send(e, o))
  {
    var r := Send(e, o);
    SendMoves(e, o);
    hide Send;
    assert KeysOk(r);
    if r.waiting == e.waiting {
      KeptPlaced(e, e, r);
    } else {
      FinishPlaced(e, e.waiting.value, r);
    }
  }

  /** The clock does not run backwards during and before the call. */
  predicate Monotone(e: Exec, o: Outcome) {
    e.lastTime <= o.now <= o.start <= o.end
  }

  lemma SendSilent(e: Exec, o: Outcome)
    requires Silent(e) && e.waiting.Some? && Monotone(e, o) && !MustWait(e, o.now)
    ensures Silent(Send(e, o))
  {
    var r := Send(e, o);
    SendFields(e, o);
    hide Send;
    var n := |e.bus|;
    forall i | 0 < i < |r.bus| ensures SilentBefore(r.bus, i) {
      if i < n { assert SilentBefore(e.bus, i); }
    }
  }

  lemma WritesOfPrefix(commands: seq<Command>, c: Command, s: int)
    ensures WritesOf(commands, s) <= WritesOf(commands + [c], s)
  {
    WritesOfAppend(commands, c, s);
  }

  lemma OrdinalsKept(e: Exec, r: Exec, i: nat)
    requires i < |e.bus| <= |r.bus| && r.bus[i] == e.bus[i] && OrdinalOk(e, i)
    requires r.accepted == e.accepted || exists c :: r.accepted == e.accepted + [c]
    requires r.finished == e.finished || exists c :: r.finished == e.finished + [c]
    ensures OrdinalOk(r, i)
  {
    var s := e.bus[i].cmd.slave;
    if r.accepted != e.accepted {
      var c :| r.accepted == e.accepted + [c];
      WritesOfPrefix(e.accepted, c, s);
    }
    if r.finished != e.finished {
      var c :| r.finished == e.finished + [c];
      WritesOfPrefix(e.finished, c, s);
    }
  }

  lemma SendOrdinal(e: Exec, o: Outcome)
    requires Placed(e) && e.waiting.Some?
    ensures OrdinalOk(Send(e, o), |e.bus|)
  {
    var c := e.waiting.value;
    var r := Send(e, o);
    SendFields(e, o);
    hide Send;
    if c.isWrite {
      assert WritesOf(e.accepted, c.slave) == WritesOf(e.finished, c.slave) + PendingWritesOf(e, c.slave);
      WritesOfPrefix(e.finished, c, c.slave);
    }
  }

  lemma AppendKeepsOrder(e: Exec, r: Exec, b: BusEvent)
    requires WritesOrdered(e) && r.bus == e.bus + [b] && forall i | 0 <= i < |r.bus| :: OrdinalOk(r, i)
    requires b.cmd.isWrite ==> b.ordinal == |WritesOf(e.finished, b.cmd.slave)| && b.cmd !in e.finished
    ensures WritesOrdered(r)
  {
    forall i, j | 0 <= i < j < |r.bus| && SameSlaveWrites(r.bus[i], r.bus[j])
      ensures r.bus[i].ordinal <= r.bus[j].ordinal && (r.bus[i].ok ==> r.bus[j].cmd != r.bus[i].cmd)
    {
      assert r.bus[i] == e.bus[i] && OrdinalOk(e, i);
    }
  }

  lemma SendWritesOrdered(e: Exec, o: Outcome)
    requires Placed(e) && WritesOrdered(e) && e.waiting.Some?
    ensures WritesOrdered(Send(e, o))
  {
    var c := e.waiting.value;
    var r := Send(e, o);
    SendFields(e, o);
    SendOrdinal(e, o);
    if c.isWrite { WaitingIsPending(e); }
    hide Placed, Send, LoadRetries, Retries, MessagesOf;
    assert r.finished == e.finished || r.finished == e.finished + [c];
    forall i | 0 <= i < |r.bus| ensures OrdinalOk(r, i) {
      if i < |e.bus| { OrdinalsKept(e, r, i); }
    }
    hide OrdinalOk, WritesOrdered;
    AppendKeepsOrder(e, r, r.bus[|e.bus|]);
  }

  lemma AttemptsAppend(bus: seq<BusEvent>, b: BusEvent, c: Command)
    ensures Attempts(bus + [b], c) == Attempts(bus, c) + if b.cmd == c then 1 else 0
  {
    assert (bus + [b])[..|bus|] == bus;
  }

  lemma ReportsAppend(sent: seq<Message>, m: Message, c: Command)
    ensures Reports(sent + [m], c) == Reports(sent, c) + if m.cmd == c then 1 else 0
  {
    assert (sent + [m])[..|sent|] == sent;
  }

  lemma LastWasAttempted(e: Exec, c: Command)
    requires Silent(e) && e.last == Some(c)
    ensures 0 < Attempts(e.bus, c)
  {
  }

  lemma SendAttempts(e: Exec, o: Outcome, d: Command)
    requires Placed(e) && e.waiting.Some? && d.isWrite && AttemptsOk(e, d)
    ensures AttemptsOk(Send(e, o), d)
  {
    var c := e.waiting.value;
    SendFields(e, o);
    if c.isWrite { WaitingIsPending(e); }
    var e1 := LoadRetries(e, c);
    var b := Send(e, o).bus[|e.bus|];
    assert b.cmd == c;
    AttemptsAppend(e.bus, b, d);
    hide Send, Placed, MessagesOf, WritesOf, Attempts;
    if d != c {
      OtherAttempts(e, Send(e, o), c, d);
    }
  }

  lemma OtherAttempts(e: Exec, r: Exec, c: Command, d: Command)
    requires d != c && e.waiting == Some(c) && (r.waiting.Some? ==> r.waiting == e.waiting) && AttemptsOk(e, d)
    requires Attempts(r.bus, d) == Attempts(e.bus, d) && (r.finished == e.finished || r.finished == e.finished + [c])
    ensures AttemptsOk(r, d)
  {
    assert d in r.finished <==> d in e.finished;
  }

  lemma MessagesReport(e: Exec, c: Command, o: Outcome, retry: bool, d: Command)
    ensures Reports(e.sent + MessagesOf(e.initialPoll, |e.bus|, c, o, retry), d) ==
      Reports(e.sent, d) + if d == c then |MessagesOf(e.initialPoll, |e.bus|, c, o, retry)| else 0
  {
    var m := MessagesOf(e.initialPoll, |e.bus|, c, o, retry);
    if m == [] {
      assert e.sent + m == e.sent;
    } else {
      assert m == [m[0]] && m[0].cmd == c;
      ReportsAppend(e.sent, m[0], d);
    }
  }

  /** A write reports every attempt, an RPC read the last one. */
  lemma OneShotMessages(initialPoll: bool, use: nat, c: Command, o: Outcome, retry: bool)
    requires c.OneShot()
    ensures |MessagesOf(initialPoll, use, c, o, retry)| == if c.isWrite || o.ok || !retry then 1 else 0
  {
  }

  lemma OtherReports(e: Exec, r: Exec, c: Command, d: Command)
    requires d != c && ReportsOk(e, d) && (r.finished == e.finished || r.finished == e.finished + [c])
    requires Attempts(r.bus, d) == Attempts(e.bus, d) && Reports(r.sent, d) == Reports(e.sent, d)
    ensures ReportsOk(r, d)
  {
    assert d in r.finished <==> d in e.finished;
  }

  lemma UseReports(e: Exec, r: Exec, b: BusEvent, o: Outcome, retry: bool, d: Command)
    requires r.bus == e.bus + [b] && r.sent == e.sent + MessagesOf(e.initialPoll, |e.bus|, b.cmd, o, retry)
    requires r.finished == if !retry && b.cmd.OneShot() then e.finished + [b.cmd] else e.finished
    requires (b.cmd.OneShot() ==> b.cmd !in e.finished) && (retry ==> !o.ok) && d.OneShot() && ReportsOk(e, d)
    ensures ReportsOk(r, d)
  {
    hide MessagesOf, Attempts, Reports;
    AttemptsAppend(e.bus, b, d);
    MessagesReport(e, b.cmd, o, retry, d);
    if d != b.cmd {
      OtherReports(e, r, b.cmd, d);
    } else {
      OneShotMessages(e.initialPoll, |e.bus|, d, o, retry);
    }
  }

  lemma SendReports(e: Exec, o: Outcome, d: Command)
    requires Placed(e) && e.waiting.Some? && d.OneShot() && ReportsOk(e, d)
    ensures ReportsOk(Send(e, o), d)
  {
    var c := e.waiting.value;
    SendFields(e, o);
    if c.OneShot() { WaitingIsPending(e); }
    hide Send, Placed, MessagesOf, ReportsOk, LoadRetries;
    UseReports(e, Send(e, o), BusEvent(c, o.start, o.end, o.ok, |WritesOf(e.finished, c.slave)|), o,
               Retries(LoadRetries(e, c), c, o.ok), d);
  }

  lemma SendHonest(e: Exec, o: Outcome)
    requires Honest(e) && e.waiting.Some?
    ensures Honest(Send(e, o))
  {
    var r := Send(e, o);
    SendFields(e, o);
    hide Send;
    forall i | 0 <= i < |r.sent| ensures Truthful(r.bus, r.sent[i]) {
      if i < |e.sent| { assert Truthful(e.bus, e.sent[i]); }
    }
  }

  lemma SendKeepsInv(e: Exec, o: Outcome)
    requires Inv(e) && e.waiting.Some? && Monotone(e, o) && !MustWait(e, o.now)
    ensures Inv(Send(e, o))
  {
    hide Placed, Silent, WritesOrdered, Honest, Send;
    SendPlaced(e, o);
    SendHonest(e, o);
    SendSilent(e, o);
    SendWritesOrdered(e, o);
    forall d: Command | d.isWrite ensures AttemptsOk(Send(e, o), d) { SendAttempts(e, o, d); }
    forall d: Command | d.OneShot() ensures ReportsOk(Send(e, o), d) { SendReports(e, o, d); }
  }

  // ------------------------------------------------------------------ calls that leave the bus alone

  /** Nothing was sent or finished, and the slot changed only from a read to an unfinished command. */
  ghost predicate Idle(e: Exec, r: Exec) {
    && r.bus == e.bus && r.sent == e.sent && r.finished == e.finished && r.last == e.last
    && r.lastTime == e.lastTime && r.writeRetry == e.writeRetry && r.maxWrite == e.maxWrite
    && (r.accepted == e.accepted || exists c :: r.accepted == e.accepted + [c])
    && (r.waiting != e.waiting ==>
          && (e.waiting.Some? ==> !e.waiting.value.isWrite)
          && (r.waiting.Some? && r.waiting.value.isWrite ==> r.waiting.value !in e.finished))
  }

  lemma IdleAttempts(e: Exec, r: Exec, c: Command)
    requires Silent(e) && Idle(e, r) && c.isWrite && AttemptsOk(e, c)
    ensures AttemptsOk(r, c)
  {
    if r.waiting != e.waiting && r.waiting == Some(c) && r.last == Some(c) {
      LastWasAttempted(e, c);
      assert false;
    }
  }

  lemma IdleKeepsHistory(e: Exec, r: Exec)
    requires Silent(e) && WritesOrdered(e) && Tracked(e) && Honest(e) && Idle(e, r)
    ensures Silent(r) && WritesOrdered(r) && Tracked(r) && Honest(r)
  {
    forall i | 0 <= i < |r.bus| ensures OrdinalOk(r, i) {
      assert OrdinalOk(e, i);
      OrdinalsKept(e, r, i);
    }
    forall c: Command | c.isWrite ensures AttemptsOk(r, c) { IdleAttempts(e, r, c); }
    forall c: Command | c.OneShot() ensures ReportsOk(r, c) { assert ReportsOk(e, c); }
  }

  lemma AddReadKeepsInv(e: Exec, c: Command)
    requires Inv(e) && NewRead(e, c)
    ensures Inv(AddRead(e, c))
  {
    var r := AddRead(e, c);
    AddReadPlaced(e, c);
    assert r.accepted == e.accepted + [c];
    assert Idle(e, r);
    hide AddRead, Placed;
    IdleKeepsHistory(e, r);
  }

  lemma AddWriteIdle(e: Exec, c: Command)
    requires Placed(e) && NewWrite(e, c)
    ensures Idle(e, AddWriteCommand(e, c))
  {
    if e.writesQueued == 0 {
      FastPathDisplacesPolls(e);
      NewIsNowhere(e, c);
    }
    assert AddWriteCommand(e, c).accepted == e.accepted + [c];
    hide Placed;
  }

  lemma AddWriteKeepsInv(e: Exec, c: Command)
    requires Inv(e) && NewWrite(e, c)
    ensures Inv(AddWriteCommand(e, c))
  {
    AddWritePlaced(e, c);
    AddWriteIdle(e, c);
    hide AddWriteCommand, Placed;
    IdleKeepsHistory(e, AddWriteCommand(e, c));
  }

  lemma PollListKeepsInv(e: Exec, regs: PollMap, initialPoll: bool, now: int)
    requires Inv(e) && ScheduledOnly(regs)
    ensures Inv(WithPollList(e, regs, initialPoll, now))
  {
    AddPollListPlaced(e, regs, initialPoll, now);
    var r := WithPollList(e, regs, initialPoll, now);
    hide WithPollList;
    if e.waiting.Some? { PollListFillsSlot(e, regs, initialPoll, now); }
    hide Placed;
    IdleKeepsHistory(e, r);
  }

  lemma PollListFillsSlot(e: Exec, regs: PollMap, initialPoll: bool, now: int)
    requires Placed(e) && ScheduledOnly(regs) && e.waiting.Some?
    ensures WithPollList(e, regs, initialPoll, now).waiting == e.waiting
  {
    hide InsertPolls;
    InsertPollsKeeps(e.(initialPoll := e.initialPoll || initialPoll), regs);
  }

  // ------------------------------------------------------------------ executing

  /** Taking a command from a queue fills an empty slot and nothing else. */
  lemma ChooseIdle(e: Exec)
    requires Placed(e) && !AllDone(e)
    ensures Idle(e, Choose(e))
  {
    var r := Choose(e);
    ChoosePlaced(e);
    if r.waiting.Some? && r.waiting.value.isWrite { WaitingIsPending(r); }
    ChooseOnlyMoves(e);
    hide Placed, Choose;
  }

  lemma ChooseOnlyMoves(e: Exec)
    requires KeysOk(e) && !AllDone(e)
    ensures var r := Choose(e);
      && r == e.(queues := r.queues, waiting := r.waiting, current := r.current, commandsLeft := r.commandsLeft)
      && (e.waiting.Some? ==> r == e)
  {
  }

  lemma ChooseKeepsInv(e: Exec)
    requires Inv(e) && !AllDone(e)
    ensures Inv(Choose(e))
  {
    ChoosePlaced(e);
    ChooseIdle(e);
    hide Choose, Placed;
    IdleKeepsHistory(e, Choose(e));
  }

  lemma EndInitialPollKeepsInv(e: Exec)
    requires Inv(e)
    ensures Inv(EndInitialPoll(e))
  {
    FlagPlaced(e, false);
    hide Placed;
    IdleKeepsHistory(e, e.(initialPoll := false));
  }

  lemma ExecuteKeepsInv(e: Exec, o: Outcome)
    requires Inv(e) && !AllDone(e) && Monotone(e, o)
    ensures Inv(ExecuteNext(e, o).0)
  {
    ChooseKeepsInv(e);
    ChooseIdle(e);
    var e1 := Choose(e);
    hide Choose, Inv, Send, EndInitialPoll;
    if e1.waiting.Some? && MustWait(e1, o.now) {
    } else if e1.waiting.Some? {
      SendKeepsInv(e1, o);
      EndInitialPollKeepsInv(Send(e1, o));
    } else {
      EndInitialPollKeepsInv(e1);
    }
  }

  // ------------------------------------------------------------------ runs

  datatype Call = Read(c: Command) | Write(c: Command) | Polls(regs: PollMap, initialPoll: bool, now: int)
                | Execute(outcome: Outcome)

  /** Commands are new objects, polls come from the scheduler, time does not run backwards, and the thread
      only executes when something is left to do. */
  ghost predicate Allowed(e: Exec, call: Call) {
    match call
    case Read(c) => NewRead(e, c)
    case Write(c) => NewWrite(e, c)
    case Polls(regs, _, _) => ScheduledOnly(regs)
    case Execute(o) => !AllDone(e) && Monotone(e, o)
  }

  ghost function Apply(e: Exec, call: Call): Exec
    requires KeysOk(e) && Allowed(e, call)
  {
    match call
    case Read(c) => AddRead(e, c)
    case Write(c) => AddWriteCommand(e, c)
    case Polls(regs, initialPoll, now) => WithPollList(e, regs, initialPoll, now)
    case Execute(o) => ExecuteNext(e, o).0
  }

  /** A new executor. */
  function Fresh(time: int): Exec {
    Exec([], map[], None, 0, 0, 0, 0, 0, 0, time, None, None, false, [], [], [], [], 0)
  }

  lemma FreshIsGood(time: int)
    ensures Inv(Fresh(time))
  {
    var e := Fresh(time);
    assert QueueLoad(e, WriteLoad) == 0;
    assert Placed(e);
    hide Placed;
    assert Tracked(e);
  }

  lemma ApplyKeepsInv(e: Exec, call: Call)
    requires Inv(e) && Allowed(e, call)
    ensures Inv(Apply(e, call))
  {
    hide Inv;
    match call
    case Read(c) => AddReadKeepsInv(e, c);
    case Write(c) => AddWriteKeepsInv(e, c);
    case Polls(regs, initialPoll, now) => PollListKeepsInv(e, regs, initialPoll, now);
    case Execute(o) => ExecuteKeepsInv(e, o);
  }

  ghost predicate StepsTo(e: Exec, call: Call, r: Exec) {
    KeysOk(e) && Allowed(e, call) && r == Apply(e, call)
  }

  /** Some calls of a new executor, and the states between them. */
  ghost predicate IsRun(run: seq<Exec>, calls: seq<Call>) {
    && |run| == |calls| + 1 && run[0] == Fresh(run[0].lastTime)
    && forall i | 0 <= i < |calls| :: StepsTo(run[i], calls[i], run[i + 1])
  }

  lemma {:induction false} RunKeepsInv(run: seq<Exec>, calls: seq<Call>, i: nat)
    requires IsRun(run, calls) && i < |run|
    ensures Inv(run[i])
  {
    hide Inv, Allowed, Apply;
    if i == 0 {
      FreshIsGood(run[0].lastTime);
    } else {
      RunKeepsInv(run, calls, i - 1);
      assert StepsTo(run[i - 1], calls[i - 1], run[i - 1 + 1]);
      ApplyKeepsInv(run[i - 1], calls[i - 1]);
    }
  }

  /** At any moment of any run an accepted write or RPC read is finished or in exactly one place: the slot
      or one queue position. */
  lemma RunKeepsCommands(run: seq<Exec>, calls: seq<Call>, i: nat, c: Command)
    requires IsRun(run, calls) && i < |run| && c in run[i].accepted
    ensures KeysOk(run[i]) && CountIn(run[i], c) == if c in run[i].finished then 0 else 1
    ensures multiset(run[i].finished)[c] <= 1
  {
    RunKeepsInv(run, calls, i);
    hide IsRun;
    var e := run[i];
    var k :| 0 <= k < |e.accepted| && e.accepted[k] == c;
    assert e.accepted[k].OneShot();
    assert multiset(e.accepted)[c] == multiset(e.finished)[c] + CountIn(e, c);
    assert c in multiset(e.accepted);
    assert multiset(e.accepted)[c] == 1;
  }

  /** Writes of one slave finish in arrival order; the counter is never negative and counts pending and
      abandoned writes; at zero, a new write takes the slot from no other. */
  lemma RunKeepsWrites(run: seq<Exec>, calls: seq<Call>, i: nat)
    requires IsRun(run, calls) && i < |run|
    ensures forall s :: WritesOf(run[i].accepted, s) == WritesOf(run[i].finished, s) + PendingWritesOf(run[i], s)
    ensures KeysOk(run[i]) && run[i].writesQueued == PendingWrites(run[i]) + run[i].abandoned >= 0
    ensures run[i].writesQueued == 0 && run[i].waiting.Some? ==> !run[i].waiting.value.isWrite
  {
    RunKeepsInv(run, calls, i);
    hide IsRun;
    if run[i].writesQueued == 0 { FastPathDisplacesPolls(run[i]); }
  }

  /** The bus sees the writes to one slave in arrival order, each at most once more than it may be retried,
      and none again after it succeeded. */
  lemma RunKeepsBusOrder(run: seq<Exec>, calls: seq<Call>, i: nat)
    requires IsRun(run, calls) && i < |run|
    ensures WritesOrdered(run[i])
    ensures forall c: Command | c.isWrite :: Attempts(run[i].bus, c) <= 1 + c.maxWrite
  {
    RunKeepsInv(run, calls, i);
    hide IsRun, Placed, WritesOrdered;
    forall c: Command | c.isWrite ensures Attempts(run[i].bus, c) <= 1 + c.maxWrite {
      assert AttemptsOk(run[i], c);
    }
  }

  /** Every bus use but the first comes after the silence its command asks for. */
  lemma RunKeepsSilence(run: seq<Exec>, calls: seq<Call>, i: nat, k: nat)
    requires IsRun(run, calls) && i < |run| && 0 < k < |run[i].bus|
    ensures var a, b := run[i].bus[k - 1], run[i].bus[k];
      if b.cmd.firstDelay != 0 && a.cmd.slave != b.cmd.slave then b.cmd.firstDelay <= b.start - a.end
      else b.cmd.delay <= b.start - a.end
  {
    RunKeepsInv(run, calls, i);
    hide IsRun, Placed;
    assert SilentBefore(run[i].bus, k);
  }

  /** A finished RPC read was reported exactly once and an unfinished one not at all; a write is reported
      once per attempt. Each message tells the result of the bus use that caused it. */
  lemma RunKeepsReports(run: seq<Exec>, calls: seq<Call>, i: nat, c: Command)
    requires IsRun(run, calls) && i < |run| && c.OneShot()
    ensures Reports(run[i].sent, c) ==
      if c.isWrite then Attempts(run[i].bus, c) else if c in run[i].finished then 1 else 0
    ensures forall k | 0 <= k < |run[i].sent| :: Truthful(run[i].bus, run[i].sent[k])
  {
    RunKeepsInv(run, calls, i);
    hide IsRun, Placed;
    assert ReportsOk(run[i], c);
  }

  // ------------------------------------------------------------------ what a call adds

  /** A one-shot command that was not accepted is not reported. */
  lemma UnacceptedUnreported(e: Exec, c: Command)
    requires Inv(e) && c.OneShot() && c !in e.accepted
    ensures Reports(e.sent, c) == 0
  {
    NewIsNowhere(e, c);
    hide Placed;
    assert ReportsOk(e, c) && (c.isWrite ==> AttemptsOk(e, c));
  }

  lemma FinishedIsReported(e: Exec, c: Command)
    requires Inv(e) && c.OneShot() && c in e.finished
    ensures 1 <= Reports(e.sent, c)
  {
    if e.waiting == Some(c) { WaitingIsPending(e); }
    hide Placed;
    assert ReportsOk(e, c) && (c.isWrite ==> AttemptsOk(e, c));
  }

  /** `r` has more messages and finished commands; the new messages are about pending commands. */
  ghost predicate Adds(e: Exec, r: Exec) {
    && e.sent <= r.sent && e.finished <= r.finished
    && forall i | |e.sent| <= i < |r.sent| ::
         r.sent[i].cmd.OneShot() ==> r.sent[i].cmd in e.accepted && r.sent[i].cmd !in e.finished
  }

  lemma SendAdds(e: Exec, o: Outcome)
    requires Placed(e) && e.waiting.Some?
    ensures Adds(e, Send(e, o)) && Send(e, o).accepted == e.accepted
  {
    var c := e.waiting.value;
    var r := Send(e, o);
    SendFields(e, o);
    if c.OneShot() { WaitingIsPending(e); }
    hide Send, Placed, WritesOf, Retries, LoadRetries;
    forall i | |e.sent| <= i < |r.sent| ensures r.sent[i].cmd == c {
    }
  }

  lemma EndInitialPollAdds(e: Exec, x: Exec)
    requires Adds(e, x) && x.accepted == e.accepted
    ensures Adds(e, EndInitialPoll(x)) && EndInitialPoll(x).accepted == e.accepted
  {
    hide PollDone;
  }

  lemma ChooseAdds(e: Exec)
    requires Placed(e) && !AllDone(e)
    ensures var r := Choose(e); r.accepted == e.accepted && r.sent == e.sent && r.finished == e.finished
  {
    ChooseOnlyMoves(e);
    hide Choose;
  }

  lemma AddsFrom(e: Exec, e1: Exec, x: Exec)
    requires e1.accepted == e.accepted && e1.sent == e.sent && e1.finished == e.finished
    ensures Adds(e1, x) <==> Adds(e, x)
  {
  }

  lemma ExecuteAdds(e: Exec, o: Outcome)
    requires Inv(e) && Allowed(e, Execute(o))
    ensures Adds(e, ExecuteNext(e, o).0) && ExecuteNext(e, o).0.accepted == e.accepted
  {
    ChoosePlaced(e);
    ChooseAdds(e);
    var e1 := Choose(e);
    hide Inv, Choose, Placed, Send, EndInitialPoll, KeysOk;
    assert Adds(e, e1);
    hide Adds;
    if e1.waiting.Some? && MustWait(e1, o.now) {
    } else if e1.waiting.Some? {
      SendAdds(e1, o);
      AddsFrom(e, e1, Send(e1, o));
      EndInitialPollAdds(e, Send(e1, o));
    } else {
      EndInitialPollAdds(e, e1);
    }
  }

  lemma CallAdds(e: Exec, call: Call)
    requires Inv(e) && Allowed(e, call)
    ensures Adds(e, Apply(e, call))
    ensures Apply(e, call).accepted == if call.Read? || call.Write? then e.accepted + [call.c] else e.accepted
  {
    match call
    case Read(c) =>
    case Write(c) => hide Placed;
    case Polls(regs, initialPoll, now) =>
      AddPollListPlaced(e, regs, initialPoll, now);
      hide WithPollList, Placed;
    case Execute(o) => ExecuteAdds(e, o);
  }
}
