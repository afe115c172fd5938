/** What a single call does that the laws over runs leave open: what a use of the bus reports, when the initial
    poll ends, that commands are given up only after all their retries, and the order inside a queue. */
module ExecutorEffects {
  import opened Options
  import opened RequestQueues
  import opened Executor
  import opened ExecutorInvariants
  import opened ExecutorRuns
  import opened ExecutorFairness
  import opened ExecutorSilence
  import ReadAttempts

  // ------------------------------------------------------------------ what a use of the bus reports

  /** The use of the bus for `c` is reported: always for a write, for an RPC read once it has succeeded or is
      given up, and for a scheduled poll if its result is news or, when it succeeded, during the initial poll. */
  predicate IsReported(c: Command, o: Outcome, initialPoll: bool, givenUp: bool) {
    c.isWrite || (if c.IsRpc() then o.ok || givenUp else o.report || (o.ok && initialPoll))
  }

  /** A call that uses the bus sends one message with the result of that use, if it is reported, and none
      otherwise. */
  lemma UseIsReported(e: Exec, o: Outcome)
    requires KeysOk(e) && !AllDone(e) && Choose(e).waiting.Some?
    requires Monotone(e, o) && SilentFor(e.last, Choose(e).waiting.value, o.now - e.lastTime)
    ensures var c := Choose(e).waiting.value; var r := ExecuteNext(e, o).0;
      var kind := if o.ok then Values else if c.isWrite then WriteFailed else ReadFailed;
      r.sent == e.sent + if IsReported(c, o, e.initialPoll, r.waiting.None?) then [Message(kind, c, |e.bus|)] else []
  {
    var e1 := Choose(e);
    ChooseOnlyMoves(e);
    MustWaitMeans(e1, o.now);
    SendFields(e1, o);
    hide Choose, Send, SilentFor, MustWait, Silence, KeysOk, AllDone, LoadRetries, WritesOf, PollDone;
  }

  // ------------------------------------------------------------------ the initial poll

  /** No poll is left, in the slot or in a queue. */
  predicate NoPollLeft(e: Exec) {
    (e.waiting.Some? ==> e.waiting.value.isWrite) && forall k | k in e.queues :: e.queues[k].polls == []
  }

  /** A call that uses the bus ends the initial poll exactly if it leaves no poll, and there is a current
      queue; a call that waits leaves it as it is. */
  lemma InitialPollEnds(e: Exec, o: Outcome)
    requires KeysOk(e) && !AllDone(e) && Choose(e).waiting.Some? && Monotone(e, o)
    ensures var r := ExecuteNext(e, o).0;
      r.initialPoll <==> e.initialPoll && (SilentFor(e.last, Choose(e).waiting.value, o.now - e.lastTime) ==>
                                           !NoPollLeft(r) || r.current.None?)
  {
    var e1 := Choose(e);
    ChooseOnlyMoves(e);
    MustWaitMeans(e1, o.now);
    SendFields(e1, o);
    hide Choose, Send, SilentFor, MustWait, Silence, KeysOk, AllDone, LoadRetries, MessagesOf, WritesOf;
  }

  lemma {:induction false} InsertedPollsAreQueued(e: Exec, regs: PollMap, s: int)
    ensures forall p | p in QueueOf(e, s).polls :: p in QueueOf(InsertPolls(e, regs), s).polls
    ensures forall i, p | 0 <= i < |regs| && regs[i].0 == s && p in regs[i].1 ::
      p in QueueOf(InsertPolls(e, regs), s).polls
    decreases |regs|
  {
    if regs != [] {
      AddPollsKeeps(QueueOf(e, regs[0].0), regs[0].1);
      var e1 := WithQueue(e, regs[0].0, AddPolls(QueueOf(e, regs[0].0), regs[0].1));
      hide AddPolls;
      InsertedPollsAreQueued(e1, regs[1..], s);
      forall i, p | 0 <= i < |regs| && regs[i].0 == s && p in regs[i].1
        ensures p in QueueOf(InsertPolls(e, regs), s).polls
      {
        if 0 < i { assert regs[i] == regs[1..][i - 1]; }
      }
    }
  }

  /** New polls are refused exactly during an initial poll that has polls left. Otherwise a busy executor has
      every one of them in the queue of its slave. */
  lemma PollsAreQueued(e: Exec, regs: PollMap, initialPoll: bool, now: int)
    requires KeysOk(e) && !AllDone(e)
    ensures var r := WithPollList(e, regs, initialPoll, now);
      if e.initialPoll && !NoPollLeft(e) then r == e
      else
        && r.initialPoll == (e.initialPoll || initialPoll)
        && forall i, p | 0 <= i < |regs| && p in regs[i].1 :: p in QueueOf(r, regs[i].0).polls
  {
    var e0 := e.(initialPoll := e.initialPoll || initialPoll);
    InsertPollsKeepsKeys(e0, regs);
    InsertPollsFrame(e0, regs);
    var e1 := InsertPolls(e0, regs);
    forall i, p | 0 <= i < |regs| && p in regs[i].1 ensures p in QueueOf(e1, regs[i].0).polls {
      InsertedPollsAreQueued(e0, regs, regs[i].0);
    }
    hide InsertPolls, StartPolls, FirstAdded;
  }

  // ------------------------------------------------------------------ the order inside a queue

  lemma ExecuteInOrder(e: Exec, o: Outcome, s: int)
    requires KeysOk(e) && Allowed(e, Execute(o)) && Busy(e, s)
    ensures var q, r := e.queues[s], QueueOf(ExecuteNext(e, o).0, s);
      if Pops(e, Execute(o), s) && PoppedFrom(q) then Choose(e).waiting == Some(q.polls[0]) && r.polls == q.polls[1..]
      else r.polls == q.polls
  {
    hide Choose, ExecuteNext, NextBusy;
    ChooseCases(e);
    ExecuteFrame(e, o);
  }

  lemma WriteInOrder(e: Exec, c: Command, s: int)
    requires Busy(e, s)
    ensures var q, r := e.queues[s], QueueOf(AddWriteCommand(e, c), s);
      if Displaces(e, Write(c), s) && !e.waiting.value.isWrite then r.polls == [e.waiting.value] + q.polls
      else r.polls == q.polls
  {
  }

  lemma AddsInOrder(e: Exec, call: Call, s: int)
    requires KeysOk(e) && Allowed(e, call) && Busy(e, s) && (call.Read? || call.Polls?)
    ensures e.queues[s].polls <= QueueOf(Apply(e, call), s).polls
  {
    if call.Read? {
      AddPollsKeeps(QueueOf(e, call.c.slave), [call.c]);
      hide AddPolls;
    } else {
      InsertPollsFills(e.(initialPoll := e.initialPoll || call.initialPoll), call.regs, s);
      hide InsertPolls, StartPolls;
    }
  }

  /** The polls of a slave after a call, while it has commands waiting: the one taken is the first, one that is
      displaced becomes the first, and new ones come last. */
  lemma PollsAreInOrder(e: Exec, call: Call, s: int)
    requires KeysOk(e) && Allowed(e, call) && Busy(e, s)
    ensures var q, r := e.queues[s], QueueOf(Apply(e, call), s);
      if Pops(e, call, s) && PoppedFrom(q) then Choose(e).waiting == Some(q.polls[0]) && r.polls == q.polls[1..]
      else if Displaces(e, call, s) && !e.waiting.value.isWrite then r.polls == [e.waiting.value] + q.polls
      else q.polls <= r.polls
  {
    hide Choose, ExecuteNext, AddWriteCommand, AddRead, WithPollList, KeysOk, AllDone, PoppedFrom;
    match call
    case Read(_) => AddsInOrder(e, call, s);
    case Write(c) => WriteInOrder(e, c, s);
    case Polls(_, _, _) => AddsInOrder(e, call, s);
    case Execute(o) => ExecuteInOrder(e, o, s);
  }

  /** A displaced poll is the next command taken from the queues it was put back into, whatever waits there. */
  lemma DisplacedIsNext(e: Exec, c: Command)
    requires KeysOk(e) && e.writesQueued == 0 && e.waiting.Some? && !e.waiting.value.isWrite
    ensures var q := QueueOf(AddWriteCommand(e, c), c.slave); !q.Empty() && Popped(q) == e.waiting.value
  {
  }

  // ------------------------------------------------------------------ giving up

  /** How often a command may be retried, and how often it still may be. */
  function MayRetry(c: Command): nat {
    if c.isWrite then c.maxWrite else c.maxRead
  }

  function RetriesLeft(e: Exec, c: Command): nat {
    if c.isWrite then e.writeRetry else e.readRetry
  }

  predicate Succeeded(bus: seq<BusEvent>, c: Command) {
    exists i | 0 <= i < |bus| :: bus[i].cmd == c && bus[i].ok
  }

  /** A finished command has succeeded or has used the bus once more than it may be retried; one that is being
      retried has used the bus for every retry it has lost. */
  predicate Tried(e: Exec, c: Command) {
    && (c in e.finished ==> Succeeded(e.bus, c) || MayRetry(c) < Attempts(e.bus, c))
    && (e.waiting == Some(c) && e.last == Some(c) ==> MayRetry(c) <= Attempts(e.bus, c) + RetriesLeft(e, c))
  }

  lemma SendTries(e: Exec, o: Outcome)
    requires e.waiting.Some?
    ensures var c := e.waiting.value; var r := Send(e, o);
      var before := if e.last == Some(c) then RetriesLeft(e, c) else MayRetry(c);
      if r.waiting == e.waiting then !o.ok && 0 < before && RetriesLeft(r, c) == before - 1
      else r.waiting.None? && (o.ok || before == 0)
  {
    hide MessagesOf, WritesOf;
  }

  lemma SuccessStays(bus: seq<BusEvent>, b: BusEvent, c: Command)
    ensures Succeeded(bus + [b], c) <==> Succeeded(bus, c) || (b.cmd == c && b.ok)
  {
    var all := bus + [b];
    if Succeeded(bus, c) {
      var i :| 0 <= i < |bus| && bus[i].cmd == c && bus[i].ok;
      assert all[i] == bus[i];
    }
    if b.cmd == c && b.ok { assert all[|bus|] == b; }
  }

  /** The command itself uses the bus. */
  lemma OwnTry(e: Exec, r: Exec, b: BusEvent, c: Command)
    requires e.waiting == Some(c) && b.cmd == c && Tried(e, c) && r.bus == e.bus + [b] && r.last == Some(c)
    requires c !in e.finished
    requires var before := if e.last == Some(c) then RetriesLeft(e, c) else MayRetry(c);
      if r.waiting == e.waiting then r.finished == e.finished && 0 < before && RetriesLeft(r, c) == before - 1
      else r.waiting.None? && (b.ok || before == 0)
    ensures Tried(r, c)
  {
    AttemptsAppend(e.bus, b, c);
    SuccessStays(e.bus, b, c);
    hide Attempts, Succeeded;
  }

  /** Another one does. */
  lemma OtherTry(e: Exec, r: Exec, b: BusEvent, c: Command)
    requires e.waiting.Some? && e.waiting != Some(c) && Some(b.cmd) == e.waiting && Tried(e, c)
    requires r.bus == e.bus + [b] && r.last == e.waiting && (c in r.finished ==> c in e.finished)
    ensures Tried(r, c)
  {
    AttemptsAppend(e.bus, b, c);
    SuccessStays(e.bus, b, c);
    hide Attempts, Succeeded;
  }

  lemma SendKeepsTried(e: Exec, o: Outcome, c: Command)
    requires Placed(e) && e.waiting.Some? && c.OneShot() && Tried(e, c)
    ensures Tried(Send(e, o), c)
  {
    var r := Send(e, o);
    SendFields(e, o);
    SendTries(e, o);
    var b := r.bus[|e.bus|];
    hide Tried, Send, Placed, MessagesOf, WritesOf, LoadRetries, Retries, MayRetry, RetriesLeft;
    if e.waiting == Some(c) {
      WaitingIsPending(e);
      OwnTry(e, r, b, c);
    } else {
      OtherTry(e, r, b, c);
    }
  }

  /** The bus is left alone; what newly takes the slot was not the last command sent. */
  predicate LeavesBus(e: Exec, r: Exec, c: Command) {
    && r.bus == e.bus && r.finished == e.finished && r.last == e.last
    && r.readRetry == e.readRetry && r.writeRetry == e.writeRetry
    && (r.waiting == Some(c) && r.last == Some(c) ==> e.waiting == Some(c))
  }

  lemma LeavesBusTried(e: Exec, r: Exec, c: Command)
    requires LeavesBus(e, r, c) && Tried(e, c)
    ensures Tried(r, c)
  {
    hide Attempts, Succeeded;
  }

  /** A command that was sent last and is not finished has not left the slot empty. */
  predicate SlotTaken(e: Exec, c: Command) {
    c !in e.finished && e.last == Some(c) ==> e.waiting.Some?
  }

  lemma WriteTakesSlot(e: Exec, c: Command)
    requires Inv(e) && c.isWrite
    ensures SlotTaken(e, c) && (c !in e.accepted ==> e.last != Some(c))
  {
    assert AttemptsOk(e, c);
    if e.last == Some(c) { LastWasAttempted(e, c); }
    if c !in e.accepted { NewIsNowhere(e, c); }
    hide Placed, WritesOrdered, Honest, Attempts;
  }

  predicate SameBus(e: Exec, r: Exec) {
    && r.bus == e.bus && r.finished == e.finished && r.last == e.last
    && r.readRetry == e.readRetry && r.writeRetry == e.writeRetry
  }

  lemma SameBusTried(e: Exec, r: Exec, c: Command)
    requires SameBus(e, r) && Tried(e, c) && SlotTaken(e, c) && (r.waiting == Some(c) ==> c !in r.finished)
    requires r.waiting == Some(c) ==> e.waiting == Some(c) || e.waiting.None? || e.last != Some(c)
    ensures Tried(r, c)
  {
    hide Attempts, Succeeded, MayRetry, RetriesLeft;
    LeavesBusTried(e, r, c);
  }

  lemma {:induction false} ElectKeepsBus(e: Exec, i: nat, period: int, best: Duration)
    requires i <= |e.keys| && KeysListed(e)
    ensures SameBus(e, Elect(e, i, period, best))
    decreases |e.keys| - i
  {
    if i < |e.keys| && best != Finite(0) {
      var (e1, best1) := ElectOne(e, e.keys[i], period, best);
      ElectKeepsBus(e1, i + 1, period, best1);
    }
  }

  lemma StartKeepsBus(e: Exec, first: int, period: int)
    requires KeysListed(e)
    ensures SameBus(e, StartPolls(e, first, period))
  {
    ElectKeepsBus(ResetCounter(e.(current := Some(first))), 0, period, Infinite);
    hide Elect;
  }

  lemma PollsKeepBus(e: Exec, regs: PollMap, initialPoll: bool, now: int)
    requires KeysOk(e)
    ensures var r := WithPollList(e, regs, initialPoll, now);
      SameBus(e, r) && (e.waiting.Some? ==> r.waiting == e.waiting)
  {
    var e0 := e.(initialPoll := e.initialPoll || initialPoll);
    InsertPollsFrame(e0, regs);
    var e1 := InsertPolls(e0, regs);
    assert SameBus(e, e) && SameBus(e, e1) && e1.waiting == e.waiting;
    hide WithPollList, InsertPolls, StartPolls, FirstAdded, KeysOk;
    ReadAttempts.PollsAre(e, regs, initialPoll, now);
    if FirstAdded(regs).Some? { StartKeepsBus(e1, FirstAdded(regs).value, now - e.lastTime); }
  }

  lemma ChooseKeepsTried(e: Exec, c: Command)
    requires Placed(e) && !AllDone(e) && c.OneShot() && Tried(e, c) && SlotTaken(e, c)
    ensures KeysOk(e) && Tried(Choose(e), c)
  {
    assert KeysOk(e);
    ChooseOnlyMoves(e);
    ChoosePlaced(e);
    if Choose(e).waiting == Some(c) { WaitingIsPending(Choose(e)); }
    hide Choose, Placed, KeysOk, AllDone, Tried;
    SameBusTried(e, Choose(e), c);
  }

  lemma ExecuteKeepsTried(e: Exec, o: Outcome, c: Command)
    requires Placed(e) && !AllDone(e) && c.OneShot() && Tried(e, c) && SlotTaken(e, c)
    ensures KeysOk(e) && Tried(ExecuteNext(e, o).0, c)
  {
    assert KeysOk(e);
    hide Tried, Placed, KeysOk, AllDone, Choose, Send, EndInitialPoll, SlotTaken, ExecuteNext;
    ChooseKeepsTried(e, c);
    ChoosePlaced(e);
    ReadAttempts.ExecuteIs(e, o);
    var e1 := Choose(e);
    EndKeepsTried(e1, c);
    if e1.waiting.Some? {
      SendKeepsTried(e1, o, c);
      EndKeepsTried(Send(e1, o), c);
    }
  }

  lemma EndKeepsTried(e: Exec, c: Command)
    ensures Tried(EndInitialPoll(e), c) == Tried(e, c)
  {
    hide PollDone, Attempts, Succeeded;
  }

  lemma ReadKeepsBus(e: Exec, x: Command)
    ensures SameBus(e, AddRead(e, x)) && AddRead(e, x).waiting == e.waiting
  {
    hide AddPolls;
  }

  lemma WriteKeepsBus(e: Exec, x: Command)
    ensures var r := AddWriteCommand(e, x); SameBus(e, r) && (r.waiting == e.waiting || r.waiting == Some(x))
  {
    hide AddWrite, Readd;
  }

  /** What a call other than executing does to bus and slot. */
  lemma OthersKeepBus(e: Exec, call: Call)
    requires Inv(e) && Allowed(e, call) && !call.Execute?
    ensures var r := Apply(e, call);
      && SameBus(e, r)
      && (r.waiting == e.waiting || e.waiting.None? || (r.waiting.Some? && e.last != r.waiting))
  {
    assert KeysOk(e);
    hide KeysOk, Inv, AddRead, AddWriteCommand, WithPollList, SameBus, SlotTaken;
    match call
    case Read(x) => ReadKeepsBus(e, x);
    case Write(x) =>
      WriteTakesSlot(e, x);
      WriteKeepsBus(e, x);
    case Polls(regs, initialPoll, now) => PollsKeepBus(e, regs, initialPoll, now);
  }

  lemma StepKeepsTried(e: Exec, call: Call, c: Command)
    requires Inv(e) && Allowed(e, call) && c.OneShot() && Tried(e, c) && SlotTaken(e, c)
    requires Placed(Apply(e, call))
    ensures Tried(Apply(e, call), c)
  {
    assert Placed(e);
    if call.Execute? {
      hide Tried, Placed, ExecuteNext, Inv, AllDone, SlotTaken;
      ExecuteKeepsTried(e, call.outcome, c);
    } else {
      OthersKeepBus(e, call);
      hide Tried, Placed, Inv, Apply, Allowed, SlotTaken;
      var r := Apply(e, call);
      if r.waiting == Some(c) { WaitingIsPending(r); }
      SameBusTried(e, r, c);
    }
  }

  lemma {:induction false} RunKeepsTried(run: seq<Exec>, calls: seq<Call>, c: Command, i: nat)
    requires IsRun(run, calls) && i < |run| && c.OneShot()
    ensures Tried(run[i], c)
  {
    hide Tried, Inv, Apply, Allowed, SlotTaken;
    if i == 0 {
      FreshTried(run[0].lastTime, c);
    } else {
      var h := i - 1;
      RunKeepsTried(run, calls, c, h);
      RunKeepsInv(run, calls, h);
      RunKeepsInv(run, calls, i);
      SlotTakenInRun(run, calls, c, h);
      assert StepsTo(run[h], calls[h], run[h + 1]);
      InvIsPlaced(run[i]);
      StepKeepsTried(run[h], calls[h], c);
    }
  }

  lemma InvIsPlaced(e: Exec)
    requires Inv(e)
    ensures Placed(e)
  {
  }

  lemma FreshTried(time: int, c: Command)
    ensures Tried(ExecutorRuns.Fresh(time), c)
  {
  }

  lemma SlotTakenInRun(run: seq<Exec>, calls: seq<Call>, c: Command, i: nat)
    requires IsRun(run, calls) && i < |run| && c.OneShot()
    ensures SlotTaken(run[i], c)
  {
    if c.isWrite {
      RunKeepsInv(run, calls, i);
      WriteTakesSlot(run[i], c);
    } else {
      ReadAttempts.RunKeepsUses(run, calls, c, i);
      hide IsRun, Attempts, ReadAttempts.Limit;
    }
  }

  /** Over every run a finished write or RPC read has succeeded, or has used the bus at least once more than it
      may be retried: nothing is given up early. */
  lemma NothingIsGivenUpEarly(run: seq<Exec>, calls: seq<Call>, c: Command, i: nat)
    requires IsRun(run, calls) && i < |run| && c.OneShot() && c in run[i].finished
    ensures Succeeded(run[i].bus, c) || 1 + (if c.isWrite then c.maxWrite else c.maxRead) <= Attempts(run[i].bus, c)
  {
    RunKeepsTried(run, calls, c, i);
    hide IsRun, Succeeded, Attempts;
  }
}
