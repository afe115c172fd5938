/** The fast path can lose the current queue. How that stalls the executor, until when, and that nothing else
    keeps it from getting on. */
module ExecutorStall {
  import opened Options
  import opened RequestQueues
  import opened Executor
  import opened ExecutorInvariants
  import opened ExecutorRuns
  import opened ExecutorFairness

  // ------------------------------------------------------------------ the cursor

  /** A write that takes the empty slot although its slave has no queue. */
  predicate LosesCursor(e: Exec, call: Call) {
    call.Write? && e.writesQueued == 0 && e.waiting.None? && call.c.slave !in e.queues
  }

  lemma CursorLost(e: Exec, c: Command)
    requires KeysOk(e)
    ensures AddWriteCommand(e, c).current.None? <==> LosesCursor(e, Write(c))
  {
  }

  /** Without a current queue, the call selects one. */
  ghost predicate Selects(e: Exec, call: Call) {
    match call
    case Read(_) => true
    case Write(_) => !LosesCursor(e, call)
    case Polls(regs, _, _) => AllDone(e) && FirstAdded(regs).Some? && !(e.initialPoll && !PollDone(e))
    case Execute(_) => false
  }

  lemma {:induction false} ElectKeepsCursor(e: Exec, i: nat, period: int, best: Duration)
    requires i <= |e.keys| && KeysListed(e) && e.current.Some?
    ensures Elect(e, i, period, best).current.Some?
    decreases |e.keys| - i
  {
    if i < |e.keys| && best != Finite(0) {
      var (e1, best1) := ElectOne(e, e.keys[i], period, best);
      ElectKeepsCursor(e1, i + 1, period, best1);
    }
  }

  lemma PollsAndCursor(e: Exec, regs: PollMap, initialPoll: bool, now: int)
    requires KeysOk(e)
    ensures var r := WithPollList(e, regs, initialPoll, now);
      if Selects(e, Polls(regs, initialPoll, now)) then r.current.Some? else r.current == e.current
  {
    PollCases(e, regs, initialPoll, now);
    var e1 := InsertPolls(e.(initialPoll := e.initialPoll || initialPoll), regs);
    assert KeysListed(e1);
    hide InsertPolls, StartPolls, WithPollList, AllDone, PollDone, FirstAdded, KeysOk;
    if FirstAdded(regs).Some? { StartSetsCursor(e1, FirstAdded(regs).value, now - e.lastTime); }
  }

  lemma StartSetsCursor(e: Exec, first: int, period: int)
    requires KeysListed(e)
    ensures StartPolls(e, first, period).current.Some?
  {
    ElectKeepsCursor(ResetCounter(e.(current := Some(first))), 0, period, Infinite);
    hide Elect;
  }

  /** After a call there is no current queue exactly if the call lost it, or there was none and the call
      selects none. */
  lemma CursorAfter(e: Exec, call: Call)
    requires KeysOk(e) && Allowed(e, call)
    ensures Apply(e, call).current.None? <==> LosesCursor(e, call) || (e.current.None? && !Selects(e, call))
  {
    match call
    case Read(c) =>
    case Write(c) => CursorLost(e, c);
    case Polls(regs, initialPoll, now) => hide WithPollList; PollsAndCursor(e, regs, initialPoll, now);
    case Execute(o) =>
      hide ExecuteNext, Choose, NextBusy;
      ChooseCases(e);
      ExecuteFrame(e, o);
  }

  // ------------------------------------------------------------------ stalls

  /** Commands are left, but neither the slot nor a current queue offers one. */
  ghost predicate Stalled(e: Exec) {
    KeysOk(e) && !AllDone(e) && e.waiting.None? && e.current.None?
  }

  /** `r` has all the commands of `e` where they were, and maybe more polls behind them. */
  predicate OnlyMorePolls(e: Exec, r: Exec) {
    forall s | s in e.queues ::
      s in r.queues && r.queues[s].writes == e.queues[s].writes && e.queues[s].polls <= r.queues[s].polls
  }

  lemma {:induction false} InsertPollsOnlyAdds(e: Exec, regs: PollMap)
    ensures OnlyMorePolls(e, InsertPolls(e, regs))
    decreases |regs|
  {
    if regs != [] {
      var q := AddPolls(QueueOf(e, regs[0].0), regs[0].1);
      AddPollsKeeps(QueueOf(e, regs[0].0), regs[0].1);
      hide AddPolls;
      InsertPollsOnlyAdds(WithQueue(e, regs[0].0, q), regs[1..]);
    }
  }

  /** In a stall, executing and more polls take nothing from the queues and do not use the bus. */
  lemma StallStays(e: Exec, call: Call)
    requires Stalled(e) && Allowed(e, call) && (call.Execute? || call.Polls?)
    ensures Stalled(Apply(e, call)) && OnlyMorePolls(e, Apply(e, call)) && Apply(e, call).bus == e.bus
    ensures call.Execute? ==> ExecuteNext(e, call.outcome) == (e, Finite(0))
  {
    if call.Polls? {
      PollCases(e, call.regs, call.initialPoll, call.now);
      hide WithPollList, InsertPolls, StartPolls, FirstAdded, PollDone, AllDone, KeysOk, Stalled;
      QueuedStaysStalled(e, call.regs, call.initialPoll);
    }
  }

  /** Queuing more polls leaves a stall as it is. */
  lemma QueuedStaysStalled(e: Exec, regs: PollMap, initialPoll: bool)
    requires Stalled(e)
    ensures var e1 := InsertPolls(e.(initialPoll := e.initialPoll || initialPoll), regs);
      Stalled(e1) && OnlyMorePolls(e, e1) && OnlyMorePolls(e, e) && e1.bus == e.bus && !AllDone(e)
  {
    var e0 := e.(initialPoll := e.initialPoll || initialPoll);
    InsertPollsKeepsKeys(e0, regs);
    InsertPollsFrame(e0, regs);
    InsertPollsOnlyAdds(e0, regs);
    var e1 := InsertPolls(e0, regs);
    var s :| s in e.queues && !e.queues[s].Empty();
    hide InsertPolls;
    assert s in e1.queues && !e1.queues[s].Empty();
  }

  /** Only an RPC read or a write ends a stall. */
  lemma StallEnds(e: Exec, call: Call)
    requires Stalled(e) && Allowed(e, call)
    ensures Stalled(Apply(e, call)) <==> call.Execute? || call.Polls?
  {
    if call.Execute? || call.Polls? {
      StallStays(e, call);
    } else {
      hide KeysOk, AllDone;
    }
  }

  /** A stall lasts over any number of polls and attempts to execute. */
  lemma {:induction false} StallLasts(run: seq<Exec>, calls: seq<Call>, i: nat, j: nat)
    requires IsRun(run, calls) && i <= j < |run| && Stalled(run[i])
    requires forall k | i <= k < j :: calls[k].Execute? || calls[k].Polls?
    ensures Stalled(run[j]) && OnlyMorePolls(run[i], run[j]) && run[j].bus == run[i].bus
    decreases j - i
  {
    if i < j {
      StallLasts(run, calls, i, j - 1);
      hide Stalled, Allowed, Apply;
      assert StepsTo(run[j - 1], calls[j - 1], run[j - 1 + 1]);
      StallStays(run[j - 1], calls[j - 1]);
    }
  }

  // ------------------------------------------------------------------ a stall is reached in three calls

  /** A write to a slave without a queue, polls for another slave, and the write is sent. */
  function StallCalls(c: Command, p: Command, o: Outcome): seq<Call> {
    [Write(c), Polls([(p.slave, [p])], false, o.now), Execute(o)]
  }

  lemma StallIsReached(time: int, c: Command, p: Command, o: Outcome) returns (run: seq<Exec>)
    requires c.isWrite && !p.OneShot() && p.slave != c.slave && o.ok
    requires time <= o.now <= o.start <= o.end && c.delay <= o.now - time
    ensures IsRun(run, StallCalls(c, p, o)) && run[0] == ExecutorRuns.Fresh(time) && Stalled(run[3])
    ensures p.slave in run[3].queues && run[3].queues[p.slave].polls == [p]
  {
    var regs := [(p.slave, [p])];
    var e0, e1 := ExecutorRuns.Fresh(time), WriteWaits(time, c);
    var e2 := e1.(keys := [p.slave], queues := map[p.slave := NEW.(polls := [p])]);
    FastPathFirst(time, c);
    PollsQueued(e1, p, o.now);
    assert e2.queues[p.slave].polls == [p];
    WriteSent(e2, c, o);
    var e3 := ExecuteNext(e2, o).0;
    run := [e0, e1, e2, e3];
    hide ExecuteNext, AddWriteCommand, WithPollList, Stalled;
    assert ScheduledOnly(regs);
    assert StepsTo(e0, Write(c), e1);
    assert StepsTo(e1, Polls(regs, false, o.now), e2);
    assert StepsTo(e2, Execute(o), e3);
    hide StepsTo, Allowed, Apply;
    RunOfThree(run, StallCalls(c, p, o));
  }

  lemma RunOfThree(run: seq<Exec>, calls: seq<Call>)
    requires |run| == 4 && |calls| == 3 && run[0] == ExecutorRuns.Fresh(run[0].lastTime)
    requires StepsTo(run[0], calls[0], run[1]) && StepsTo(run[1], calls[1], run[2]) && StepsTo(run[2], calls[2], run[3])
    ensures IsRun(run, calls)
  {
    hide StepsTo;
  }

  /** A new executor with a write in the slot. */
  function WriteWaits(time: int, c: Command): Exec {
    ExecutorRuns.Fresh(time).(waiting := Some(c), commandsLeft := WRITE_BATCH_SIZE, writesQueued := 1, accepted := [c])
  }

  lemma FastPathFirst(time: int, c: Command)
    requires c.isWrite
    ensures AddWriteCommand(ExecutorRuns.Fresh(time), c) == WriteWaits(time, c)
  {
  }

  lemma PollsQueued(e: Exec, p: Command, now: int)
    requires KeysOk(e) && e.waiting.Some? && !e.initialPoll && e.queues == map[] && e.keys == []
    ensures var r := WithPollList(e, [(p.slave, [p])], false, now);
      r == e.(keys := [p.slave], queues := map[p.slave := NEW.(polls := [p])])
  {
    var regs := [(p.slave, [p])];
    assert AddPolls(NEW, [p]) == NEW.(polls := [p]) by { assert [p][1..] == [] && [] + [p] == [p]; }
    var e1 := WithQueue(e, p.slave, NEW.(polls := [p]));
    assert InsertPolls(e, regs) == InsertPolls(e1, regs[1..]) == e1 by { assert regs[1..] == []; }
    assert e1.keys == [p.slave] && e1.queues == map[p.slave := NEW.(polls := [p])];
    assert e.(initialPoll := e.initialPoll || false) == e;
    hide InsertPolls, AddPolls;
  }

  lemma WriteSent(e: Exec, c: Command, o: Outcome)
    requires KeysOk(e) && e.waiting == Some(c) && e.current.None? && e.last.None? && !e.initialPoll && c.isWrite && o.ok
    requires c.delay <= o.now - e.lastTime && exists s | s in e.queues :: !e.queues[s].Empty()
    ensures var r := ExecuteNext(e, o).0; Stalled(r) && r.queues == e.queues
  {
    SendFields(e, o);
    hide Send, MessagesOf, WritesOf, LoadRetries;
  }

  // ------------------------------------------------------------------ nothing else stops the executor

  /** The call at `j` lost the cursor and no call before `i` has selected a queue since. */
  ghost predicate LostSince(run: seq<Exec>, calls: seq<Call>, j: nat, i: nat)
    requires j < i <= |calls| <= |run|
  {
    LosesCursor(run[j], calls[j]) && forall k | j < k < i :: !Selects(run[k], calls[k])
  }

  ghost predicate Lost(run: seq<Exec>, calls: seq<Call>, i: nat)
    requires i <= |calls| <= |run|
  {
    exists j: nat :: j < i && LostSince(run, calls, j, i)
  }

  /** One more call: the cursor is lost by it, or was lost and is not selected by it. */
  lemma LostStep(run: seq<Exec>, calls: seq<Call>, h: nat)
    requires h < |calls| <= |run|
    ensures Lost(run, calls, h + 1) <==>
      LosesCursor(run[h], calls[h]) || (Lost(run, calls, h) && !Selects(run[h], calls[h]))
  {
    if LosesCursor(run[h], calls[h]) { assert LostSince(run, calls, h, h + 1); }
    if Lost(run, calls, h) && !Selects(run[h], calls[h]) {
      var j: nat :| j < h && LostSince(run, calls, j, h);
      assert LostSince(run, calls, j, h + 1);
    }
    if Lost(run, calls, h + 1) {
      var j: nat :| j < h + 1 && LostSince(run, calls, j, h + 1);
      if j < h { assert LostSince(run, calls, j, h); }
    }
  }

  /** At any moment of any run there is no current queue exactly if some write lost it and none was selected
      since, or nothing was ever left to do. */
  lemma {:induction false} WhoLostTheCursor(run: seq<Exec>, calls: seq<Call>, i: nat)
    requires IsRun(run, calls) && i < |run|
    ensures Lost(run, calls, i) ==> run[i].current.None?
    ensures run[i].current.None? && !Lost(run, calls, i) ==> AllDone(run[i])
    decreases i
  {
    if 0 < i {
      var h := i - 1;
      WhoLostTheCursor(run, calls, h);
      assert StepsTo(run[h], calls[h], run[h + 1]);
      LostStep(run, calls, h);
      CursorAfter(run[h], calls[h]);
      hide Lost, LosesCursor;
      if run[i].current.None? && !Lost(run, calls, i) { IdleStaysIdle(run[h], calls[h]); }
    }
  }

  lemma {:induction false} NothingAdded(e: Exec, regs: PollMap)
    requires AllDone(e) && FirstAdded(regs).None?
    ensures AllDone(InsertPolls(e, regs))
    decreases |regs|
  {
    if regs != [] {
      assert AddPolls(QueueOf(e, regs[0].0), regs[0].1) == QueueOf(e, regs[0].0);
      NothingAdded(WithQueue(e, regs[0].0, QueueOf(e, regs[0].0)), regs[1..]);
    }
  }

  /** With nothing left to do, a call that neither loses nor selects a queue leaves nothing to do. */
  lemma IdleStaysIdle(e: Exec, call: Call)
    requires KeysOk(e) && Allowed(e, call) && AllDone(e) && !LosesCursor(e, call) && !Selects(e, call)
    ensures AllDone(Apply(e, call))
  {
    assert call.Polls?;
    if FirstAdded(call.regs).None? { NothingAdded(e.(initialPoll := e.initialPoll || call.initialPoll), call.regs); }
    hide InsertPolls, StartPolls;
  }

  /** The wait is positive: the command in the slot needs more silence. */
  predicate PositiveWait(d: Duration) {
    d.Finite? && 0 < d.t
  }

  lemma ExecuteGetsOn(e: Exec, o: Outcome)
    requires KeysOk(e) && !AllDone(e)
    ensures var (r, wait) := ExecuteNext(e, o);
      |e.bus| < |r.bus| || PositiveWait(wait) <==> !(e.waiting.None? && e.current.None?)
  {
    ChooseCases(e);
    ChooseOnlyMoves(e);
    hide Choose, NextBusy, PopNext, Popped;
    var e1 := Choose(e);
    if e1.waiting.Some? && !MustWait(e1, o.now) { SendFields(e1, o); }
    hide Send, WritesOf, MessagesOf, LoadRetries;
  }

  /** Over every run, executing with commands left either uses the bus or waits for silence, exactly if
      something is in the slot or no write lost the cursor without a queue being selected since. */
  lemma GetsOnUnlessCursorLost(run: seq<Exec>, calls: seq<Call>, i: nat)
    requires IsRun(run, calls) && i < |calls| && calls[i].Execute?
    ensures KeysOk(run[i])
    ensures var (r, wait) := ExecuteNext(run[i], calls[i].outcome);
      |run[i].bus| < |r.bus| || PositiveWait(wait) <==>
      run[i].waiting.Some? || !Lost(run, calls, i)
  {
    assert StepsTo(run[i], calls[i], run[i + 1]);
    assert KeysOk(run[i]) && !AllDone(run[i]);
    hide Apply;
    WhoLostTheCursor(run, calls, i);
    ExecuteGetsOn(run[i], calls[i].outcome);
  }
}
