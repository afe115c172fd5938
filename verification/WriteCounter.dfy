/** The count of pending writes decides whether a new write goes straight to the slot. A write that was given
    up stays in the count. */
module WriteCounter {
  import opened Options
  import opened RequestQueues
  import opened Executor
  import opened ExecutorInvariants
  import opened ExecutorRuns
  import opened ExecutorFairness
  import opened ExecutorStall

  lemma CountIsZeroExactly(run: seq<Exec>, calls: seq<Call>, i: nat)
    requires IsRun(run, calls) && i < |run|
    ensures KeysOk(run[i])
    ensures run[i].writesQueued == 0 <==> PendingWrites(run[i]) == 0 && run[i].abandoned == 0
  {
    RunKeepsWrites(run, calls, i);
  }

  /** At any moment of any run a new write takes the slot at once exactly if no write is pending and none was
      ever given up. */
  lemma StraightToSlotExactly(run: seq<Exec>, calls: seq<Call>, i: nat, c: Command)
    requires IsRun(run, calls) && i < |run| && NewWrite(run[i], c)
    ensures KeysOk(run[i])
    ensures AddWriteCommand(run[i], c).waiting == Some(c) <==> PendingWrites(run[i]) == 0 && run[i].abandoned == 0
  {
    CountIsZeroExactly(run, calls, i);
    RunKeepsInv(run, calls, i);
    NewIsNowhere(run[i], c);
    hide IsRun, Inv, PendingWrites, CountIn;
    TakesSlotAtZero(run[i], c);
  }

  lemma TakesSlotAtZero(e: Exec, c: Command)
    requires e.waiting != Some(c)
    ensures AddWriteCommand(e, c).waiting == Some(c) <==> e.writesQueued == 0
  {
    hide AddWrite, Readd;
  }

  lemma {:induction false} ElectKeepsAbandoned(e: Exec, i: nat, period: int, best: Duration)
    requires i <= |e.keys| && KeysListed(e)
    ensures Elect(e, i, period, best).abandoned == e.abandoned
    decreases |e.keys| - i
  {
    if i < |e.keys| && best != Finite(0) {
      var (e1, best1) := ElectOne(e, e.keys[i], period, best);
      ElectKeepsAbandoned(e1, i + 1, period, best1);
    }
  }

  lemma StartKeepsAbandoned(e: Exec, first: int, period: int)
    requires KeysListed(e)
    ensures StartPolls(e, first, period).abandoned == e.abandoned
  {
    ElectKeepsAbandoned(ResetCounter(e.(current := Some(first))), 0, period, Infinite);
    hide Elect, PopNext, Popped;
  }

  lemma PollsKeepAbandoned(e: Exec, regs: PollMap, initialPoll: bool, now: int)
    requires KeysOk(e)
    ensures WithPollList(e, regs, initialPoll, now).abandoned == e.abandoned
  {
    PollCases(e, regs, initialPoll, now);
    var e1 := InsertPolls(e.(initialPoll := e.initialPoll || initialPoll), regs);
    assert KeysListed(e1);
    hide InsertPolls, StartPolls, WithPollList, AllDone, PollDone, FirstAdded, KeysOk;
    if FirstAdded(regs).Some? { StartKeepsAbandoned(e1, FirstAdded(regs).value, now - e.lastTime); }
  }

  lemma ExecuteKeepsAbandoned(e: Exec, o: Outcome)
    requires KeysOk(e) && !AllDone(e)
    ensures e.abandoned <= ExecuteNext(e, o).0.abandoned
  {
    assert Choose(e).abandoned == e.abandoned by { hide NextBusy, PopNext, Popped; }
    hide Choose;
    if Choose(e).waiting.Some? { SendFields(Choose(e), o); }
    hide Send, MessagesOf, WritesOf, LoadRetries;
  }

  lemma StepKeepsAbandoned(e: Exec, call: Call)
    requires KeysOk(e) && Allowed(e, call)
    ensures e.abandoned <= Apply(e, call).abandoned
  {
    hide WithPollList, ExecuteNext;
    match call
    case Read(c) =>
    case Write(c) =>
    case Polls(regs, initialPoll, now) => PollsKeepAbandoned(e, regs, initialPoll, now);
    case Execute(o) => ExecuteKeepsAbandoned(e, o);
  }

  /** Once a write was given up, no write goes straight to the slot any more. */
  lemma {:induction false} NeverStraightAgain(run: seq<Exec>, calls: seq<Call>, i: nat, j: nat)
    requires IsRun(run, calls) && i <= j < |run| && 0 < run[i].abandoned
    ensures run[j].writesQueued != 0 && run[i].abandoned <= run[j].abandoned
    decreases j - i
  {
    CountIsZeroExactly(run, calls, j);
    if i < j {
      var h := j - 1;
      NeverStraightAgain(run, calls, i, h);
      hide Apply, Allowed, KeysOk;
      assert StepsTo(run[h], calls[h], run[h + 1]);
      StepKeepsAbandoned(run[h], calls[h]);
    }
  }

  /** A write without retries fails: nothing is left to do, but the count is one. */
  lemma GivenUpWriteCounts(time: int, c: Command, o: Outcome) returns (run: seq<Exec>)
    requires c.isWrite && c.maxWrite == 0 && !o.ok
    requires time <= o.now <= o.start <= o.end && c.delay <= o.now - time
    ensures IsRun(run, [Write(c), Execute(o)]) && run[0] == ExecutorRuns.Fresh(time)
    ensures AllDone(run[2]) && run[2].writesQueued == 1 && run[2].abandoned == 1
  {
    var e0, e1 := ExecutorRuns.Fresh(time), WriteWaits(time, c);
    FastPathFirst(time, c);
    SendFields(e1, o);
    var e2 := ExecuteNext(e1, o).0;
    assert AllDone(e2) && e2.writesQueued == 1 && e2.abandoned == 1 by { hide Send, MessagesOf, WritesOf; }
    run := [e0, e1, e2];
    assert StepsTo(e0, Write(c), e1);
    assert StepsTo(e1, Execute(o), e2);
  }
}
