/** When a command is sent: as soon as the bus has been silent for as long as it asks, and not before. */
module ExecutorSilence {
  import opened Options
  import opened RequestQueues
  import opened Executor
  import opened ExecutorInvariants
  import opened ExecutorRuns
  import opened ExecutorFairness
  import ReadAttempts

  /** The call used the bus once more, for `c`. */
  predicate Sends(e: Exec, r: Exec, c: Command) {
    |r.bus| == |e.bus| + 1 && r.bus[..|e.bus|] == e.bus && r.bus[|e.bus|].cmd == c && r.last == Some(c)
  }

  lemma MustWaitMeans(e: Exec, now: int)
    requires e.waiting.Some? && e.lastTime <= now
    ensures MustWait(e, now) <==> !SilentFor(e.last, e.waiting.value, now - e.lastTime)
    ensures MustWait(e, now) ==>
      var left := Silence(e.last, e.waiting.value) - (now - e.lastTime);
      0 < left && forall passed :: SilentFor(e.last, e.waiting.value, passed) <==> now - e.lastTime + left <= passed
  {
  }

  /** Executing sends the chosen command exactly if the bus has been silent for as long as it asks. Otherwise
      it returns how long to wait: until the first moment at which the command may be sent. */
  lemma SentExactlyWhenSilent(e: Exec, o: Outcome)
    requires KeysOk(e) && !AllDone(e) && Monotone(e, o) && Choose(e).waiting.Some?
    ensures var c := Choose(e).waiting.value; var (r, wait) := ExecuteNext(e, o);
      if SilentFor(e.last, c, o.now - e.lastTime) then Sends(e, r, c) && wait == Finite(0)
      else
        && r.bus == e.bus && r.waiting == Some(c) && r.last == e.last && r.lastTime == e.lastTime
        && wait.Finite? && 0 < wait.t
        && forall passed :: SilentFor(e.last, c, passed) <==> o.now - e.lastTime + wait.t <= passed
  {
    var e1 := Choose(e);
    ChooseOnlyMoves(e);
    MustWaitMeans(e1, o.now);
    SendFields(e1, o);
    hide Choose, Send, SilentFor, MustWait, Silence, KeysOk, AllDone, LoadRetries, Retries, MessagesOf;
    hide WritesOf, PollDone;
  }

  /** So a command that was told to wait is sent by the next call that comes at that moment or later, and by no
      call before. */
  lemma SentAfterTheWait(e: Exec, o: Outcome, later: Outcome)
    requires KeysOk(e) && !AllDone(e) && Monotone(e, o) && Choose(e).waiting.Some?
    requires !SilentFor(e.last, Choose(e).waiting.value, o.now - e.lastTime)
    requires KeysOk(ExecuteNext(e, o).0) && Monotone(e, later)
    ensures var c := Choose(e).waiting.value; var (r, wait) := ExecuteNext(e, o);
      && wait.Finite? && !AllDone(r)
      && var r' := ExecuteNext(r, later).0;
         if o.now + wait.t <= later.now then Sends(r, r', c) else r'.bus == r.bus && r'.waiting == Some(c)
  {
    SentExactlyWhenSilent(e, o);
    var r := ExecuteNext(e, o).0;
    hide ExecuteNext, SilentFor, KeysOk;
    assert !AllDone(r) && Choose(r) == r;
    hide Choose, AllDone;
    SentExactlyWhenSilent(r, later);
  }

  // ------------------------------------------------------------------ the first command

  lemma {:induction false} ElectKeepsClock(e: Exec, i: nat, period: int, best: Duration)
    requires i <= |e.keys| && KeysListed(e)
    ensures var r := Elect(e, i, period, best); r.bus == e.bus && r.last == e.last && r.lastTime == e.lastTime
    decreases |e.keys| - i
  {
    if i < |e.keys| && best != Finite(0) {
      var (e1, best1) := ElectOne(e, e.keys[i], period, best);
      ElectKeepsClock(e1, i + 1, period, best1);
    }
  }

  predicate SameClock(e: Exec, r: Exec) {
    r.bus == e.bus && r.last == e.last && r.lastTime == e.lastTime
  }

  lemma InsertKeepsClock(e: Exec, regs: PollMap, initialPoll: bool)
    ensures SameClock(e, InsertPolls(e.(initialPoll := e.initialPoll || initialPoll), regs))
  {
    InsertPollsFrame(e.(initialPoll := e.initialPoll || initialPoll), regs);
    hide InsertPolls;
  }

  lemma StartKeepsClock(e: Exec, first: int, period: int)
    requires KeysListed(e)
    ensures SameClock(e, StartPolls(e, first, period))
  {
    ElectKeepsClock(ResetCounter(e.(current := Some(first))), 0, period, Infinite);
    hide Elect;
  }

  lemma PollsKeepClock(e: Exec, regs: PollMap, initialPoll: bool, now: int)
    requires KeysOk(e)
    ensures SameClock(e, WithPollList(e, regs, initialPoll, now))
  {
    assert SameClock(e, e);
    hide WithPollList, InsertPolls, StartPolls, FirstAdded, KeysOk;
    ReadAttempts.PollsAre(e, regs, initialPoll, now);
    InsertKeepsClock(e, regs, initialPoll);
    if FirstAdded(regs).Some? {
      StartKeepsClock(InsertPolls(e.(initialPoll := e.initialPoll || initialPoll), regs), FirstAdded(regs).value,
                      now - e.lastTime);
    }
  }

  /** Until the bus is used the clock starts at `time`, and the first use comes after its command's delay. */
  predicate StartsSilent(e: Exec, time: int) {
    if e.bus == [] then e.last.None? && e.lastTime == time
    else e.bus[0].cmd.delay <= e.bus[0].start - time
  }

  lemma ExecuteStartsSilent(e: Exec, o: Outcome, time: int)
    requires KeysOk(e) && !AllDone(e) && Monotone(e, o) && StartsSilent(e, time)
    ensures StartsSilent(ExecuteNext(e, o).0, time)
  {
    var e1 := Choose(e);
    ChooseOnlyMoves(e);
    if e1.waiting.Some? {
      MustWaitMeans(e1, o.now);
      SendFields(e1, o);
    }
    hide Choose, Send, MustWait, Silence, KeysOk, AllDone, LoadRetries, Retries, MessagesOf, WritesOf, PollDone;
  }

  lemma StepStartsSilent(e: Exec, call: Call, time: int)
    requires KeysOk(e) && Allowed(e, call) && StartsSilent(e, time)
    ensures StartsSilent(Apply(e, call), time)
  {
    hide WithPollList, ExecuteNext, StartsSilent;
    match call
    case Read(c) => ClockStartsSilent(e, AddRead(e, c), time);
    case Write(c) => ClockStartsSilent(e, AddWriteCommand(e, c), time);
    case Polls(regs, initialPoll, now) =>
      PollsKeepClock(e, regs, initialPoll, now);
      ClockStartsSilent(e, WithPollList(e, regs, initialPoll, now), time);
    case Execute(o) => ExecuteStartsSilent(e, o, time);
  }

  lemma ClockStartsSilent(e: Exec, r: Exec, time: int)
    requires SameClock(e, r) && StartsSilent(e, time)
    ensures StartsSilent(r, time)
  {
  }

  lemma {:induction false} RunStartsSilent(run: seq<Exec>, calls: seq<Call>, i: nat)
    requires IsRun(run, calls) && i < |run|
    ensures StartsSilent(run[i], run[0].lastTime)
  {
    if 0 < i {
      var h := i - 1;
      RunStartsSilent(run, calls, h);
      hide Apply, Allowed, KeysOk, StartsSilent;
      assert StepsTo(run[h], calls[h], run[h + 1]);
      StepStartsSilent(run[h], calls[h], run[0].lastTime);
    }
  }

  /** The first bus use of a run comes at least its command's delay after the executor was made. */
  lemma FirstUseIsSilent(run: seq<Exec>, calls: seq<Call>, i: nat)
    requires IsRun(run, calls) && i < |run| && run[i].bus != []
    ensures run[i].bus[0].cmd.delay <= run[i].bus[0].start - run[0].lastTime
  {
    RunStartsSilent(run, calls, i);
  }
}
