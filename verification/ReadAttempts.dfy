/** How often an RPC read is sent: a write on the fast path that displaces it while it is being retried gives
    it all its retries again. */
module ReadAttempts {
  import opened Options
  import opened RequestQueues
  import opened Executor
  import opened ExecutorInvariants
  import opened ExecutorRuns
  import opened ExecutorFairness

  /** The uses of the bus that `rounds` rounds of retries allow. */
  function Limit(c: Command, rounds: nat): nat {
    (1 + c.maxRead) * rounds
  }

  lemma LimitNext(c: Command, rounds: nat)
    ensures Limit(c, rounds + 1) == Limit(c, rounds) + 1 + c.maxRead
  {
  }

  lemma OneRound(c: Command)
    ensures Limit(c, 1) == 1 + c.maxRead
  {
  }

  /** The call takes the slot from the read while it is being retried. */
  ghost predicate Interrupts(e: Exec, call: Call, c: Command) {
    FastPath(e, call) && e.waiting == Some(c) && e.last == Some(c)
  }

  /** What the read has used of the bus after it was interrupted `n` times. */
  predicate UsesOk(e: Exec, c: Command, n: nat) {
    if c in e.finished then Attempts(e.bus, c) <= Limit(c, n + 1)
    else if e.waiting == Some(c) && e.last == Some(c) then Attempts(e.bus, c) + e.readRetry + 1 <= Limit(c, n + 1)
    else Attempts(e.bus, c) <= Limit(c, n) && (e.last == Some(c) ==> e.waiting.Some?)
  }

  // ------------------------------------------------------------------ one call

  /** The bus is left alone, and the slot is filled or its read displaced by another command. */
  predicate Quietly(e: Exec, r: Exec, c: Command) {
    && r.bus == e.bus && r.finished == e.finished && r.last == e.last && r.readRetry == e.readRetry
    && (r.waiting == e.waiting || (r.waiting.Some? && (e.waiting.Some? ==> r.waiting != Some(c))))
  }

  lemma QuietKeepsUses(e: Exec, r: Exec, c: Command, n: nat)
    requires Quietly(e, r, c) && UsesOk(e, c, n)
    ensures UsesOk(r, c, n + if e.waiting == Some(c) && e.last == Some(c) && r.waiting != e.waiting then 1 else 0)
  {
    LimitNext(c, n);
    LimitNext(c, n + 1);
    hide Limit, Attempts;
  }

  lemma SendReadFields(e: Exec, o: Outcome)
    requires e.waiting.Some? && !e.waiting.value.isWrite
    ensures var c := e.waiting.value; var before := if e.last == Some(c) then e.readRetry else c.maxRead;
      Send(e, o).waiting == e.waiting ==> 0 < before && Send(e, o).readRetry == before - 1
  {
    hide MessagesOf, WritesOf;
  }

  /** One more use of the bus, by the read itself. */
  lemma OwnUse(e: Exec, r: Exec, c: Command, n: nat)
    requires e.waiting == Some(c) && c !in e.finished && UsesOk(e, c, n) && r.last == Some(c)
    requires Attempts(r.bus, c) == Attempts(e.bus, c) + 1
    requires if r.waiting == e.waiting then
        var before := if e.last == Some(c) then e.readRetry else c.maxRead;
        r.finished == e.finished && 0 < before && r.readRetry == before - 1
      else r.finished == e.finished + [c]
    ensures UsesOk(r, c, n)
  {
    LimitNext(c, n);
    hide Limit, Attempts;
  }

  /** Or by another command. */
  lemma OtherUse(e: Exec, r: Exec, c: Command, n: nat)
    requires e.waiting.Some? && e.waiting != Some(c) && UsesOk(e, c, n) && r.last == e.waiting
    requires Attempts(r.bus, c) == Attempts(e.bus, c) && (c in r.finished <==> c in e.finished)
    requires r.waiting == e.waiting || r.waiting.None?
    ensures UsesOk(r, c, n)
  {
    hide Limit, Attempts;
  }

  lemma SendKeepsUses(e: Exec, o: Outcome, c: Command, n: nat)
    requires Placed(e) && e.waiting.Some? && c.IsRpc() && !c.isWrite && UsesOk(e, c, n)
    ensures UsesOk(Send(e, o), c, n)
  {
    var r := Send(e, o);
    SendFields(e, o);
    AttemptsAppend(e.bus, r.bus[|e.bus|], c);
    hide Limit, Attempts, Send, Placed, MessagesOf, WritesOf, LoadRetries, Retries, UsesOk;
    if e.waiting == Some(c) {
      WaitingIsPending(e);
      SendReadFields(e, o);
      OwnUse(e, r, c, n);
    } else {
      OtherUse(e, r, c, n);
    }
  }

  lemma {:induction false} ElectQuietly(e: Exec, i: nat, period: int, best: Duration)
    requires i <= |e.keys| && KeysListed(e)
    ensures var r := Elect(e, i, period, best);
      && r.bus == e.bus && r.finished == e.finished && r.last == e.last && r.readRetry == e.readRetry
      && (r.waiting == e.waiting || r.waiting.Some?)
    decreases |e.keys| - i
  {
    if i < |e.keys| && best != Finite(0) {
      var (e1, best1) := ElectOne(e, e.keys[i], period, best);
      ElectQuietly(e1, i + 1, period, best1);
    }
  }

  lemma StartsQuietly(e: Exec, first: int, period: int, c: Command)
    requires KeysListed(e) && e.waiting.None?
    ensures Quietly(e, StartPolls(e, first, period), c)
  {
    ElectQuietly(ResetCounter(e.(current := Some(first))), 0, period, Infinite);
    hide Elect;
  }

  lemma QuietlyFrom(e: Exec, e1: Exec, r: Exec, c: Command)
    requires Quietly(e, e1, c) && e1.waiting == e.waiting && Quietly(e1, r, c)
    ensures Quietly(e, r, c)
  {
  }

  lemma PollsAre(e: Exec, regs: PollMap, initialPoll: bool, now: int)
    requires KeysOk(e)
    ensures var e1, r := InsertPolls(e.(initialPoll := e.initialPoll || initialPoll), regs),
                         WithPollList(e, regs, initialPoll, now);
      && KeysListed(e1)
      && (r == e || r == e1 ||
          (e.waiting.None? && FirstAdded(regs).Some? && r == StartPolls(e1, FirstAdded(regs).value, now - e.lastTime)))
  {
    InsertPollsKeepsKeys(e.(initialPoll := e.initialPoll || initialPoll), regs);
    hide InsertPolls, StartPolls, FirstAdded, PollDone;
  }

  lemma InsertsQuietly(e: Exec, regs: PollMap, initialPoll: bool, c: Command)
    ensures var e1 := InsertPolls(e.(initialPoll := e.initialPoll || initialPoll), regs);
      Quietly(e, e1, c) && e1.waiting == e.waiting
  {
    InsertPollsFrame(e.(initialPoll := e.initialPoll || initialPoll), regs);
    hide InsertPolls;
  }

  lemma CasesQuietly(e: Exec, e1: Exec, r: Exec, first: Option<int>, period: int, c: Command)
    requires Quietly(e, e1, c) && e1.waiting == e.waiting && KeysListed(e1)
    requires r == e || r == e1 || (e.waiting.None? && first.Some? && r == StartPolls(e1, first.value, period))
    ensures Quietly(e, r, c) && (e.waiting.Some? ==> r.waiting == e.waiting)
  {
    assert Quietly(e, e, c);
    hide *;
    if e.waiting.None? && first.Some? {
      StartsQuietly(e1, first.value, period, c);
      QuietlyFrom(e, e1, StartPolls(e1, first.value, period), c);
    }
  }

  lemma PollsQuietly(e: Exec, regs: PollMap, initialPoll: bool, now: int, c: Command)
    requires KeysOk(e)
    ensures var r := WithPollList(e, regs, initialPoll, now);
      Quietly(e, r, c) && (e.waiting.Some? ==> r.waiting == e.waiting)
  {
    hide *;
    PollsAre(e, regs, initialPoll, now);
    InsertsQuietly(e, regs, initialPoll, c);
    CasesQuietly(e, InsertPolls(e.(initialPoll := e.initialPoll || initialPoll), regs),
                 WithPollList(e, regs, initialPoll, now), FirstAdded(regs), now - e.lastTime, c);
  }

  lemma WriteQuietly(e: Exec, w: Command, c: Command)
    requires w.isWrite && !c.isWrite
    ensures var r := AddWriteCommand(e, w);
      && Quietly(e, r, c)
      && (e.waiting == Some(c) ==> (r.waiting != e.waiting <==> e.writesQueued == 0))
  {
    hide AddWrite, Readd;
  }

  lemma ChooseQuietly(e: Exec, c: Command)
    requires KeysOk(e) && !AllDone(e)
    ensures Quietly(e, Choose(e), c) && (e.waiting.Some? ==> Choose(e).waiting == e.waiting)
  {
    hide NextBusy, PopNext, Popped;
  }

  lemma ChooseKeepsUses(e: Exec, c: Command, n: nat)
    requires KeysOk(e) && !AllDone(e) && UsesOk(e, c, n)
    ensures UsesOk(Choose(e), c, n)
  {
    hide Choose, KeysOk, AllDone, UsesOk, Quietly;
    ChooseQuietly(e, c);
    QuietKeepsUses(e, Choose(e), c, n);
  }

  lemma ExecuteIs(e: Exec, o: Outcome)
    requires KeysOk(e) && !AllDone(e)
    ensures var e1, r := Choose(e), ExecuteNext(e, o).0;
      r == e1 || (e1.waiting.Some? && r == EndInitialPoll(Send(e1, o))) || r == EndInitialPoll(e1)
  {
    hide Choose, Send, EndInitialPoll, MustWait, KeysOk, AllDone;
  }

  lemma ExecuteKeepsUses(e: Exec, o: Outcome, c: Command, n: nat)
    requires Placed(e) && !AllDone(e) && c.IsRpc() && !c.isWrite && UsesOk(e, c, n)
    ensures KeysOk(e) && UsesOk(ExecuteNext(e, o).0, c, n)
  {
    assert KeysOk(e);
    hide *;
    ChooseKeepsUses(e, c, n);
    ChoosePlaced(e);
    ExecuteIs(e, o);
    var e1 := Choose(e);
    EndKeepsUses(e1, c, n);
    if e1.waiting.Some? {
      SendKeepsUses(e1, o, c, n);
      EndKeepsUses(Send(e1, o), c, n);
    }
  }

  lemma EndKeepsUses(e: Exec, c: Command, n: nat)
    ensures UsesOk(EndInitialPoll(e), c, n) == UsesOk(e, c, n)
  {
    hide PollDone, Limit, Attempts;
  }

  lemma StepKeepsUses(e: Exec, call: Call, c: Command, n: nat)
    requires Inv(e) && Allowed(e, call) && c.IsRpc() && !c.isWrite && UsesOk(e, c, n)
    ensures UsesOk(Apply(e, call), c, n + if Interrupts(e, call, c) then 1 else 0)
  {
    assert KeysOk(e) && Placed(e);
    hide UsesOk, Inv, Placed, WithPollList, AddWriteCommand, ExecuteNext;
    match call
    case Read(x) =>
      assert Quietly(e, AddRead(e, x), c) && AddRead(e, x).waiting == e.waiting by { hide AddPolls; }
      QuietKeepsUses(e, AddRead(e, x), c, n);
    case Write(w) =>
      WriteQuietly(e, w, c);
      QuietKeepsUses(e, AddWriteCommand(e, w), c, n);
    case Polls(regs, initialPoll, now) =>
      PollsQuietly(e, regs, initialPoll, now, c);
      QuietKeepsUses(e, WithPollList(e, regs, initialPoll, now), c, n);
    case Execute(o) => ExecuteKeepsUses(e, o, c, n);
  }

  // ------------------------------------------------------------------ every run

  /** How often the first `i` calls interrupted the read. */
  ghost function Interruptions(run: seq<Exec>, calls: seq<Call>, c: Command, i: nat): nat
    requires i <= |calls| <= |run|
  {
    if i == 0 then 0
    else Interruptions(run, calls, c, i - 1) + if Interrupts(run[i - 1], calls[i - 1], c) then 1 else 0
  }

  lemma FreshUses(time: int, c: Command)
    ensures UsesOk(ExecutorRuns.Fresh(time), c, 0)
  {
    hide Limit;
  }

  lemma {:induction false} RunKeepsUses(run: seq<Exec>, calls: seq<Call>, c: Command, i: nat)
    requires IsRun(run, calls) && i < |run| && c.IsRpc() && !c.isWrite
    ensures UsesOk(run[i], c, Interruptions(run, calls, c, i))
  {
    hide UsesOk, Inv, Apply, Allowed, Interrupts;
    if i == 0 {
      FreshUses(run[0].lastTime, c);
    } else {
      var h := i - 1;
      RunKeepsUses(run, calls, c, h);
      RunKeepsInv(run, calls, h);
      assert StepsTo(run[h], calls[h], run[h + 1]);
      StepKeepsUses(run[h], calls[h], c, Interruptions(run, calls, c, h));
    }
  }

  lemma UsesAreBounded(e: Exec, c: Command, n: nat)
    requires UsesOk(e, c, n)
    ensures Attempts(e.bus, c) <= Limit(c, n + 1)
  {
    LimitNext(c, n);
    hide Limit, Attempts;
  }

  /** Over every run an RPC read uses the bus at most once more than it may be retried, for each time it was
      interrupted and once again; so at most once more than it may be retried if it never was. */
  lemma ReadUsesAreBounded(run: seq<Exec>, calls: seq<Call>, c: Command, i: nat)
    requires IsRun(run, calls) && i < |run| && c.IsRpc() && !c.isWrite
    ensures Attempts(run[i].bus, c) <= Limit(c, Interruptions(run, calls, c, i) + 1)
    ensures Interruptions(run, calls, c, i) == 0 ==> Attempts(run[i].bus, c) <= 1 + c.maxRead
  {
    hide UsesOk, Limit, StepsTo, Interruptions, Attempts;
    RunKeepsUses(run, calls, c, i);
    UsesAreBounded(run[i], c, Interruptions(run, calls, c, i));
    OneRound(c);
  }

  // ------------------------------------------------------------------ an interrupted read is sent again

  const READ := Command(0, false, 1, -1, 0, 0, 1, 0)
  const WRITE := Command(1, true, 1, 1, 0, 0, 0, 0)
  const FAILS := Outcome(0, 0, 0, false, false)
  const WORKS := Outcome(0, 0, 0, true, false)

  /** A read fails, a write takes its place and succeeds, and the read fails as often as it may. */
  const INTERRUPTED: seq<Call> :=
    [Read(READ), Execute(FAILS), Write(WRITE), Execute(WORKS), Execute(FAILS), Execute(FAILS)]

  /** The executor with the read queued. */
  const QUEUED := ExecutorRuns.Fresh(0).(keys := [1], queues := map[1 := NEW.(polls := [READ])], current := Some(1),
    commandsLeft := 2, accepted := [READ])

  /** The read failed once and is in the slot. */
  const RETRYING := QUEUED.(queues := map[1 := NEW.(popFromPoll := false)], waiting := Some(READ), last := Some(READ),
    maxRead := 1, readRetry := 0, bus := [BusEvent(READ, 0, 0, false, 0)])

  /** The write is in the slot and the read back in its queue. */
  const DISPLACED := RETRYING.(queues := map[1 := NEW.(polls := [READ])], waiting := Some(WRITE), writesQueued := 1,
    accepted := [READ, WRITE])

  lemma ReadIsQueued()
    ensures AddRead(ExecutorRuns.Fresh(0), READ) == QUEUED && KeysOk(QUEUED)
  {
    assert [READ][1..] == [] && [] + [READ] == [READ];
    assert AddPolls(NEW, [READ]) == NEW.(polls := [READ]);
  }

  lemma ReadIsRetried()
    ensures KeysOk(QUEUED) && !AllDone(QUEUED) && ExecuteNext(QUEUED, FAILS).0 == RETRYING
  {
    assert QUEUED.queues[1].polls == [READ];
    var e := QUEUED.(queues := map[1 := NEW.(popFromPoll := false)], waiting := Some(READ));
    assert Choose(QUEUED) == e by { assert [READ][1..] == []; }
    assert Send(e, FAILS) == RETRYING by { assert e.bus + [RETRYING.bus[0]] == RETRYING.bus; }
  }

  lemma ReadIsDisplaced()
    ensures KeysOk(RETRYING) && AddWriteCommand(RETRYING, WRITE) == DISPLACED && KeysOk(DISPLACED)
    ensures Interrupts(RETRYING, Write(WRITE), READ)
  {
    assert [READ] + [] == [READ] && [READ] + [WRITE] == [READ, WRITE];
  }

  /** The write succeeded. */
  const WRITTEN := DISPLACED.(maxRead := 0, waiting := None, last := Some(WRITE), writesQueued := 0,
    finished := [WRITE], commandsLeft := 1, sent := [Message(Values, WRITE, 1)],
    bus := [BusEvent(READ, 0, 0, false, 0), BusEvent(WRITE, 0, 0, true, 0)])

  /** The read failed once more, but has its retries back. */
  const AGAIN := WRITTEN.(queues := map[1 := NEW.(popFromPoll := false)], waiting := Some(READ), last := Some(READ),
    maxRead := 1, readRetry := 0,
    bus := [BusEvent(READ, 0, 0, false, 0), BusEvent(WRITE, 0, 0, true, 0), BusEvent(READ, 0, 0, false, 1)])

  lemma WriteIsSent()
    ensures KeysOk(DISPLACED) && !AllDone(DISPLACED) && ExecuteNext(DISPLACED, WORKS).0 == WRITTEN
  {
    var e := DISPLACED;
    assert Choose(e) == e;
    assert e.sent + WRITTEN.sent == WRITTEN.sent && e.finished + [WRITE] == [WRITE];
    assert e.bus + [WRITTEN.bus[1]] == WRITTEN.bus;
    assert Send(e, WORKS) == WRITTEN;
  }

  lemma ReadIsSentAgain()
    ensures KeysOk(WRITTEN) && !AllDone(WRITTEN) && ExecuteNext(WRITTEN, FAILS).0 == AGAIN
  {
    assert WRITTEN.queues[1].polls == [READ];
    var e := WRITTEN.(queues := map[1 := NEW.(popFromPoll := false)], waiting := Some(READ));
    assert Choose(WRITTEN) == e by { assert [READ][1..] == []; }
    WriteOrdinal();
    assert e.bus + [AGAIN.bus[2]] == AGAIN.bus && e.sent + [] == e.sent;
    assert Send(e, FAILS) == AGAIN;
  }

  lemma WriteOrdinal()
    ensures |WritesOf([WRITE], 1)| == 1
  {
    assert [WRITE][..0] == [];
  }

  lemma TwoUses()
    ensures Attempts(AGAIN.bus, READ) == 2
  {
    var b := AGAIN.bus;
    assert b == [] + [b[0]] + [b[1]] + [b[2]];
    AttemptsAppend([], b[0], READ);
    AttemptsAppend([] + [b[0]], b[1], READ);
    AttemptsAppend([] + [b[0]] + [b[1]], b[2], READ);
  }

  lemma LastAttempt()
    ensures KeysOk(AGAIN) && !AllDone(AGAIN) && Attempts(ExecuteNext(AGAIN, FAILS).0.bus, READ) == 3
  {
    var e := AGAIN;
    assert Choose(e) == e && !MustWait(e, 0);
    TwoUses();
    SendFields(e, FAILS);
    var b := BusEvent(READ, 0, 0, false, |WritesOf(e.finished, READ.slave)|);
    hide Attempts, Send, WritesOf, MessagesOf, PollDone;
    assert ExecuteNext(e, FAILS).0.bus == e.bus + [b];
    AttemptsAppend(e.bus, b, READ);
  }

  lemma FirstSteps()
    ensures StepsTo(ExecutorRuns.Fresh(0), Read(READ), QUEUED)
    ensures StepsTo(QUEUED, Execute(FAILS), RETRYING) && StepsTo(RETRYING, Write(WRITE), DISPLACED)
  {
    ReadIsQueued();
    ReadIsRetried();
    ReadIsDisplaced();
    hide ExecuteNext, AddRead, AddWriteCommand, AllDone;
  }

  lemma LastSteps()
    ensures StepsTo(DISPLACED, Execute(WORKS), WRITTEN) && StepsTo(WRITTEN, Execute(FAILS), AGAIN)
    ensures KeysOk(AGAIN) && StepsTo(AGAIN, Execute(FAILS), ExecuteNext(AGAIN, FAILS).0)
  {
    WriteIsSent();
    ReadIsSentAgain();
    LastAttempt();
    hide ExecuteNext, AllDone, KeysOk, Attempts;
  }

  lemma RunOfSix(run: seq<Exec>, calls: seq<Call>)
    requires |run| == 7 && |calls| == 6 && run[0] == ExecutorRuns.Fresh(run[0].lastTime)
    requires StepsTo(run[0], calls[0], run[1]) && StepsTo(run[1], calls[1], run[2]) && StepsTo(run[2], calls[2], run[3])
    requires StepsTo(run[3], calls[3], run[4]) && StepsTo(run[4], calls[4], run[5]) && StepsTo(run[5], calls[5], run[6])
    ensures IsRun(run, calls)
  {
    hide StepsTo;
  }

  /** A read that may be retried once is sent three times. */
  lemma InterruptedReadIsSentThrice() returns (run: seq<Exec>)
    ensures IsRun(run, INTERRUPTED) && READ.maxRead == 1 && Attempts(run[6].bus, READ) == 3
  {
    FirstSteps();
    LastSteps();
    LastAttempt();
    hide StepsTo, ExecuteNext, KeysOk, AllDone, Attempts, IsRun;
    run := [ExecutorRuns.Fresh(0), QUEUED, RETRYING, DISPLACED, WRITTEN, AGAIN, ExecuteNext(AGAIN, FAILS).0];
    RunOfSix(run, INTERRUPTED);
  }
}
