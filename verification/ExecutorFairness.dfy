/** No slave is skipped for long: the order in which queues are visited, what a visit may finish, and how
    polls and writes of one slave take turns. */
module ExecutorFairness {
  import opened Options
  import opened RequestQueues
  import opened Executor
  import opened ExecutorInvariants
  import opened ExecutorRuns

  // ------------------------------------------------------------------ going round

  /** `a` comes before `b` on the way round the slaves that starts just after `t` and ends with `t`. */
  predicate Before(t: int, a: int, b: int) {
    (t < a && b <= t) || ((t < a <==> t < b) && a < b)
  }

  predicate Busy(e: Exec, s: int) {
    s in e.queues && !e.queues[s].Empty()
  }

  /** The executor must leave the current queue: the budget is used up or the queue is empty. */
  predicate Switching(e: Exec) {
    && e.waiting.None? && e.current.Some? && e.current.value in e.queues
    && (e.commandsLeft == 0 || e.queues[e.current.value].Empty())
  }

  /** The search ends at the first busy queue after the current one. */
  lemma NextBusyIsFirst(e: Exec, s: int)
    requires KeysOk(e) && e.current.Some? && Busy(e, s)
    ensures Busy(e, e.keys[NextBusy(e)])
    ensures s == e.keys[NextBusy(e)] || Before(e.current.value, e.keys[NextBusy(e)], s)
  {
    var p := IndexOf(e.keys, e.current.value);
    var a := FirstBusy(e, p + 1);
    var k := IndexOf(e.keys, s);
  }

  ghost predicate FastPath(e: Exec, call: Call) {
    call.Write? && e.writesQueued == 0
  }

  ghost predicate Visits(e: Exec, call: Call) {
    call.Execute? && Switching(e)
  }

  lemma {:induction false} InsertPollsFrame(e: Exec, regs: PollMap)
    ensures InsertPolls(e, regs) == e.(keys := InsertPolls(e, regs).keys, queues := InsertPolls(e, regs).queues)
    decreases |regs|
  {
    if regs != [] { InsertPollsFrame(WithQueue(e, regs[0].0, AddPolls(QueueOf(e, regs[0].0), regs[0].1)), regs[1..]); }
  }

  /** New polls are refused, or queued, or queued and started on. */
  lemma PollCases(e: Exec, regs: PollMap, initialPoll: bool, now: int)
    requires KeysOk(e)
    ensures var e1 := InsertPolls(e.(initialPoll := e.initialPoll || initialPoll), regs);
      && KeysOk(e1)
      && e1 == e.(initialPoll := e.initialPoll || initialPoll, keys := e1.keys, queues := e1.queues)
      && WithPollList(e, regs, initialPoll, now) ==
         if e.initialPoll && !PollDone(e) then e
         else if !AllDone(e) || FirstAdded(regs).None? then e1
         else StartPolls(e1, FirstAdded(regs).value, now - e.lastTime)
  {
    InsertPollsKeepsKeys(e.(initialPoll := e.initialPoll || initialPoll), regs);
    InsertPollsFrame(e.(initialPoll := e.initialPoll || initialPoll), regs);
    hide InsertPolls, StartPolls, FirstAdded, PollDone, AllDone;
  }

  /** The slave whose queue the executor takes the next command from. */
  ghost function Source(e: Exec): int
    requires KeysOk(e) && !AllDone(e) && e.waiting.None? && e.current.Some?
  {
    if Switching(e) then e.keys[NextBusy(e)] else e.current.value
  }

  lemma ChooseCases(e: Exec)
    requires KeysOk(e) && !AllDone(e)
    ensures var r := Choose(e);
      if e.waiting.Some? || e.current.None? then r == e
      else
        var s := Source(e);
        && Busy(e, s) && r.keys == e.keys && r.queues == e.queues[s := PopNext(e.queues[s])]
        && r.current == Some(s) && r.waiting == Some(Popped(e.queues[s]))
        && r.commandsLeft == if Switching(e) then Budget(r) else e.commandsLeft
  {
    hide NextBusy, PopNext, Popped;
  }

  lemma SendFrame(e: Exec, o: Outcome)
    requires e.waiting.Some?
    ensures var r := Send(e, o);
      && r.keys == e.keys && r.queues == e.queues && r.current == e.current
      && (r.waiting == e.waiting ==> r.commandsLeft == e.commandsLeft)
      && (r.waiting != e.waiting ==> r.waiting.None? && (0 < e.commandsLeft ==> r.commandsLeft == e.commandsLeft - 1))
  {
    SendFields(e, o);
    hide Send;
  }

  lemma ExecuteFrame(e: Exec, o: Outcome)
    requires KeysOk(e) && !AllDone(e)
    ensures var e1 := Choose(e); var r := ExecuteNext(e, o).0;
      && r.keys == e1.keys && r.queues == e1.queues && r.current == e1.current
      && (r.waiting == e1.waiting ==> r.commandsLeft == e1.commandsLeft)
      && (r.waiting != e1.waiting ==>
            r.waiting.None? && (0 < e1.commandsLeft ==> r.commandsLeft == e1.commandsLeft - 1))
  {
    hide Choose, Send, PollDone;
    if Choose(e).waiting.Some? { SendFrame(Choose(e), o); }
  }

  /** While some queue is busy, only a visit or the fast path moves the cursor. */
  lemma CursorMoves(e: Exec, call: Call, t: int)
    requires KeysOk(e) && Allowed(e, call) && e.current.Some? && Busy(e, t) && !FastPath(e, call)
    ensures Apply(e, call).current == if Visits(e, call) then Some(e.keys[NextBusy(e)]) else e.current
  {
    match call
    case Read(c) =>
    case Write(c) =>
    case Polls(regs, initialPoll, now) =>
      hide InsertPolls, StartPolls;
      InsertPollsFrame(e.(initialPoll := e.initialPoll || initialPoll), regs);
    case Execute(o) =>
      hide Choose, ExecuteNext, NextBusy, PopNext, Popped;
      ChooseCases(e);
      ExecuteFrame(e, o);
  }

  /** Slave `t` has commands waiting but the executor is at another slave. */
  predicate Skipped(e: Exec, t: int) {
    Busy(e, t) && e.current.Some? && e.current.value != t
  }

  ghost predicate SkippedThroughout(run: seq<Exec>, calls: seq<Call>, t: int, i: nat, j: nat)
    requires |run| == |calls| + 1 && i <= j < |run|
  {
    && (forall k | i <= k <= j :: Skipped(run[k], t))
    && (forall k | i <= k < j :: !FastPath(run[k], calls[k]))
  }

  lemma CursorAdvances(e: Exec, call: Call, t: int)
    requires KeysOk(e) && Allowed(e, call) && !FastPath(e, call) && Skipped(e, t) && Skipped(Apply(e, call), t)
    ensures var r := Apply(e, call);
      if Visits(e, call) then Before(t, e.current.value, r.current.value) else r.current == e.current
  {
    CursorMoves(e, call, t);
    hide Apply, Allowed;
    if Visits(e, call) { NextBusyIsFirst(e, t); }
  }

  lemma {:induction false} CursorOnlyAdvances(run: seq<Exec>, calls: seq<Call>, t: int, i: nat, j: nat)
    requires IsRun(run, calls) && i <= j < |run| && SkippedThroughout(run, calls, t, i, j)
    ensures run[i].current == run[j].current || Before(t, run[i].current.value, run[j].current.value)
    decreases j - i
  {
    hide Apply, Allowed, KeysOk, Visits, Busy, FastPath;
    if i < j {
      CursorOnlyAdvances(run, calls, t, i, j - 1);
      assert StepsTo(run[j - 1], calls[j - 1], run[j - 1 + 1]);
      CursorAdvances(run[j - 1], calls[j - 1], t);
    }
  }

  /** While a slave with waiting commands is skipped and no write takes the fast path, no queue is visited
      twice. */
  lemma NoQueueVisitedTwice(run: seq<Exec>, calls: seq<Call>, t: int, i: nat, j: nat)
    requires IsRun(run, calls) && i < j < |calls| && SkippedThroughout(run, calls, t, i, j + 1)
    requires Visits(run[i], calls[i]) && Visits(run[j], calls[j])
    ensures run[i + 1].current != run[j + 1].current
  {
    CursorOnlyAdvances(run, calls, t, i + 1, j);
    hide Apply, Allowed;
    assert StepsTo(run[j], calls[j], run[j + 1]);
    CursorAdvances(run[j], calls[j], t);
  }

  // ------------------------------------------------------------------ the budget of a visit

  /** A command in the slot is covered by the budget. */
  predicate Budgeted(e: Exec) {
    0 <= e.commandsLeft && (e.waiting.Some? ==> 0 < e.commandsLeft)
  }

  /** The call starts a new budget. */
  ghost predicate Resets(e: Exec, call: Call) {
    match call
    case Read(_) => e.current.None?
    case Write(_) => e.current.None? || e.writesQueued == 0
    case Polls(regs, _, _) => AllDone(e) && FirstAdded(regs).Some? && !(e.initialPoll && !PollDone(e))
    case Execute(_) => Switching(e)
  }

  /** Ten commands for a queue without polls, else twice as many as there are polls. */
  function Allowance(polls: seq<Command>): int {
    if polls == [] then 10 else 2 * |polls|
  }

  /** The polls in the current queue. */
  function CurrentPolls(e: Exec): seq<Command> {
    if e.current.Some? && e.current.value in e.queues then e.queues[e.current.value].polls else []
  }

  lemma BudgetIsAllowance(e: Exec)
    ensures Budget(e) == Allowance(CurrentPolls(e))
  {
  }

  /** The budget a call starts with: what was left, or the allowance of the queue it selects. That of a visit
      does not count the command taken first; that of new polls counts those of the first queue that got any,
      before one of them is elected. */
  ghost function BudgetOf(e: Exec, call: Call): int
    requires KeysOk(e) && Allowed(e, call)
  {
    if !Resets(e, call) then e.commandsLeft
    else
      match call
      case Polls(regs, initialPoll, _) => PollBudget(e, regs, initialPoll)
      case Execute(_) => Allowance(CurrentPolls(Choose(e)))
      case _ => Allowance(CurrentPolls(Apply(e, call)))
  }

  ghost function PollBudget(e: Exec, regs: PollMap, initialPoll: bool): int {
    var queued := InsertPolls(e.(initialPoll := e.initialPoll || initialPoll), regs);
    Allowance(CurrentPolls(queued.(current := FirstAdded(regs))))
  }

  ghost predicate Finishes(e: Exec, call: Call)
    requires KeysOk(e) && Allowed(e, call)
  {
    call.Execute? && Choose(e).waiting.Some? && Apply(e, call).waiting.None?
  }

  lemma {:induction false} ElectFrame(e: Exec, i: nat, period: int, best: Duration)
    requires i <= |e.keys| && KeysListed(e)
    ensures Elect(e, i, period, best).commandsLeft == e.commandsLeft
    decreases |e.keys| - i
  {
    if i < |e.keys| && best != Finite(0) {
      var (e1, best1) := ElectOne(e, e.keys[i], period, best);
      ElectFrame(e1, i + 1, period, best1);
    }
  }

  lemma StartPollsBudgeted(e: Exec, first: int, period: int)
    requires KeysListed(e)
    ensures Budgeted(StartPolls(e, first, period))
    ensures StartPolls(e, first, period).commandsLeft == Allowance(CurrentPolls(e.(current := Some(first))))
  {
    BudgetIsAllowance(e.(current := Some(first)));
    ElectFrame(ResetCounter(e.(current := Some(first))), 0, period, Infinite);
    hide Elect;
  }

  lemma InsertPollsKeepBudgeted(e: Exec, regs: PollMap, initialPoll: bool)
    requires KeysOk(e) && Budgeted(e)
    ensures var r := InsertPolls(e.(initialPoll := e.initialPoll || initialPoll), regs);
      KeysListed(r) && Budgeted(r) && r.commandsLeft == e.commandsLeft
  {
    var e0 := e.(initialPoll := e.initialPoll || initialPoll);
    InsertPollsKeepsKeys(e0, regs);
    InsertPollsFrame(e0, regs);
    hide InsertPolls;
  }

  lemma PollsKeepBudgeted(e: Exec, regs: PollMap, initialPoll: bool, now: int)
    requires KeysOk(e) && Budgeted(e)
    ensures var r := WithPollList(e, regs, initialPoll, now);
      && Budgeted(r)
      && r.commandsLeft == if Resets(e, Polls(regs, initialPoll, now)) then PollBudget(e, regs, initialPoll)
                           else e.commandsLeft
  {
    InsertPollsKeepBudgeted(e, regs, initialPoll);
    var e1 := InsertPolls(e.(initialPoll := e.initialPoll || initialPoll), regs);
    hide InsertPolls, StartPolls, FirstAdded, PollDone, Budget, KeysListed, Budgeted, AllDone, Allowance, CurrentPolls;
    if AllDone(e) && FirstAdded(regs).Some? { StartPollsBudgeted(e1, FirstAdded(regs).value, now - e.lastTime); }
  }

  lemma ExecuteKeepsBudgeted(e: Exec, o: Outcome)
    requires KeysOk(e) && Budgeted(e) && Allowed(e, Execute(o))
    ensures Budgeted(Apply(e, Execute(o))) && Budgeted(Choose(e))
    ensures Choose(e).commandsLeft == if Switching(e) then Allowance(CurrentPolls(Choose(e))) else e.commandsLeft
    ensures Apply(e, Execute(o)).commandsLeft == Choose(e).commandsLeft - if Finishes(e, Execute(o)) then 1 else 0
  {
    hide Choose, ExecuteNext, NextBusy, PopNext, Popped;
    ChooseCases(e);
    BudgetIsAllowance(Choose(e));
    ExecuteFrame(e, o);
  }

  lemma ReadKeepsBudgeted(e: Exec, c: Command)
    requires KeysOk(e) && Budgeted(e)
    ensures var r := AddRead(e, c);
      Budgeted(r) && r.commandsLeft == if e.current.None? then Allowance(CurrentPolls(r)) else e.commandsLeft
  {
    BudgetIsAllowance(AddRead(e, c));
    hide AddPolls;
  }

  lemma WriteKeepsBudgeted(e: Exec, c: Command)
    requires KeysOk(e) && Budgeted(e)
    ensures var r := AddWriteCommand(e, c);
      && Budgeted(r)
      && r.commandsLeft ==
         if e.current.None? || e.writesQueued == 0 then Allowance(CurrentPolls(r)) else e.commandsLeft
  {
    BudgetIsAllowance(AddWriteCommand(e, c));
    hide Readd, AddWrite;
  }

  lemma StepKeepsBudgeted(e: Exec, call: Call)
    requires KeysOk(e) && Budgeted(e) && Allowed(e, call)
    ensures Budgeted(Apply(e, call))
    ensures Apply(e, call).commandsLeft == BudgetOf(e, call) - if Finishes(e, call) then 1 else 0
  {
    hide KeysOk, Budgeted, Budget, Allowance, CurrentPolls, AddRead, AddWriteCommand, WithPollList, Choose, ExecuteNext;
    match call
    case Read(c) => ReadKeepsBudgeted(e, c);
    case Write(c) => WriteKeepsBudgeted(e, c);
    case Polls(regs, initialPoll, now) => PollsKeepBudgeted(e, regs, initialPoll, now);
    case Execute(o) => ExecuteKeepsBudgeted(e, o);
  }

  lemma FreshIsBudgeted(time: int)
    ensures Budgeted(ExecutorRuns.Fresh(time))
  {
  }

  lemma {:induction false} RunIsBudgeted(run: seq<Exec>, calls: seq<Call>, i: nat)
    requires IsRun(run, calls) && i < |run|
    ensures Budgeted(run[i])
  {
    hide Apply, Allowed, Budgeted, BudgetOf, Finishes, KeysOk;
    if i == 0 {
      FreshIsBudgeted(run[0].lastTime);
    } else {
      var h := i - 1;
      RunIsBudgeted(run, calls, h);
      assert StepsTo(run[h], calls[h], run[h + 1]);
      StepKeepsBudgeted(run[h], calls[h]);
    }
  }

  /** How many commands the calls from `i` up to `j` finished. */
  ghost function Finished(run: seq<Exec>, calls: seq<Call>, i: nat, j: nat): nat
    requires IsRun(run, calls) && i <= j < |run|
    decreases j - i
  {
    if i == j then 0
    else
      assert StepsTo(run[j - 1], calls[j - 1], run[j - 1 + 1]);
      Finished(run, calls, i, j - 1) + if Finishes(run[j - 1], calls[j - 1]) then 1 else 0
  }

  /** A budget, started by a visit, an election or a first command, covers what is finished until the next
      one: it is twice the number of polls in the selected queue, or the write batch size. */
  lemma {:induction false} VisitStaysInBudget(run: seq<Exec>, calls: seq<Call>, i: nat, j: nat)
    requires IsRun(run, calls) && i < j < |run|
    requires forall k | i < k < j :: !Resets(run[k], calls[k])
    ensures KeysOk(run[i]) && Allowed(run[i], calls[i])
    ensures Finished(run, calls, i, j) + run[j].commandsLeft == BudgetOf(run[i], calls[i]) && 0 <= run[j].commandsLeft
    decreases j
  {
    hide Apply, Choose, KeysOk, Finishes, Resets;
    RunIsBudgeted(run, calls, j - 1);
    assert StepsTo(run[i], calls[i], run[i + 1]);
    hide Allowed;
    assert StepsTo(run[j - 1], calls[j - 1], run[j - 1 + 1]);
    StepKeepsBudgeted(run[j - 1], calls[j - 1]);
    if i < j - 1 {
      VisitStaysInBudget(run, calls, i, j - 1);
    } else {
      assert Finished(run, calls, i, i) == 0;
    }
  }

  // ------------------------------------------------------------------ polls and writes take turns

  /** The call takes the next command from the queues of slave `s`. */
  ghost predicate Pops(e: Exec, call: Call, s: int)
    requires KeysOk(e) && Allowed(e, call)
  {
    call.Execute? && e.waiting.None? && e.current.Some? && Choose(e).current == Some(s)
  }

  /** The call puts a displaced command back in front of the queues of slave `s`. */
  ghost predicate Displaces(e: Exec, call: Call, s: int) {
    FastPath(e, call) && e.waiting.Some? && call.c.slave == s
  }

  /** Slave `s` has a poll, or a write, in its queue. */
  predicate Waits(e: Exec, s: int, polls: bool) {
    s in e.queues && if polls then e.queues[s].polls != [] else e.queues[s].writes != []
  }

  /** A step that takes nothing from slave `s`, where a poll, or a write, waits. */
  ghost predicate PassesBy(e: Exec, call: Call, r: Exec, s: int, polls: bool) {
    StepsTo(e, call, r) && Waits(e, s, polls) && !Pops(e, call, s)
  }

  function Turn(e: Exec, s: int): bool {
    QueueOf(e, s).popFromPoll
  }

  lemma {:induction false} InsertPollsKeepTurn(e: Exec, regs: PollMap, s: int)
    ensures Turn(InsertPolls(e, regs), s) == Turn(e, s)
    decreases |regs|
  {
    if regs != [] {
      AddPollsKeeps(QueueOf(e, regs[0].0), regs[0].1);
      InsertPollsKeepTurn(WithQueue(e, regs[0].0, AddPolls(QueueOf(e, regs[0].0), regs[0].1)), regs[1..], s);
    }
  }

  lemma AddPollKeepsTurn(q: Queues, c: Command)
    ensures AddPolls(q, [c]).popFromPoll == q.popFromPoll
  {
    AddPollsKeeps(q, [c]);
  }

  lemma TurnKept(e: Exec, call: Call, s: int)
    requires KeysOk(e) && Allowed(e, call) && Busy(e, s) && !Pops(e, call, s) && !Displaces(e, call, s)
    ensures Turn(Apply(e, call), s) == Turn(e, s)
  {
    match call
    case Read(c) => AddPollKeepsTurn(QueueOf(e, c.slave), c);
    case Write(c) =>
    case Polls(regs, initialPoll, now) =>
      InsertPollsKeepTurn(e.(initialPoll := e.initialPoll || initialPoll), regs, s);
      hide InsertPolls, StartPolls;
    case Execute(o) =>
      hide Choose, ExecuteNext, NextBusy, PopNext, Popped;
      ChooseCases(e);
      ExecuteFrame(e, o);
  }

  lemma PopTurns(e: Exec, call: Call, s: int)
    requires KeysOk(e) && Allowed(e, call) && Pops(e, call, s)
    ensures Busy(e, s) && Turn(Apply(e, call), s) == PopNext(e.queues[s]).popFromPoll
    ensures Choose(e).waiting == Some(Popped(e.queues[s]))
  {
    hide Choose, ExecuteNext, NextBusy, PopNext, Popped;
    ChooseCases(e);
    ExecuteFrame(e, call.outcome);
  }

  /** A displaced poll makes it the turn of the polls. While a write waits nothing is displaced. */
  lemma DisplacedTakesTurn(e: Exec, call: Call, s: int)
    requires Inv(e) && Allowed(e, call) && Displaces(e, call, s)
    ensures Turn(Apply(e, call), s) && !Waits(e, s, false)
  {
    FastPathDisplacesPolls(e);
    hide Inv;
  }

  /** What waits keeps its turn until something is taken from the slave. */
  lemma WaitingKeepsTurn(e: Exec, call: Call, r: Exec, s: int, polls: bool)
    requires Inv(e) && PassesBy(e, call, r, s, polls) && Turn(e, s) == polls
    ensures Turn(r, s) == polls
  {
    if Displaces(e, call, s) {
      DisplacedTakesTurn(e, call, s);
    } else {
      hide Inv, Apply, Allowed, Pops, Displaces;
      TurnKept(e, call, s);
    }
  }

  lemma {:induction false} TurnKeptThroughout(run: seq<Exec>, calls: seq<Call>, s: int, polls: bool, i: nat, j: nat)
    requires IsRun(run, calls) && i <= j < |run| && Turn(run[i], s) == polls
    requires forall k | i <= k < j :: PassesBy(run[k], calls[k], run[k + 1], s, polls)
    ensures Turn(run[j], s) == polls
    decreases j - i
  {
    if i < j {
      var h := j - 1;
      TurnKeptThroughout(run, calls, s, polls, i, h);
      RunKeepsInv(run, calls, h);
      hide Inv, Apply, Allowed, Pops, IsRun, Turn;
      assert PassesBy(run[h], calls[h], run[h + 1], s, polls);
      WaitingKeepsTurn(run[h], calls[h], run[h + 1], s, polls);
    }
  }

  /** Of two commands taken one after the other from the queues of a slave, the second is a write if the
      first was a poll and a write was waiting ever since, and the other way round. */
  lemma NeverBypassedTwice(run: seq<Exec>, calls: seq<Call>, s: int, polls: bool, i: nat, j: nat)
    requires IsRun(run, calls) && i < j < |calls|
    requires StepsTo(run[i], calls[i], run[i + 1]) && StepsTo(run[j], calls[j], run[j + 1])
    requires Pops(run[i], calls[i], s) && Pops(run[j], calls[j], s)
    requires s in run[i].queues && !run[i].queues[s].Empty() && PoppedFrom(run[i].queues[s]) != polls
    requires Waits(run[j], s, polls) && forall k | i < k < j :: PassesBy(run[k], calls[k], run[k + 1], s, polls)
    ensures PoppedFrom(run[j].queues[s]) == polls && Choose(run[j]).waiting == Some(Popped(run[j].queues[s]))
  {
    PopTurns(run[i], calls[i], s);
    PopTurns(run[j], calls[j], s);
    hide Apply, Allowed, Pops, Choose;
    TurnKeptThroughout(run, calls, s, polls, i + 1, j);
  }

  // ------------------------------------------------------------------ the slot and the cursor

  lemma {:induction false} InsertPollsFills(e: Exec, regs: PollMap, s: int)
    ensures QueueOf(e, s).polls <= QueueOf(InsertPolls(e, regs), s).polls
    ensures FirstAdded(regs) == Some(s) ==>
      s in InsertPolls(e, regs).queues && InsertPolls(e, regs).queues[s].polls != []
    decreases |regs|
  {
    if regs != [] {
      var q := AddPolls(QueueOf(e, regs[0].0), regs[0].1);
      AddPollsKeeps(QueueOf(e, regs[0].0), regs[0].1);
      if regs[0].1 != [] { assert regs[0].1[0] in q.polls; }
      hide AddPolls;
      InsertPollsFills(WithQueue(e, regs[0].0, q), regs[1..], s);
    }
  }

  /** An election that elects nothing leaves the cursor and its queue as they were. */
  lemma {:induction false} ElectOrKeep(e: Exec, i: nat, period: int, best: Duration)
    requires i <= |e.keys| && KeysListed(e) && CanPop(e)
    ensures Elect(e, i, period, best).waiting.Some? || CanPop(Elect(e, i, period, best))
    decreases |e.keys| - i
  {
    if i < |e.keys| && best != Finite(0) {
      var (e1, best1) := ElectOne(e, e.keys[i], period, best);
      if e1.waiting.None? {
        ElectOrKeep(e1, i + 1, period, best1);
      } else {
        ElectKeepsSlotFull(e1, i + 1, period, best1);
      }
    }
  }

  lemma {:induction false} ElectKeepsSlotFull(e: Exec, i: nat, period: int, best: Duration)
    requires i <= |e.keys| && KeysListed(e) && e.waiting.Some?
    ensures Elect(e, i, period, best).waiting.Some?
    decreases |e.keys| - i
  {
    if i < |e.keys| && best != Finite(0) {
      var (e1, best1) := ElectOne(e, e.keys[i], period, best);
      ElectKeepsSlotFull(e1, i + 1, period, best1);
    }
  }

  /** When an idle executor is given polls it always has a command in the slot afterwards. */
  lemma StartSelects(e: Exec, regs: PollMap, initialPoll: bool, now: int)
    requires KeysOk(e) && AllDone(e) && !(e.initialPoll && !PollDone(e)) && FirstAdded(regs).Some?
    ensures WithPollList(e, regs, initialPoll, now).waiting.Some?
  {
    var e0 := e.(initialPoll := e.initialPoll || initialPoll);
    PollCases(e, regs, initialPoll, now);
    InsertPollsFills(e0, regs, FirstAdded(regs).value);
    assert KeysListed(InsertPolls(e0, regs));
    hide InsertPolls, KeysOk, KeysListed, StartPolls, WithPollList, AllDone, PollDone, FirstAdded;
    StartFillsSlot(InsertPolls(e0, regs), FirstAdded(regs).value, now - e.lastTime);
  }

  lemma StartFillsSlot(e: Exec, first: int, period: int)
    requires KeysListed(e) && first in e.queues && e.queues[first].polls != []
    ensures StartPolls(e, first, period).waiting.Some?
  {
    hide Elect, PopNext, Popped;
    ElectOrKeep(ResetCounter(e.(current := Some(first))), 0, period, Infinite);
  }
}
