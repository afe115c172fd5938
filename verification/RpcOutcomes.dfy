/** What an RPC response says about its command: for a read how it ended, for a write how its first attempt
    went. */
module RpcOutcomes {
  import opened Options
  import opened RequestQueues
  import opened Executor
  import opened ExecutorReports
  import opened Rpc
  import X = ExecutorInvariants
  import R = ExecutorRuns

  // ------------------------------------------------------------------ responses tell the first message

  /** The `i`-th message of the network has arrived and is the first about its command. */
  predicate TellsAt(t: Net, i: nat, m: Message) {
    && i < t.received <= |t.exec.sent| && t.exec.sent[i] == m
    && forall k | 0 <= k < i :: t.exec.sent[k].cmd != m.cmd
  }

  ghost predicate AnswersFirst(s: System, r: Response)
    requires WellFormed(s)
  {
    ToAsker(s, r) && exists i: nat :: TellsAt(NetOf(s, r.cause.cmd.ref), i, r.cause)
  }

  ghost predicate Outcomes(s: System)
    requires WellFormed(s)
  {
    && (forall n | 0 <= n < |s.nets| :: Narrated(s.nets[n].exec))
    && (forall j | 0 <= j < |s.table.responses| :: AnswersFirst(s, s.table.responses[j]))
  }

  /** Networks only send and receive more. */
  predicate Later(s: System, r: System) {
    && |r.nets| == |s.nets| && s.asked <= r.asked
    && forall n | 0 <= n < |s.nets| ::
         s.nets[n].exec.sent <= r.nets[n].exec.sent && s.nets[n].received <= r.nets[n].received
  }

  lemma AnswersFirstStays(s: System, r: System, a: Response)
    requires WellFormed(s) && WellFormed(r) && Later(s, r) && AnswersFirst(s, a) && ToAsker(r, a)
    ensures AnswersFirst(r, a)
  {
    var k := a.cause.cmd.ref;
    var i: nat :| TellsAt(NetOf(s, k), i, a.cause);
    assert r.asked[k] == s.asked[k];
    assert TellsAt(NetOf(r, k), i, a.cause);
  }

  lemma ArrivedIsReport(t: Net, k: nat, c: Command)
    requires k < t.received <= |t.exec.sent| && X.Reports(Arrived(t), c) == 0
    ensures t.exec.sent[k].cmd != c
  {
    assert Arrived(t)[k] == t.exec.sent[k];
    MessageIsReport(Arrived(t), k);
  }

  /** A message that answers a request is the first about its command. */
  lemma ReceivedIsFirst(s: System, n: nat, convertible: bool)
    requires Inv(s) && Enabled(s, Receive(n, convertible))
    requires var m := s.nets[n].exec.sent[s.nets[n].received]; m.cmd.IsRpc() && m.cmd.commandId in s.table.pending
    ensures var m := s.nets[n].exec.sent[s.nets[n].received];
      TellsAt(s.nets[n].(received := s.nets[n].received + 1), s.nets[n].received, m)
  {
    var t := s.nets[n];
    var m := t.exec.sent[t.received];
    var k := m.cmd.ref;
    MessageMeetsItsRequest(s, n, t.received);
    assert Settled(s, k) && Named(s);
    hide Inv;
    assert s.asked[k].id == m.cmd.commandId && Pending(s, k) && NetOf(s, k) == t;
    forall i | 0 <= i < t.received ensures t.exec.sent[i].cmd != m.cmd { ArrivedIsReport(t, i, m.cmd); }
  }

  // ------------------------------------------------------------------ every step keeps it

  lemma ReceiveIsLater(s: System, n: nat, convertible: bool)
    requires Enabled(s, Receive(n, convertible))
    ensures var r := Apply(s, Receive(n, convertible)); Later(s, r) && WellFormed(r) && r.asked == s.asked
  {
    hide Answered;
  }

  lemma ReceiveAnswersFirst(s: System, n: nat, convertible: bool)
    requires Inv(s) && Enabled(s, Receive(n, convertible))
    requires var m := s.nets[n].exec.sent[s.nets[n].received]; m.cmd.IsRpc() && m.cmd.commandId in s.table.pending
    ensures var r := Apply(s, Receive(n, convertible));
      var m := s.nets[n].exec.sent[s.nets[n].received];
      WellFormed(r) && m.cmd.ref < |r.asked| && TellsAt(NetOf(r, m.cmd.ref), s.nets[n].received, m)
  {
    hide Inv, Answered, TellsAt;
    ReceiveIsLater(s, n, convertible);
    ReceivedIsFirst(s, n, convertible);
    MessageMeetsItsRequest(s, n, s.nets[n].received);
  }

  /** The responses after a message: those there were, and maybe one that the message caused. */
  lemma AnswersAfterMessage(s: System, r: System, m: Message, i: nat)
    requires WellFormed(s) && WellFormed(r) && Later(s, r) && AllToAskers(r)
    requires s.table.responses <= r.table.responses
    requires forall j | 0 <= j < |s.table.responses| :: AnswersFirst(s, s.table.responses[j])
    requires |r.table.responses| == |s.table.responses| ||
      (|r.table.responses| == |s.table.responses| + 1 && r.table.responses[|s.table.responses|].cause == m &&
       m.cmd.ref < |r.asked| && TellsAt(NetOf(r, m.cmd.ref), i, m))
    ensures forall j | 0 <= j < |r.table.responses| :: AnswersFirst(r, r.table.responses[j])
  {
    hide WellFormed, Later, TellsAt;
    forall j | 0 <= j < |r.table.responses| ensures AnswersFirst(r, r.table.responses[j]) {
      assert ToAsker(r, r.table.responses[j]);
      if j < |s.table.responses| { AnswersFirstStays(s, r, s.table.responses[j]); }
    }
  }

  lemma ReceiveKeepsNarrated(s: System, n: nat, convertible: bool)
    requires WellFormed(s) && Enabled(s, Receive(n, convertible)) && Outcomes(s)
    ensures var r := Apply(s, Receive(n, convertible)); forall k | 0 <= k < |r.nets| :: Narrated(r.nets[k].exec)
  {
    hide Narrated, AnswersFirst, Answered, WellFormed;
  }

  lemma ReceiveKeepsOutcomes(s: System, n: nat, convertible: bool)
    requires Inv(s) && Enabled(s, Receive(n, convertible)) && Outcomes(s) && Inv(Apply(s, Receive(n, convertible)))
    ensures Outcomes(Apply(s, Receive(n, convertible)))
  {
    var r := Apply(s, Receive(n, convertible));
    var m := s.nets[n].exec.sent[s.nets[n].received];
    assert AllToAskers(r) && WellFormed(s) && WellFormed(r);
    hide Inv, Narrated, Later, TellsAt, Answered, WellFormed, AllToAskers, AnswersFirst, NetOf;
    ReceiveIsLater(s, n, convertible);
    ReceiveKeepsNarrated(s, n, convertible);
    ResponsesGrow(s.table, m, convertible);
    if m.cmd.IsRpc() && m.cmd.commandId in s.table.pending { ReceiveAnswersFirst(s, n, convertible); }
    AnswersAfterMessage(s, r, m, s.nets[n].received);
  }

  lemma ResponsesGrow(t: Table, m: Message, convertible: bool)
    ensures var r := Answered(t, m, convertible).responses;
      && t.responses <= r
      && (|r| == |t.responses| ||
          (m.cmd.IsRpc() && m.cmd.commandId in t.pending && |r| == |t.responses| + 1 && r[|t.responses|].cause == m))
  {
  }

  lemma LaterKeepsAnswers(s: System, r: System)
    requires WellFormed(s) && WellFormed(r) && Later(s, r) && AllToAskers(r) && r.table.responses == s.table.responses
    requires forall j | 0 <= j < |s.table.responses| :: AnswersFirst(s, s.table.responses[j])
    ensures forall j | 0 <= j < |r.table.responses| :: AnswersFirst(r, r.table.responses[j])
  {
    hide WellFormed, Later;
    forall j | 0 <= j < |r.table.responses| ensures AnswersFirst(r, r.table.responses[j]) {
      assert ToAsker(r, r.table.responses[j]);
      AnswersFirstStays(s, r, s.table.responses[j]);
    }
  }

  lemma CallKeepsNarrated(s: System, n: nat, call: R.Call, k: nat, r: System)
    requires Inv(s) && CallStep(s, n, call, k, r) && Outcomes(s) && WellFormed(r)
    ensures forall m | 0 <= m < |r.nets| :: Narrated(r.nets[m].exec)
    ensures n < |s.nets| == |r.nets| && r.nets == s.nets[n := r.nets[n]] && r.asked == s.asked
    ensures r.nets[n].received == s.nets[n].received && s.nets[n].exec.sent <= r.nets[n].exec.sent
    ensures r.table == s.table
  {
    assert X.Inv(s.nets[n].exec);
    hide Inv, R.Apply, R.Allowed, X.Inv, Narrated, KeysOk, AnswersFirst;
    CallNarrates(s.nets[n].exec, call);
    R.CallAdds(s.nets[n].exec, call);
    CallKeepsShape(s, n, call, k, r);
  }

  lemma CallKeepsOutcomes(s: System, n: nat, call: R.Call, k: nat, r: System)
    requires Inv(s) && CallStep(s, n, call, k, r) && Outcomes(s) && Inv(r)
    ensures Outcomes(r)
  {
    assert AllToAskers(r) && WellFormed(r) && WellFormed(s);
    hide Inv, CallStep, Narrated, AnswersFirst, AllToAskers, WellFormed, Later;
    CallKeepsNarrated(s, n, call, k, r);
    CallIsLater(s, n, r);
    LaterKeepsAnswers(s, r);
  }

  lemma CallIsLater(s: System, n: nat, r: System)
    requires n < |s.nets| == |r.nets| && r.nets == s.nets[n := r.nets[n]] && r.asked == s.asked
    requires r.nets[n].received == s.nets[n].received && s.nets[n].exec.sent <= r.nets[n].exec.sent
    ensures Later(s, r)
  {
  }

  /** Requests and disconnects leave the networks alone. */
  lemma SameNetsKeepOutcomes(s: System, r: System)
    requires WellFormed(s) && Outcomes(s) && Inv(r) && r.nets == s.nets && s.asked <= r.asked
    requires r.table.responses == s.table.responses
    ensures Outcomes(r)
  {
    assert AllToAskers(r) && WellFormed(r) && Later(s, r);
    hide Inv, Narrated, AnswersFirst, AllToAskers, Later;
    LaterKeepsAnswers(s, r);
  }

  lemma StepKeepsOutcomes(s: System, l: Label)
    requires Inv(s) && Enabled(s, l) && Outcomes(s)
    ensures Inv(Apply(s, l)) && Outcomes(Apply(s, l))
  {
    hide Inv, Outcomes;
    StepKeepsInv(s, l);
    match l
    case Ask(q, c, net) => SameNetsKeepOutcomes(s, Apply(s, l));
    case Deliver(k) => CallKeepsOutcomes(s, s.asked[k].net, CallFor(s.asked[k].cmd), k, Apply(s, l));
    case Modbus(n, call) => CallKeepsOutcomes(s, n, call, 0, Apply(s, l));
    case Receive(n, convertible) => ReceiveKeepsOutcomes(s, n, convertible);
    case Disconnect => SameNetsKeepOutcomes(s, Apply(s, l));
  }

  lemma {:induction false} RunKeepsOutcomes(run: seq<System>, labels: seq<Label>, i: nat)
    requires IsRun(run, labels) && i < |run|
    ensures Inv(run[i]) && Outcomes(run[i])
  {
    if i == 0 {
      FreshKeepsInv(run[0]);
      hide Inv;
    } else {
      RunKeepsOutcomes(run, labels, i - 1);
      hide Inv, Enabled, Apply, Outcomes;
      assert StepsTo(run[i - 1], labels[i - 1], run[i - 1 + 1]);
      StepKeepsOutcomes(run[i - 1], labels[i - 1]);
    }
  }

  // ------------------------------------------------------------------ what a response says

  /** The response is about the bus use that caused it: for a write the first of its command, and an error
      exactly if that one failed; for a read the last, and an error exactly if that one failed or its values
      could not be converted. */
  ghost predicate SaysOfItsCommand(s: System, r: Response)
    requires WellFormed(s) && ToAsker(s, r)
  {
    var c, u := r.cause.cmd, r.cause.use;
    var exec := NetOf(s, c.ref).exec;
    && u < |exec.bus| && exec.bus[u].cmd == c
    && (if c.isWrite then IsFirstUse(exec.bus, u) && (r.failed <==> !exec.bus[u].ok)
        else && IsLastUse(exec.bus, u) && c in exec.finished
             && (r.failed <==> !exec.bus[u].ok || !r.convertible))
  }

  lemma MessageSays(e: Exec, i: nat)
    requires X.Inv(e) && Narrated(e) && i < |e.sent| && e.sent[i].cmd.IsRpc()
    requires forall k | 0 <= k < i :: e.sent[k].cmd != e.sent[i].cmd
    ensures var m := e.sent[i];
      && X.Truthful(e.bus, m)
      && (if m.cmd.isWrite then IsFirstUse(e.bus, m.use) else IsLastUse(e.bus, m.use) && m.cmd in e.finished)
  {
    var m := e.sent[i];
    assert X.Truthful(e.bus, m) && X.ReportsOk(e, m.cmd);
    MessageIsReport(e.sent, i);
    if m.cmd.isWrite { FirstReportIsFirstUse(e, i); }
  }

  lemma ResponseSays(s: System, j: nat)
    requires Inv(s) && Outcomes(s) && j < |s.table.responses|
    ensures ToAsker(s, s.table.responses[j]) && SaysOfItsCommand(s, s.table.responses[j])
  {
    var r := s.table.responses[j];
    assert AnswersFirst(s, r) && Named(s);
    var k := r.cause.cmd.ref;
    var i: nat :| TellsAt(NetOf(s, k), i, r.cause);
    assert X.Inv(NetOf(s, k).exec) && Narrated(NetOf(s, k).exec);
    assert s.asked[k].request.isWrite == r.cause.cmd.isWrite && r.cause.cmd.IsRpc();
    hide Inv, X.Inv, Narrated, Outcomes;
    MessageSays(NetOf(s, k).exec, i);
  }

  /** Over every run a response says of a write how its first attempt went, and of a read how it ended. */
  lemma AnswerTellsOutcome(run: seq<System>, labels: seq<Label>, i: nat, j: nat)
    requires IsRun(run, labels) && i < |run| && j < |run[i].table.responses|
    ensures WellFormed(run[i]) && ToAsker(run[i], run[i].table.responses[j])
    ensures SaysOfItsCommand(run[i], run[i].table.responses[j])
  {
    RunKeepsOutcomes(run, labels, i);
    assert WellFormed(run[i]);
    hide Inv, Outcomes, IsRun;
    ResponseSays(run[i], j);
  }

  /** The response agrees with how the command ended: it tells of its last bus use. */
  ghost predicate Agrees(s: System, r: Response)
    requires WellFormed(s) && ToAsker(s, r)
  {
    var exec := NetOf(s, r.cause.cmd.ref).exec;
    && IsLastUse(exec.bus, r.cause.use) && exec.bus[r.cause.use].cmd == r.cause.cmd
    && (r.failed <==> !exec.bus[r.cause.use].ok || (!r.cause.cmd.isWrite && !r.convertible))
  }

  /** For reads, and for writes that are not retried, the response and the end of the command agree. */
  lemma AnswerAgrees(run: seq<System>, labels: seq<Label>, i: nat, j: nat)
    requires IsRun(run, labels) && i < |run| && j < |run[i].table.responses|
    requires var c := run[i].table.responses[j].cause.cmd; !c.isWrite || c.maxWrite == 0
    ensures WellFormed(run[i]) && ToAsker(run[i], run[i].table.responses[j])
    ensures Agrees(run[i], run[i].table.responses[j])
  {
    AnswerTellsOutcome(run, labels, i, j);
    RunKeepsInv(run, labels, i);
    hide IsRun;
    var r := run[i].table.responses[j];
    var exec := NetOf(run[i], r.cause.cmd.ref).exec;
    assert X.Inv(exec);
    hide Inv;
    if r.cause.cmd.isWrite { SingleUse(exec, r.cause.use); }
  }

  // ------------------------------------------------------------------ a retried write

  function Retried(maxWrite: nat): Command {
    Command(0, true, 1, -1, 0, 0, 0, maxWrite)
  }

  const FAILS := Outcome(0, 0, 0, false, false)
  const WORKS := Outcome(0, 0, 0, true, false)
  const ASKED := Request(0, "", [], true, 1)

  /** The executor with the write in the slot, after its first attempt failed and after the second worked. */
  function Waiting(c: Command): Exec {
    R.Fresh(0).(waiting := Some(c), commandsLeft := WRITE_BATCH_SIZE, writesQueued := 1, accepted := [c])
  }

  function Failing(c: Command): Exec
    requires 0 < c.maxWrite
  {
    Waiting(c).(maxWrite := c.maxWrite, writeRetry := c.maxWrite - 1, last := Some(c),
                sent := [Message(WriteFailed, c, 0)], bus := [BusEvent(c, 0, 0, false, 0)])
  }

  function Working(c: Command): Exec
    requires 0 < c.maxWrite
  {
    Failing(c).(writeRetry := c.maxWrite, waiting := None, writesQueued := 0, commandsLeft := WRITE_BATCH_SIZE - 1,
                finished := [c], sent := [Message(WriteFailed, c, 0), Message(Values, c, 1)],
                bus := [BusEvent(c, 0, 0, false, 0), BusEvent(c, 0, 0, true, 0)])
  }

  lemma FirstAttempt(maxWrite: nat)
    requires 0 < maxWrite
    ensures var c := Retried(maxWrite);
      && AddWriteCommand(R.Fresh(0), c) == Waiting(c)
      && KeysOk(Waiting(c)) && !AllDone(Waiting(c)) && ExecuteNext(Waiting(c), FAILS).0 == Failing(c)
  {
    var c := Retried(maxWrite);
    var e := Waiting(c);
    assert Choose(e) == e && !MustWait(e, 0);
    assert e.sent + [Message(WriteFailed, c, 0)] == [Message(WriteFailed, c, 0)];
    assert e.bus + [BusEvent(c, 0, 0, false, 0)] == [BusEvent(c, 0, 0, false, 0)];
    assert Send(e, FAILS) == Failing(c);
  }

  lemma SecondAttempt(maxWrite: nat)
    requires 0 < maxWrite
    ensures var c := Retried(maxWrite);
      KeysOk(Failing(c)) && !AllDone(Failing(c)) && ExecuteNext(Failing(c), WORKS).0 == Working(c)
  {
    var c := Retried(maxWrite);
    var e := Failing(c);
    assert Choose(e) == e && !MustWait(e, 0);
    assert e.sent + [Message(Values, c, 1)] == Working(c).sent;
    assert e.bus + [BusEvent(c, 0, 0, true, 0)] == Working(c).bus;
    assert e.finished + [c] == [c];
    assert Send(e, WORKS) == Working(c);
  }

  function RetryLabels(maxWrite: nat): seq<Label> {
    [Ask(ASKED, Retried(maxWrite), 0), Deliver(0), Modbus(0, R.Execute(FAILS)), Receive(0, true),
     Modbus(0, R.Execute(WORKS)), Receive(0, true)]
  }

  function RetryRun(maxWrite: nat): seq<System>
    requires 0 < maxWrite
  {
    var c := Retried(maxWrite);
    var pending := Table(-1, map[-1 := ASKED], []);
    var answered := Table(-1, map[], [ResponseTo(ASKED, Message(WriteFailed, c, 0), true)]);
    var asked := [Asked(ASKED, -1, c, 0)];
    [System(EMPTY, [], {}, [Net(R.Fresh(0), 0)], {}),
     System(pending, asked, {}, [Net(R.Fresh(0), 0)], {}),
     System(pending, asked, {0}, [Net(Waiting(c), 0)], {}),
     System(pending, asked, {0}, [Net(Failing(c), 0)], {}),
     System(answered, asked, {0}, [Net(Failing(c), 1)], {}),
     System(answered, asked, {0}, [Net(Working(c), 1)], {}),
     System(answered, asked, {0}, [Net(Working(c), 2)], {})]
  }

  lemma RetryAsks(maxWrite: nat)
    requires 0 < maxWrite
    ensures StepsTo(RetryRun(maxWrite)[0], RetryLabels(maxWrite)[0], RetryRun(maxWrite)[1])
  {
    var a := Asked(ASKED, -1, Retried(maxWrite), 0);
    assert [] + [a] == [a];
    hide Failing, Working, Waiting, R.Fresh;
  }

  /** The command of the only request is delivered to the only network. */
  lemma OnlyNetTakes(s: System, e: Exec)
    requires WellFormed(s) && |s.nets| == 1 && |s.asked| == 1 && s.asked[0].net == 0 && s.delivered == {}
    requires var c := s.asked[0].cmd;
      && c.isWrite && c.IsRpc() && c !in s.nets[0].exec.accepted && KeysOk(s.nets[0].exec)
      && AddWriteCommand(s.nets[0].exec, c) == e
    ensures StepsTo(s, Deliver(0), s.(nets := [Net(e, s.nets[0].received)], delivered := {0}))
  {
    hide AddWriteCommand, KeysOk, WellFormed;
    assert s.nets[0 := Net(e, s.nets[0].received)] == [Net(e, s.nets[0].received)];
    assert {} + {0} == {0};
  }

  lemma RetryDelivers(maxWrite: nat)
    requires 0 < maxWrite
    ensures StepsTo(RetryRun(maxWrite)[1], RetryLabels(maxWrite)[1], RetryRun(maxWrite)[2])
  {
    var c := Retried(maxWrite);
    FirstAttempt(maxWrite);
    assert KeysOk(R.Fresh(0)) && c !in R.Fresh(0).accepted;
    hide Failing, Working, AddWriteCommand, Waiting, R.Fresh, KeysOk, ExecuteNext, StepsTo;
    OnlyNetTakes(RetryRun(maxWrite)[1], Waiting(c));
  }

  /** The executor of the only network executes. */
  lemma OnlyNetExecutes(s: System, o: Outcome, e: Exec)
    requires WellFormed(s) && |s.nets| == 1 && KeysOk(s.nets[0].exec) && R.Allowed(s.nets[0].exec, R.Execute(o))
    requires ExecuteNext(s.nets[0].exec, o).0 == e
    ensures StepsTo(s, Modbus(0, R.Execute(o)), s.(nets := [Net(e, s.nets[0].received)]))
  {
    hide ExecuteNext, KeysOk, WellFormed;
    assert s.nets[0 := Net(e, s.nets[0].received)] == [Net(e, s.nets[0].received)];
  }

  lemma RetryAttempts(maxWrite: nat)
    requires 0 < maxWrite
    ensures var run, labels := RetryRun(maxWrite), RetryLabels(maxWrite);
      StepsTo(run[2], labels[2], run[3]) && StepsTo(run[4], labels[4], run[5])
  {
    var c := Retried(maxWrite);
    var run := RetryRun(maxWrite);
    FirstAttempt(maxWrite);
    SecondAttempt(maxWrite);
    assert Waiting(c).lastTime == 0 && Failing(c).lastTime == 0 && |Failing(c).sent| == 1;
    hide ExecuteNext, AllDone, KeysOk, Waiting, Failing, Working, StepsTo;
    OnlyNetExecutes(run[2], FAILS, Failing(c));
    OnlyNetExecutes(run[4], WORKS, Working(c));
  }

  lemma RetryReceives(maxWrite: nat)
    requires 0 < maxWrite
    ensures var run, labels := RetryRun(maxWrite), RetryLabels(maxWrite);
      StepsTo(run[3], labels[3], run[4]) && StepsTo(run[5], labels[5], run[6])
  {
    var c := Retried(maxWrite);
    assert map[-1 := ASKED] - {-1} == map[];
    var response := ResponseTo(ASKED, Message(WriteFailed, c, 0), true);
    assert [] + [response] == [response];
    assert [Net(Failing(c), 0)][0 := Net(Failing(c), 1)] == [Net(Failing(c), 1)];
    assert [Net(Working(c), 1)][0 := Net(Working(c), 2)] == [Net(Working(c), 2)];
  }

  /** For every positive number of retries there is a run in which a write fails once and then succeeds, and
      its only response, an error, does not agree with how it ended. */
  lemma RetriedWriteDisagrees(maxWrite: nat)
    requires 0 < maxWrite
    ensures var run := RetryRun(maxWrite);
      && IsRun(run, RetryLabels(maxWrite)) && run[6].asked[0].cmd.maxWrite == maxWrite
      && WellFormed(run[6]) && Over(run[6], 0) && run[6].nets[0].exec.bus[1].ok && IsLastUse(run[6].nets[0].exec.bus, 1)
      && |run[6].table.responses| == 1 && run[6].table.responses[0].failed
      && ToAsker(run[6], run[6].table.responses[0]) && !Agrees(run[6], run[6].table.responses[0])
  {
    var run := RetryRun(maxWrite);
    assert OnTheWay(run[6].nets[0]) == [];
    RetryIsRun(maxWrite);
    hide IsRun;
  }

  lemma RetryIsRun(maxWrite: nat)
    requires 0 < maxWrite
    ensures IsRun(RetryRun(maxWrite), RetryLabels(maxWrite))
  {
    var run, labels := RetryRun(maxWrite), RetryLabels(maxWrite);
    hide StepsTo;
    RetryAsks(maxWrite);
    RetryDelivers(maxWrite);
    RetryAttempts(maxWrite);
    RetryReceives(maxWrite);
    forall i | 0 <= i < |labels| ensures StepsTo(run[i], labels[i], run[i + 1]) {
      if i == 0 {} else if i == 1 {} else if i == 2 {} else if i == 3 {} else if i == 4 {} else {}
    }
  }
}
