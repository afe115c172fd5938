/** Which bus uses the executor's messages tell about: for a write every one, for an RPC read the last. */
module ExecutorReports {
  import opened Options
  import opened RequestQueues
  import opened Executor
  import opened ExecutorInvariants
  import opened ExecutorRuns

  predicate IsFirstUse(bus: seq<BusEvent>, u: nat) {
    u < |bus| && forall v | 0 <= v < u :: bus[v].cmd != bus[u].cmd
  }

  predicate IsLastUse(bus: seq<BusEvent>, u: nat) {
    u < |bus| && forall v | u < v < |bus| :: bus[v].cmd != bus[u].cmd
  }

  predicate ReportedAt(sent: seq<Message>, u: nat) {
    exists i | 0 <= i < |sent| :: sent[i].use == u
  }

  /** Messages come in the order of the bus. */
  predicate Increasing(sent: seq<Message>) {
    forall i, j | 0 <= i < j < |sent| :: sent[i].use < sent[j].use
  }

  ghost predicate Narrated(e: Exec) {
    && Increasing(e.sent)
    && (forall u | 0 <= u < |e.bus| && e.bus[u].cmd.isWrite :: ReportedAt(e.sent, u))
    && (forall i | 0 <= i < |e.sent| && e.sent[i].cmd.IsRpc() && !e.sent[i].cmd.isWrite ::
          IsLastUse(e.bus, e.sent[i].use))
  }

  lemma {:induction false} MessageIsReport(sent: seq<Message>, i: nat)
    requires i < |sent|
    ensures 1 <= Reports(sent, sent[i].cmd)
  {
    if i < |sent| - 1 { MessageIsReport(sent[..|sent| - 1], i); }
  }

  /** An RPC read that was reported is not the command in the slot. */
  lemma ReportedIsNotWaiting(e: Exec, i: nat)
    requires ExecutorInvariants.Inv(e) && e.waiting.Some?
    requires i < |e.sent| && e.sent[i].cmd.IsRpc() && !e.sent[i].cmd.isWrite
    ensures e.waiting.value != e.sent[i].cmd
  {
    MessageIsReport(e.sent, i);
    assert ReportsOk(e, e.sent[i].cmd);
    if e.waiting.value.OneShot() { WaitingIsPending(e); }
    hide Placed, Silent, WritesOrdered, Tracked;
  }

  lemma SendReportsWrites(e: Exec, o: Outcome)
    requires e.waiting.Some? && Honest(e) && Narrated(e)
    ensures var r := Send(e, o);
      Increasing(r.sent) && forall u | 0 <= u < |r.bus| && r.bus[u].cmd.isWrite :: ReportedAt(r.sent, u)
  {
    var c := e.waiting.value;
    var r := Send(e, o);
    SendFields(e, o);
    hide Send, WritesOf, LoadRetries, Retries;
    forall i | 0 <= i < |e.sent| ensures e.sent[i].use < |e.bus| { assert Truthful(e.bus, e.sent[i]); }
    forall u | 0 <= u < |r.bus| && r.bus[u].cmd.isWrite ensures ReportedAt(r.sent, u) {
      if u < |e.bus| {
        assert ReportedAt(e.sent, u);
        var i :| 0 <= i < |e.sent| && e.sent[i].use == u;
        assert r.sent[i] == e.sent[i];
      } else {
        assert r.sent[|e.sent|].use == u;
      }
    }
  }

  lemma LastUseStays(bus: seq<BusEvent>, b: BusEvent, u: nat)
    requires IsLastUse(bus, u) && b.cmd != bus[u].cmd
    ensures IsLastUse(bus + [b], u)
  {
  }

  lemma TruthfulUse(bus: seq<BusEvent>, m: Message)
    requires Truthful(bus, m)
    ensures m.use < |bus| && bus[m.use].cmd == m.cmd
  {
  }

  lemma SendClosesReads(e: Exec, o: Outcome, i: nat)
    requires ExecutorInvariants.Inv(e) && e.waiting.Some? && Narrated(e) && i < |Send(e, o).sent|
    requires Send(e, o).sent[i].cmd.IsRpc() && !Send(e, o).sent[i].cmd.isWrite
    ensures IsLastUse(Send(e, o).bus, Send(e, o).sent[i].use)
  {
    var c := e.waiting.value;
    var r := Send(e, o);
    var b := BusEvent(c, o.start, o.end, o.ok, |WritesOf(e.finished, c.slave)|);
    SendFields(e, o);
    assert r.bus == e.bus + [b] && (i < |e.sent| ==> r.sent[i] == e.sent[i]);
    assert |e.sent| <= i ==> r.sent[i].use == |e.bus|;
    assert i < |e.sent| ==> Truthful(e.bus, e.sent[i]) by { assert Honest(e); }
    hide Send, WritesOf, LoadRetries, Retries, Increasing, ExecutorInvariants.Inv, MessagesOf, Truthful;
    if i < |e.sent| {
      TruthfulUse(e.bus, e.sent[i]);
      ReportedIsNotWaiting(e, i);
      LastUseStays(e.bus, b, e.sent[i].use);
    }
  }

  lemma SendNarrates(e: Exec, o: Outcome)
    requires ExecutorInvariants.Inv(e) && e.waiting.Some? && Narrated(e)
    ensures Narrated(Send(e, o))
  {
    SendReportsWrites(e, o);
    var r := Send(e, o);
    hide Send, ExecutorInvariants.Inv;
    forall i | 0 <= i < |r.sent| && r.sent[i].cmd.IsRpc() && !r.sent[i].cmd.isWrite
      ensures IsLastUse(r.bus, r.sent[i].use)
    {
      SendClosesReads(e, o, i);
    }
  }

  lemma CallNarrates(e: Exec, call: Call)
    requires ExecutorInvariants.Inv(e) && Allowed(e, call) && Narrated(e)
    ensures Narrated(Apply(e, call))
  {
    match call
    case Read(c) => assert Apply(e, call).sent == e.sent && Apply(e, call).bus == e.bus;
    case Write(c) => assert Apply(e, call).sent == e.sent && Apply(e, call).bus == e.bus;
    case Polls(regs, initialPoll, now) =>
      AddPollListPlaced(e, regs, initialPoll, now);
      hide WithPollList;
    case Execute(o) => ExecuteNarrates(e, o);
  }

  lemma ExecuteNarrates(e: Exec, o: Outcome)
    requires ExecutorInvariants.Inv(e) && !AllDone(e) && Narrated(e)
    ensures Narrated(ExecuteNext(e, o).0)
  {
    ChooseKeepsInv(e);
    ChooseOnlyMoves(e);
    var e1 := Choose(e);
    hide Choose, ExecutorInvariants.Inv, AllDone;
    assert Narrated(e1);
    hide Narrated;
    if e1.waiting.Some? && MustWait(e1, o.now) {
    } else if e1.waiting.Some? {
      SendNarrates(e1, o);
      EndKeepsNarrated(Send(e1, o));
    } else {
      EndKeepsNarrated(e1);
    }
  }

  lemma EndKeepsNarrated(e: Exec)
    requires Narrated(e)
    ensures Narrated(EndInitialPoll(e))
  {
    hide PollDone;
  }

  /** The first message about a write tells of its first use of the bus. */
  lemma FirstReportIsFirstUse(e: Exec, i: nat)
    requires Honest(e) && Narrated(e) && i < |e.sent| && e.sent[i].cmd.isWrite
    requires forall k | 0 <= k < i :: e.sent[k].cmd != e.sent[i].cmd
    ensures IsFirstUse(e.bus, e.sent[i].use)
  {
    assert Truthful(e.bus, e.sent[i]);
    forall v | 0 <= v < e.sent[i].use ensures e.bus[v].cmd != e.sent[i].cmd {
      if e.bus[v].cmd.isWrite {
        assert ReportedAt(e.sent, v);
        var k :| 0 <= k < |e.sent| && e.sent[k].use == v;
        assert Truthful(e.bus, e.sent[k]) && k < i;
      }
    }
  }

  lemma {:induction false} TwoUsesTwoAttempts(bus: seq<BusEvent>, u: nat, v: nat)
    requires u < v < |bus|
    ensures bus[u].cmd == bus[v].cmd ==> 2 <= Attempts(bus, bus[u].cmd)
  {
    var n := |bus| - 1;
    if v < n {
      TwoUsesTwoAttempts(bus[..n], u, v);
    } else {
      UseIsAttempt(bus[..n], u);
    }
  }

  lemma {:induction false} UseIsAttempt(bus: seq<BusEvent>, u: nat)
    requires u < |bus|
    ensures 1 <= Attempts(bus, bus[u].cmd)
  {
    if u < |bus| - 1 { UseIsAttempt(bus[..|bus| - 1], u); }
  }

  /** A write that may not be retried uses the bus once. */
  lemma SingleUse(e: Exec, u: nat)
    requires Tracked(e) && u < |e.bus| && e.bus[u].cmd.isWrite && e.bus[u].cmd.maxWrite == 0
    ensures IsLastUse(e.bus, u)
  {
    assert AttemptsOk(e, e.bus[u].cmd);
    forall v | u < v < |e.bus| ensures e.bus[v].cmd != e.bus[u].cmd { TwoUsesTwoAttempts(e.bus, u, v); }
  }
}
