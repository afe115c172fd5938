/** RPC requests: the table of pending requests of the MQTT client, and the whole exchange from the request
    through the modbus executor to the response. */
module Rpc {
  import opened RequestQueues
  import opened Executor
  import opened ExecutorInvariants
  import opened ExecutorRuns

  const INT_MIN: int := -0x8000_0000

  /** What is remembered of a request. `ref` is the identity of the request. */
  datatype Request = Request(ref: nat, topic: string, correlation: seq<bv8>, isWrite: bool, slave: int)

  /** A response; `cause` is the modbus message it answers with, and `convertible` whether its values could
      be converted. */
  datatype Response = Response(topic: string, correlation: seq<bv8>, failed: bool, cause: Message, convertible: bool)

  datatype Table = Table(next: int, pending: map<int, Request>, responses: seq<Response>)

  const EMPTY := Table(0, map[], [])

  function NextId(next: int): int {
    (if next == INT_MIN then 0 else next) - 1
  }

  function Registered(t: Table, q: Request): Table {
    t.(next := NextId(t.next), pending := t.pending[NextId(t.next) := q])
  }

  /** The response to a request on a modbus message. Values that were read but cannot be converted are
      answered with an error; a write is answered with the values written, unconverted. */
  function ResponseTo(q: Request, m: Message, convertible: bool): Response {
    Response(q.topic, q.correlation, m.kind != Values || (!q.isWrite && !convertible), m, convertible)
  }

  /** A message of the modbus thread answers the pending request with its id, if there is one. */
  function Answered(t: Table, m: Message, convertible: bool): Table {
    var id := m.cmd.commandId;
    if !m.cmd.IsRpc() || id !in t.pending then t
    else
      t.(pending := t.pending - {id}, responses := t.responses + [ResponseTo(t.pending[id], m, convertible)])
  }

  class RpcTable {
    var next: int
    var pending: map<int, Request>
    var responses: seq<Response>

    ghost function State(): Table
      reads this
    {
      Table(next, pending, responses)
    }

    constructor ()
      ensures State() == EMPTY
    {
      next, pending, responses := 0, map[], [];
    }

    /** The end of a valid request: it gets an id. */
    method Register(q: Request) returns (id: int)
      modifies this`next, this`pending
      ensures State() == Registered(old(State()), q) && id == next
    {
      if next == INT_MIN {
        next := 0;
      }
      next := next - 1;
      id := next;
      pending := pending[id := q];
    }

    method PublishResponse(m: Message, convertible: bool)
      requires m.kind == Values && m.cmd.IsRpc()
      modifies this`pending, this`responses
      ensures State() == Answered(old(State()), m, convertible)
      ensures m.cmd.commandId in old(pending) ==>
        var q := old(pending)[m.cmd.commandId];
        && m.cmd.commandId !in pending && |responses| == |old(responses)| + 1
        && var r := responses[|old(responses)|];
           r.topic == q.topic && r.correlation == q.correlation && (r.failed <==> !q.isWrite && !convertible)
    {
      if m.cmd.commandId in pending {
        var q := pending[m.cmd.commandId];
        pending := pending - {m.cmd.commandId};
        responses := responses + [Response(q.topic, q.correlation, !q.isWrite && !convertible, m, convertible)];
      }
    }

    method PublishError(m: Message)
      requires m.kind != Values && m.cmd.IsRpc()
      modifies this`pending, this`responses
      ensures State() == Answered(old(State()), m, true)
      ensures m.cmd.commandId in old(pending) ==>
        var q := old(pending)[m.cmd.commandId];
        && m.cmd.commandId !in pending && |responses| == |old(responses)| + 1
        && var r := responses[|old(responses)|];
           r.topic == q.topic && r.correlation == q.correlation && r.failed
    {
      if m.cmd.commandId in pending {
        var q := pending[m.cmd.commandId];
        pending := pending - {m.cmd.commandId};
        responses := responses + [Response(q.topic, q.correlation, true, m, true)];
      }
    }

    method OnDisconnect()
      modifies this`pending
      ensures State() == old(State()).(pending := map[])
    {
      pending := map[];
    }
  }

  // ------------------------------------------------------------------ the whole exchange

  /** An accepted request with its id, the command made from it and the network it is for. */
  datatype Asked = Asked(request: Request, id: int, cmd: Command, net: nat)

  /** A modbus network: its executor, whose messages from `received` on are still on their way back. */
  datatype Net = Net(exec: Exec, received: nat)

  /** The MQTT client, the modbus networks and the channels between them. The commands of `asked` that are
      not `delivered` are still on their way to their network. `lost` are the requests forgotten by a
      disconnect. */
  datatype System = System(table: Table, asked: seq<Asked>, delivered: set<nat>, nets: seq<Net>, lost: set<nat>)

  predicate IsFresh(s: System) {
    && s.table == EMPTY && s.asked == [] && s.delivered == {} && s.lost == {}
    && forall n | 0 <= n < |s.nets| :: s.nets[n] == Net(ExecutorRuns.Fresh(s.nets[n].exec.lastTime), 0)
  }

  datatype Label =
    | Ask(request: Request, cmd: Command, net: nat)
    | Deliver(k: nat)
    | Modbus(net: nat, call: Call)
    | Receive(net: nat, convertible: bool)
    | Disconnect

  predicate WellFormed(s: System) {
    && (forall k | 0 <= k < |s.asked| :: s.asked[k].net < |s.nets|)
    && (forall n | 0 <= n < |s.nets| :: s.nets[n].received <= |s.nets[n].exec.sent|)
  }

  function Arrived(t: Net): seq<Message>
    requires t.received <= |t.exec.sent|
  {
    t.exec.sent[..t.received]
  }

  function OnTheWay(t: Net): seq<Message>
    requires t.received <= |t.exec.sent|
  {
    t.exec.sent[t.received..]
  }

  /** The network of the `k`-th request. */
  function NetOf(s: System, k: nat): Net
    requires WellFormed(s) && k < |s.asked|
  {
    s.nets[s.asked[k].net]
  }

  /** The command of the `k`-th request is done and all its messages have arrived. */
  predicate Over(s: System, k: nat)
    requires WellFormed(s) && k < |s.asked|
  {
    s.asked[k].cmd in NetOf(s, k).exec.finished && Reports(OnTheWay(NetOf(s, k)), s.asked[k].cmd) == 0
  }

  /** No earlier request with this id is still on its way. */
  predicate Unused(s: System, id: int)
    requires WellFormed(s)
  {
    forall k | 0 <= k < |s.asked| && s.asked[k].id == id :: Over(s, k)
  }

  /** Commands may be delivered in any order, which includes the order of the channel. */
  ghost predicate Enabled(s: System, l: Label) {
    && WellFormed(s)
    && match l
       case Ask(q, c, net) =>
         && q.ref == |s.asked| && c.ref == |s.asked| && c.commandId == NextId(s.table.next) && c.isWrite == q.isWrite
         && c.commandId < 0 && Unused(s, c.commandId) && net < |s.nets|
       case Deliver(k) =>
         && k < |s.asked| && k !in s.delivered && KeysOk(NetOf(s, k).exec)
         && s.asked[k].cmd.IsRpc() && s.asked[k].cmd !in NetOf(s, k).exec.accepted
       case Modbus(net, call) =>
         && net < |s.nets| && KeysOk(s.nets[net].exec) && Allowed(s.nets[net].exec, call)
         && !call.Read? && (call.Write? ==> !call.c.IsRpc())
       case Receive(net, _) => net < |s.nets| && s.nets[net].received < |s.nets[net].exec.sent|
       case Disconnect => true
  }

  function CallFor(c: Command): Call {
    if c.isWrite then Write(c) else Read(c)
  }

  ghost function Called(t: Net, call: Call): Net
    requires KeysOk(t.exec) && Allowed(t.exec, call)
  {
    t.(exec := ExecutorRuns.Apply(t.exec, call))
  }

  ghost function Apply(s: System, l: Label): System
    requires Enabled(s, l)
  {
    match l
    case Ask(q, c, net) => s.(table := Registered(s.table, q), asked := s.asked + [Asked(q, c.commandId, c, net)])
    case Deliver(k) =>
      var n := s.asked[k].net;
      s.(nets := s.nets[n := Called(s.nets[n], CallFor(s.asked[k].cmd))], delivered := s.delivered + {k})
    case Modbus(n, call) => s.(nets := s.nets[n := Called(s.nets[n], call)])
    case Receive(n, convertible) =>
      s.(table := Answered(s.table, s.nets[n].exec.sent[s.nets[n].received], convertible),
         nets := s.nets[n := s.nets[n].(received := s.nets[n].received + 1)])
    case Disconnect =>
      s.(table := s.table.(pending := map[]), lost := s.lost + set k | 0 <= k < |s.asked| && Pending(s, k))
  }

  predicate WaitsIn(t: Table, a: Asked) {
    a.id in t.pending && t.pending[a.id] == a.request
  }

  /** The `k`-th request waits for its response. */
  predicate Pending(s: System, k: nat)
    requires k < |s.asked|
  {
    WaitsIn(s.table, s.asked[k])
  }

  // ------------------------------------------------------------------ counting

  function Answers(responses: seq<Response>, c: Command): nat {
    if responses == [] then 0
    else Answers(responses[..|responses| - 1], c) + if responses[|responses| - 1].cause.cmd == c then 1 else 0
  }

  lemma AnswersAppend(responses: seq<Response>, r: Response, c: Command)
    ensures Answers(responses + [r], c) == Answers(responses, c) + if r.cause.cmd == c then 1 else 0
  {
    assert (responses + [r])[..|responses|] == responses;
  }

  lemma {:induction false} NoAnswers(responses: seq<Response>, c: Command)
    requires forall i | 0 <= i < |responses| :: responses[i].cause.cmd != c
    ensures Answers(responses, c) == 0
  {
    if responses != [] { NoAnswers(responses[..|responses| - 1], c); }
  }

  lemma {:induction false} ReportsConcat(a: seq<Message>, b: seq<Message>, c: Command)
    ensures Reports(a + b, c) == Reports(a, c) + Reports(b, c)
  {
    if b == [] {
      assert a + b == a;
    } else {
      assert (a + b)[..|a + b| - 1] == a + b[..|b| - 1];
      ReportsConcat(a, b[..|b| - 1], c);
    }
  }

  lemma {:induction false} NoReports(sent: seq<Message>, c: Command)
    requires forall i | 0 <= i < |sent| :: sent[i].cmd != c
    ensures Reports(sent, c) == 0
  {
    if sent != [] { NoReports(sent[..|sent| - 1], c); }
  }

  /** Messages split into those received and those on their way. */
  lemma ReportsSplit(sent: seq<Message>, n: nat, c: Command)
    requires n <= |sent|
    ensures Reports(sent, c) == Reports(sent[..n], c) + Reports(sent[n..], c)
  {
    assert sent == sent[..n] + sent[n..];
    ReportsConcat(sent[..n], sent[n..], c);
  }

  // ------------------------------------------------------------------ invariant

  predicate Named(s: System)
    requires WellFormed(s)
  {
    forall k | 0 <= k < |s.asked| ::
      && s.asked[k].cmd.ref == k && s.asked[k].cmd.commandId == s.asked[k].id < 0 && s.asked[k].request.ref == k
      && s.asked[k].request.isWrite == s.asked[k].cmd.isWrite
      && (s.asked[k].cmd in NetOf(s, k).exec.accepted <==> k in s.delivered)
  }

  /** RPC commands of a network come from requests for it. */
  ghost predicate Known(s: System, n: nat)
    requires n < |s.nets|
  {
    forall c | c in s.nets[n].exec.accepted && c.IsRpc() ::
      c.ref < |s.asked| && s.asked[c.ref].cmd == c && s.asked[c.ref].net == n
  }

  predicate TableOk(s: System) {
    forall id | id in s.table.pending ::
      var k := s.table.pending[id].ref; k < |s.asked| && s.asked[k].id == id && Pending(s, k)
  }

  predicate Distinct(s: System)
    requires WellFormed(s)
  {
    forall j, k | 0 <= j < k < |s.asked| && s.asked[j].id == s.asked[k].id :: Over(s, j)
  }

  /** The `k`-th request is waiting and none of its messages has arrived, or lost, or answered once. */
  predicate Settled(s: System, k: nat)
    requires WellFormed(s) && k < |s.asked|
  {
    && (Pending(s, k) ==> k !in s.lost && Reports(Arrived(NetOf(s, k)), s.asked[k].cmd) == 0)
    && Answers(s.table.responses, s.asked[k].cmd) == if Pending(s, k) || k in s.lost then 0 else 1
  }

  /** The response goes to the topic and carries the correlation data of the request it answers, and it is
      an error exactly if the message that caused it is a failure or brings a read values that could not be
      converted. */
  predicate ToAsker(s: System, r: Response) {
    && r.cause.cmd.ref < |s.asked| && s.asked[r.cause.cmd.ref].cmd == r.cause.cmd
    && var q := s.asked[r.cause.cmd.ref].request;
       && r.topic == q.topic && r.correlation == q.correlation
       && (r.failed <==> r.cause.kind != Values || (!q.isWrite && !r.convertible))
  }

  ghost predicate ExecsOk(s: System) {
    forall n | 0 <= n < |s.nets| :: ExecutorInvariants.Inv(s.nets[n].exec) && Known(s, n)
  }

  ghost predicate Inv(s: System) {
    && WellFormed(s) && ExecsOk(s) && Named(s) && TableOk(s) && Distinct(s)
    && Bounded(s) && AllSettled(s) && AllToAskers(s)
  }

  predicate Bounded(s: System) {
    (forall k | k in s.lost :: k < |s.asked|) && forall k | k in s.delivered :: k < |s.asked|
  }

  predicate AllSettled(s: System)
    requires WellFormed(s)
  {
    forall k | 0 <= k < |s.asked| :: Settled(s, k)
  }

  predicate AllToAskers(s: System) {
    forall i | 0 <= i < |s.table.responses| :: ToAsker(s, s.table.responses[i])
  }

  // ------------------------------------------------------------------ a new request

  /** A request whose command is over is not pending any more. */
  lemma OverIsNotPending(s: System, k: nat)
    requires Inv(s) && k < |s.asked| && Over(s, k)
    ensures !Pending(s, k)
  {
    var c := s.asked[k].cmd;
    assert Settled(s, k) && ExecutorInvariants.Inv(NetOf(s, k).exec);
    hide Inv;
    FinishedIsReported(NetOf(s, k).exec, c);
    ReportsSplit(NetOf(s, k).exec.sent, NetOf(s, k).received, c);
  }

  lemma NewRequestIsSettled(s: System, q: Request, c: Command, net: nat)
    requires Inv(s) && Enabled(s, Ask(q, c, net))
    ensures Reports(Arrived(s.nets[net]), c) == 0 && Answers(s.table.responses, c) == 0
    ensures c !in s.nets[net].exec.accepted && |s.asked| !in s.lost + s.delivered
  {
    assert Known(s, net) && ExecutorInvariants.Inv(s.nets[net].exec);
    forall i | 0 <= i < |s.table.responses| ensures s.table.responses[i].cause.cmd != c {
      assert ToAsker(s, s.table.responses[i]);
    }
    hide Inv, ExecutorInvariants.Inv;
    NoAnswers(s.table.responses, c);
    UnacceptedUnreported(s.nets[net].exec, c);
    ReportsSplit(s.nets[net].exec.sent, s.nets[net].received, c);
  }

  lemma AskKeepsPending(s: System, q: Request, c: Command, net: nat, k: nat)
    requires Inv(s) && Enabled(s, Ask(q, c, net)) && k < |s.asked|
    ensures Pending(Apply(s, Ask(q, c, net)), k) <==> Pending(s, k)
  {
    if s.asked[k].id == c.commandId { OverIsNotPending(s, k); }
    hide Inv;
  }

  /** The executors are the same and no request is forgotten. */
  lemma SameExecs(s: System, r: System)
    requires ExecsOk(s) && |r.nets| == |s.nets| && s.asked <= r.asked
    requires forall n | 0 <= n < |s.nets| :: r.nets[n].exec == s.nets[n].exec
    ensures ExecsOk(r)
  {
    hide ExecutorInvariants.Inv;
    forall n | 0 <= n < |r.nets| ensures ExecutorInvariants.Inv(r.nets[n].exec) && Known(r, n) {
      assert ExecutorInvariants.Inv(s.nets[n].exec) && Known(s, n);
    }
  }

  lemma AskKeepsDistinct(s: System, q: Request, c: Command, net: nat)
    requires WellFormed(s) && Distinct(s) && Enabled(s, Ask(q, c, net))
    ensures var r := Apply(s, Ask(q, c, net)); WellFormed(r) && Distinct(r)
  {
    var r := Apply(s, Ask(q, c, net));
    forall j, k | 0 <= j < k < |r.asked| && r.asked[j].id == r.asked[k].id ensures Over(r, j) {
      assert Over(s, j);
    }
  }

  lemma AskKeepsNames(s: System, q: Request, c: Command, net: nat)
    requires Inv(s) && Enabled(s, Ask(q, c, net))
    ensures var r := Apply(s, Ask(q, c, net)); WellFormed(r) && Named(r) && ExecsOk(r) && Distinct(r)
  {
    hide ExecsOk, Settled, ToAsker, TableOk, Distinct, Unused, Named;
    NewRequestIsSettled(s, q, c, net);
    AskKeepsDistinct(s, q, c, net);
    SameExecs(s, Apply(s, Ask(q, c, net)));
    AskIsNamed(s, q, c, net);
  }

  lemma AskIsNamed(s: System, q: Request, c: Command, net: nat)
    requires WellFormed(s) && Named(s) && Enabled(s, Ask(q, c, net))
    requires c !in s.nets[net].exec.accepted && |s.asked| !in s.delivered
    ensures var r := Apply(s, Ask(q, c, net)); WellFormed(r) && Named(r)
  {
    hide Unused, Registered;
  }

  lemma AskSettles(s: System, q: Request, c: Command, net: nat, k: nat)
    requires Inv(s) && Enabled(s, Ask(q, c, net)) && k <= |s.asked| && WellFormed(Apply(s, Ask(q, c, net)))
    ensures Settled(Apply(s, Ask(q, c, net)), k)
  {
    if k < |s.asked| {
      assert WellFormed(s) && Settled(s, k) && AllToAskers(s);
      AskKeepsPending(s, q, c, net, k);
      hide Inv, Settled, Pending;
      SameRequestIsSettled(s, Apply(s, Ask(q, c, net)), k);
    } else {
      NewRequestIsSettled(s, q, c, net);
      hide Inv, Reports, Answers;
    }
  }

  lemma SameRequestIsSettled(s: System, r: System, k: nat)
    requires WellFormed(s) && WellFormed(r) && k < |s.asked| <= |r.asked|
    requires r.asked[k] == s.asked[k] && r.nets == s.nets
    requires Settled(s, k) && (Pending(r, k) <==> Pending(s, k)) && r.lost == s.lost
    requires r.table.responses == s.table.responses
    ensures Settled(r, k)
  {
    hide WellFormed, Pending, Reports, Answers;
  }

  lemma AskKeepsAskers(s: System, q: Request, c: Command, net: nat)
    requires Enabled(s, Ask(q, c, net)) && AllToAskers(s) && Bounded(s)
    ensures AllToAskers(Apply(s, Ask(q, c, net))) && Bounded(Apply(s, Ask(q, c, net)))
  {
    var r := Apply(s, Ask(q, c, net));
    hide Unused, WellFormed;
    forall i | 0 <= i < |r.table.responses| ensures ToAsker(r, r.table.responses[i]) {
      assert ToAsker(s, s.table.responses[i]);
    }
  }

  lemma AskKeepsInv(s: System, q: Request, c: Command, net: nat)
    requires Inv(s) && Enabled(s, Ask(q, c, net))
    ensures Inv(Apply(s, Ask(q, c, net)))
  {
    var r := Apply(s, Ask(q, c, net));
    hide WellFormed, ExecsOk, Distinct, Unused, Named, Settled, Bounded, AllToAskers, TableOk;
    AskKeepsNames(s, q, c, net);
    AskKeepsAskers(s, q, c, net);
    AskKeepsTable(s, q, c, net);
    forall k | 0 <= k < |r.asked| ensures Settled(r, k) { AskSettles(s, q, c, net, k); }
  }

  lemma AskKeepsTable(s: System, q: Request, c: Command, net: nat)
    requires Inv(s) && Enabled(s, Ask(q, c, net))
    ensures TableOk(Apply(s, Ask(q, c, net)))
  {
    var r := Apply(s, Ask(q, c, net));
    hide ExecsOk, Distinct, Unused, Named, Settled, ToAsker;
    forall id | id in r.table.pending
      ensures var k := r.table.pending[id].ref; k < |r.asked| && r.asked[k].id == id && Pending(r, k)
    {
      if id != c.commandId {
        var k := s.table.pending[id].ref;
        assert k < |s.asked| && s.asked[k].id == id && Pending(s, k);
      }
    }
  }

  // ------------------------------------------------------------------ an executor moves on

  lemma OverStays(s: System, r: System, n: nat, k: nat)
    requires WellFormed(s) && n < |s.nets| && WellFormed(r) && k < |s.asked| && r.asked == s.asked
    requires |r.nets| == |s.nets| && r.nets == s.nets[n := r.nets[n]] && r.nets[n].received == s.nets[n].received
    requires Adds(s.nets[n].exec, r.nets[n].exec)
    requires s.asked[k].cmd.OneShot() && Over(s, k)
    ensures Over(r, k)
  {
    var c := s.asked[k].cmd;
    if s.asked[k].net == n {
      var a, b := s.nets[n].exec.sent, r.nets[n].exec.sent;
      var more := b[|a|..];
      assert b[s.nets[n].received..] == a[s.nets[n].received..] + more;
      ReportsConcat(a[s.nets[n].received..], more, c);
      NoReports(more, c);
    }
  }

  function AcceptedAfter(e: Exec, call: Call): seq<Command> {
    if call.Read? || call.Write? then e.accepted + [call.c] else e.accepted
  }

  /** The call of an executor; an RPC command that is handed to it is that of the `k`-th request. */
  ghost predicate CallStep(s: System, n: nat, call: Call, k: nat, r: System) {
    && WellFormed(s) && n < |s.nets| && KeysOk(s.nets[n].exec) && Allowed(s.nets[n].exec, call)
    && r == s.(nets := s.nets[n := Called(s.nets[n], call)], delivered := r.delivered)
    && if (call.Read? || call.Write?) && call.c.IsRpc()
       then && k < |s.asked| && call.c == s.asked[k].cmd && s.asked[k].net == n
            && k !in s.delivered && r.delivered == s.delivered + {k}
       else r.delivered == s.delivered
  }

  lemma CallKeepsExecs(s: System, n: nat, call: Call, k: nat, r: System)
    requires Inv(s) && CallStep(s, n, call, k, r)
    ensures Adds(s.nets[n].exec, r.nets[n].exec) && ExecsOk(r)
    ensures r.nets[n].exec.accepted == AcceptedAfter(s.nets[n].exec, call)
  {
    assert ExecutorInvariants.Inv(s.nets[n].exec) && ExecsOk(s) && Named(s);
    hide Inv, ExecsOk, ExecutorRuns.Apply, Allowed, ExecutorInvariants.Inv, Adds, KeysOk;
    CallAdds(s.nets[n].exec, call);
    ApplyKeepsInv(s.nets[n].exec, call);
    OneExecChanges(s, n, call, k, r);
  }

  lemma OneExecChanges(s: System, n: nat, call: Call, k: nat, r: System)
    requires WellFormed(s) && ExecsOk(s) && Named(s) && CallStep(s, n, call, k, r)
    requires ExecutorInvariants.Inv(r.nets[n].exec)
    requires r.nets[n].exec.accepted == AcceptedAfter(s.nets[n].exec, call)
    ensures ExecsOk(r)
  {
    hide ExecutorRuns.Apply, Allowed, ExecutorInvariants.Inv, KeysOk;
    forall i | 0 <= i < |r.nets| ensures ExecutorInvariants.Inv(r.nets[i].exec) && Known(r, i) {
      assert ExecutorInvariants.Inv(s.nets[i].exec) && Known(s, i);
    }
  }

  lemma CallKeepsNames(s: System, n: nat, call: Call, k: nat, r: System)
    requires WellFormed(s) && Named(s) && CallStep(s, n, call, k, r)
    requires r.nets[n].exec.accepted == AcceptedAfter(s.nets[n].exec, call)
    ensures r.asked == s.asked && (WellFormed(r) ==> Named(r))
  {
    hide ExecutorRuns.Apply, Allowed, KeysOk;
  }

  lemma CallKeepsDistinct(s: System, n: nat, r: System)
    requires WellFormed(s) && Named(s) && Distinct(s) && n < |s.nets| && WellFormed(r) && r.asked == s.asked
    requires |r.nets| == |s.nets| && r.nets == s.nets[n := r.nets[n]] && r.nets[n].received == s.nets[n].received
    requires Adds(s.nets[n].exec, r.nets[n].exec)
    ensures Distinct(r)
  {
    forall j, k | 0 <= j < k < |r.asked| && r.asked[j].id == r.asked[k].id ensures Over(r, j) {
      assert Over(s, j);
      OverStays(s, r, n, j);
    }
  }

  /** What has arrived is the same. */
  lemma CallKeepsTable(s: System, n: nat, r: System)
    requires WellFormed(s) && TableOk(s) && n < |s.nets| && WellFormed(r) && r.asked == s.asked && r.table == s.table
    requires r.lost == s.lost
    requires |r.nets| == |s.nets| && r.nets == s.nets[n := r.nets[n]] && r.nets[n].received == s.nets[n].received
    requires s.nets[n].exec.sent <= r.nets[n].exec.sent
    ensures TableOk(r)
    ensures AllSettled(s) ==> AllSettled(r)
    ensures AllToAskers(s) ==> AllToAskers(r)
  {
    assert Arrived(r.nets[n]) == Arrived(s.nets[n]);
    hide Reports, Answers, Arrived;
    forall k | 0 <= k < |s.asked| && Settled(s, k) ensures Settled(r, k) {
      assert Arrived(NetOf(r, k)) == Arrived(NetOf(s, k));
    }
  }

  lemma CallKeepsShape(s: System, n: nat, call: Call, k: nat, r: System)
    requires CallStep(s, n, call, k, r) && Adds(s.nets[n].exec, r.nets[n].exec)
    ensures |r.nets| == |s.nets| && r.nets == s.nets[n := r.nets[n]] && r.nets[n].received == s.nets[n].received
    ensures WellFormed(r) && s.nets[n].exec.sent <= r.nets[n].exec.sent
    ensures r.asked == s.asked && r.table == s.table && r.lost == s.lost
    ensures Bounded(s) ==> Bounded(r)
  {
    hide ExecutorRuns.Apply, Allowed, KeysOk;
  }

  lemma CallKeepsInv(s: System, n: nat, call: Call, k: nat, r: System)
    requires Inv(s) && CallStep(s, n, call, k, r)
    ensures Inv(r)
  {
    assert WellFormed(s) && n < |s.nets|;
    hide CallStep, WellFormed, Adds, Named, Distinct, Bounded, AllSettled, AllToAskers, TableOk, ExecsOk;
    CallKeepsExecs(s, n, call, k, r);
    CallKeepsShape(s, n, call, k, r);
    CallKeepsNames(s, n, call, k, r);
    CallKeepsDistinct(s, n, r);
    CallKeepsTable(s, n, r);
  }

  // ------------------------------------------------------------------ a message arrives

  lemma MessageIsKnown(t: Net, i: nat)
    requires ExecutorInvariants.Inv(t.exec) && t.received <= i < |t.exec.sent| && t.exec.sent[i].cmd.OneShot()
    ensures t.exec.sent[i].cmd in t.exec.accepted && 1 <= Reports(OnTheWay(t), t.exec.sent[i].cmd)
  {
    var c := t.exec.sent[i].cmd;
    OnItsWay(t.exec.sent, t.received, i);
    ReportsSplit(t.exec.sent, t.received, c);
    hide ExecutorInvariants.Inv;
    if c !in t.exec.accepted { UnacceptedUnreported(t.exec, c); }
  }

  /** If an earlier request with the id of a pending one is not over, it is the pending one. */
  lemma PendingIsTheOne(s: System, j: nat, id: int)
    requires Inv(s) && j < |s.asked| && s.asked[j].id == id && !Over(s, j) && id in s.table.pending
    ensures s.table.pending[id] == s.asked[j].request
  {
    var k := s.table.pending[id].ref;
    assert k < |s.asked| && s.asked[k].id == id && Pending(s, k) by { assert TableOk(s); }
    if k < j {
      assert Over(s, k);
      OverIsNotPending(s, k);
    }
    assert Distinct(s);
    hide Inv, Over;
  }

  /** An RPC message on its way that meets a pending request is about that request's command. */
  lemma MessageMeetsItsRequest(s: System, n: nat, i: nat)
    requires Inv(s) && n < |s.nets| && s.nets[n].received <= i < |s.nets[n].exec.sent|
    requires s.nets[n].exec.sent[i].cmd.IsRpc()
    ensures var c := s.nets[n].exec.sent[i].cmd;
      && c.ref < |s.asked| && s.asked[c.ref].cmd == c && s.asked[c.ref].net == n
      && (c.commandId in s.table.pending ==> s.table.pending[c.commandId] == s.asked[c.ref].request)
  {
    var c := s.nets[n].exec.sent[i].cmd;
    assert ExecutorInvariants.Inv(s.nets[n].exec) && Known(s, n) && Named(s);
    hide Inv, ExecutorInvariants.Inv, Reports;
    MessageIsKnown(s.nets[n], i);
    if c.commandId in s.table.pending { PendingIsTheOne(s, c.ref, c.commandId); }
  }

  lemma OnItsWay(sent: seq<Message>, n: nat, i: nat)
    requires n <= i < |sent|
    ensures 1 <= Reports(sent[n..], sent[i].cmd)
  {
    var c := sent[i].cmd;
    assert sent[n..] == sent[n..i + 1] + sent[i + 1..];
    ReportsConcat(sent[n..i + 1], sent[i + 1..], c);
  }

  lemma ArrivalMoves(t: Net, c: Command)
    requires t.received < |t.exec.sent|
    ensures var t' := t.(received := t.received + 1); var m := t.exec.sent[t.received];
      && Reports(Arrived(t'), c) == Reports(Arrived(t), c) + (if m.cmd == c then 1 else 0)
      && Reports(OnTheWay(t'), c) <= Reports(OnTheWay(t), c)
  {
    var m := t.exec.sent[t.received];
    assert t.exec.sent[..t.received + 1] == t.exec.sent[..t.received] + [m];
    ReportsAppend(t.exec.sent[..t.received], m, c);
    var rest := OnTheWay(t);
    assert rest == rest[..1] + rest[1..] && rest[1..] == t.exec.sent[t.received + 1..];
    ReportsConcat(rest[..1], rest[1..], c);
  }

  lemma ReceiveKeepsDistinct(s: System, n: nat, convertible: bool)
    requires WellFormed(s) && Distinct(s) && Enabled(s, Receive(n, convertible))
    ensures var r := Apply(s, Receive(n, convertible)); WellFormed(r) && Distinct(r)
  {
    var r := Apply(s, Receive(n, convertible));
    hide Answered, Reports, OnTheWay;
    forall j, k | 0 <= j < k < |r.asked| && r.asked[j].id == r.asked[k].id ensures Over(r, j) {
      assert Over(s, j);
      ArrivalMoves(s.nets[n], s.asked[j].cmd);
    }
  }

  lemma ReceiveKeepsNames(s: System, n: nat, convertible: bool)
    requires WellFormed(s) && Named(s) && Enabled(s, Receive(n, convertible))
    requires WellFormed(Apply(s, Receive(n, convertible)))
    ensures Named(Apply(s, Receive(n, convertible)))
  {
    hide Answered;
  }

  lemma ReceiveKeepsExecs(s: System, n: nat, convertible: bool)
    requires Inv(s) && Enabled(s, Receive(n, convertible))
    ensures var r := Apply(s, Receive(n, convertible)); WellFormed(r) && ExecsOk(r) && Named(r) && Distinct(r)
  {
    hide ExecsOk, Distinct, Named, Answered, AllSettled, AllToAskers, TableOk, Bounded;
    ReceiveKeepsDistinct(s, n, convertible);
    ReceiveKeepsNames(s, n, convertible);
    SameExecs(s, Apply(s, Receive(n, convertible)));
  }

  /** The message `m` of request `j` answers that request, and no other. */
  lemma AnswerEndsWait(t: Table, m: Message, convertible: bool, j: Asked, a: Asked)
    requires m.cmd.IsRpc() ==>
      j.cmd == m.cmd && j.id == m.cmd.commandId && (j.id in t.pending ==> t.pending[j.id] == j.request)
    requires a.id == a.cmd.commandId < 0 && (m.cmd.IsRpc() && a.request == j.request ==> a.cmd == m.cmd)
    requires a.cmd == m.cmd ==> a == j
    ensures var t' := Answered(t, m, convertible);
      && (WaitsIn(t', a) <==> WaitsIn(t, a) && a.cmd != m.cmd)
      && Answers(t'.responses, a.cmd) == Answers(t.responses, a.cmd) + if a.cmd == m.cmd && WaitsIn(t, a) then 1 else 0
  {
    if m.cmd.IsRpc() && m.cmd.commandId in t.pending {
      AnswersAppend(t.responses, Answered(t, m, convertible).responses[|t.responses|], a.cmd);
    }
    hide Answers;
  }

  /** Receiving a message of the `k`-th command ends the wait of the `k`-th request, and no other. */
  lemma ReceiveEndsWait(s: System, n: nat, convertible: bool, k: nat)
    requires Inv(s) && Enabled(s, Receive(n, convertible)) && k < |s.asked|
    ensures var r := Apply(s, Receive(n, convertible));
      var m := s.nets[n].exec.sent[s.nets[n].received];
      var mine := m.cmd == s.asked[k].cmd;
      && (Pending(r, k) <==> Pending(s, k) && !mine) && (mine ==> s.asked[k].net == n)
      && Answers(r.table.responses, s.asked[k].cmd) ==
           Answers(s.table.responses, s.asked[k].cmd) + if mine && Pending(s, k) then 1 else 0
  {
    var m := s.nets[n].exec.sent[s.nets[n].received];
    assert Named(s);
    hide Inv, Answers, Answered, WaitsIn;
    if m.cmd.IsRpc() {
      MessageMeetsItsRequest(s, n, s.nets[n].received);
      AnswerEndsWait(s.table, m, convertible, s.asked[m.cmd.ref], s.asked[k]);
    } else {
      AnswerEndsWait(s.table, m, convertible, s.asked[k], s.asked[k]);
    }
  }

  lemma ReceiveSettles(s: System, n: nat, convertible: bool, k: nat)
    requires Inv(s) && Enabled(s, Receive(n, convertible)) && k < |s.asked|
    requires WellFormed(Apply(s, Receive(n, convertible)))
    ensures Settled(Apply(s, Receive(n, convertible)), k)
  {
    assert Settled(s, k);
    ReceiveEndsWait(s, n, convertible, k);
    ArrivalMoves(s.nets[n], s.asked[k].cmd);
    hide Inv, Reports, Arrived, OnTheWay, Pending, Answers, Answered;
  }

  /** The response that is added, if any, goes to the asker. */
  lemma AnswerGoesToAsker(s: System, t: Table, m: Message, convertible: bool)
    requires t == s.table && AllToAskers(s)
    requires m.cmd.IsRpc() && m.cmd.commandId in t.pending ==>
      && m.cmd.ref < |s.asked| && s.asked[m.cmd.ref].cmd == m.cmd
      && t.pending[m.cmd.commandId] == s.asked[m.cmd.ref].request
    ensures AllToAskers(s.(table := Answered(t, m, convertible)))
  {
    var r := s.(table := Answered(t, m, convertible));
    forall i | 0 <= i < |r.table.responses| ensures ToAsker(r, r.table.responses[i]) {
      if i < |t.responses| { assert ToAsker(s, t.responses[i]); }
    }
  }

  lemma ReceiveKeepsAskers(s: System, n: nat, convertible: bool)
    requires Inv(s) && Enabled(s, Receive(n, convertible))
    ensures AllToAskers(Apply(s, Receive(n, convertible)))
  {
    var m := s.nets[n].exec.sent[s.nets[n].received];
    var r := Apply(s, Receive(n, convertible));
    assert AllToAskers(s) && Named(s) && WellFormed(s);
    if m.cmd.IsRpc() { MessageMeetsItsRequest(s, n, s.nets[n].received); }
    hide Inv, Answered, AllToAskers, WellFormed;
    AnswerGoesToAsker(s, s.table, m, convertible);
    SameAskers(s.(table := r.table), r);
  }

  lemma SameAskers(s: System, r: System)
    requires r.table == s.table && r.asked == s.asked && AllToAskers(s)
    ensures AllToAskers(r)
  {
    forall i | 0 <= i < |r.table.responses| ensures ToAsker(r, r.table.responses[i]) {
      assert ToAsker(s, s.table.responses[i]);
    }
  }

  lemma ReceiveKeepsTable(s: System, n: nat, convertible: bool)
    requires Inv(s) && Enabled(s, Receive(n, convertible)) && WellFormed(Apply(s, Receive(n, convertible)))
    ensures TableOk(Apply(s, Receive(n, convertible))) && Bounded(Apply(s, Receive(n, convertible)))
  {
    var m := s.nets[n].exec.sent[s.nets[n].received];
    var r := Apply(s, Receive(n, convertible));
    if m.cmd.IsRpc() { MessageMeetsItsRequest(s, n, s.nets[n].received); }
    assert TableOk(s) && Named(s);
    hide Inv, ExecsOk, AllSettled, AllToAskers, Reports, Distinct, Arrived, OnTheWay;
    forall id | id in r.table.pending
      ensures var k := r.table.pending[id].ref; k < |r.asked| && r.asked[k].id == id && Pending(r, k)
    {
      var k := s.table.pending[id].ref;
      assert k < |s.asked| && s.asked[k].id == id && Pending(s, k);
    }
  }

  lemma ReceiveKeepsInv(s: System, n: nat, convertible: bool)
    requires Inv(s) && Enabled(s, Receive(n, convertible))
    ensures Inv(Apply(s, Receive(n, convertible)))
  {
    var r := Apply(s, Receive(n, convertible));
    ReceiveKeepsExecs(s, n, convertible);
    ReceiveKeepsAskers(s, n, convertible);
    hide Reports, ExecsOk, Distinct, AllToAskers, TableOk, Bounded, Named, Settled;
    ReceiveKeepsTable(s, n, convertible);
    forall k | 0 <= k < |r.asked| ensures Settled(r, k) { ReceiveSettles(s, n, convertible, k); }
  }

  // ------------------------------------------------------------------ every step

  lemma DisconnectSettles(s: System, k: nat)
    requires WellFormed(s) && k < |s.asked| && Settled(s, k)
    ensures Settled(Apply(s, Disconnect), k)
  {
    hide Reports, Answers;
  }

  lemma DisconnectKeepsRest(s: System)
    requires WellFormed(s) && Named(s) && Distinct(s) && Bounded(s) && AllToAskers(s)
    ensures var r := Apply(s, Disconnect);
      WellFormed(r) && Named(r) && Distinct(r) && TableOk(r) && Bounded(r) && AllToAskers(r)
  {
    var r := Apply(s, Disconnect);
    hide Reports;
    forall i | 0 <= i < |r.table.responses| ensures ToAsker(r, r.table.responses[i]) {
      assert ToAsker(s, s.table.responses[i]);
    }
    forall j, k | 0 <= j < k < |r.asked| && r.asked[j].id == r.asked[k].id ensures Over(r, j) { assert Over(s, j); }
  }

  lemma DisconnectKeepsInv(s: System)
    requires Inv(s) && Enabled(s, Disconnect)
    ensures Inv(Apply(s, Disconnect))
  {
    hide ExecsOk, Settled, Named, Distinct, Bounded, AllToAskers, TableOk;
    var r := Apply(s, Disconnect);
    SameExecs(s, r);
    DisconnectKeepsRest(s);
    forall k | 0 <= k < |r.asked| ensures Settled(r, k) { DisconnectSettles(s, k); }
  }

  lemma StepKeepsInv(s: System, l: Label)
    requires Inv(s) && Enabled(s, l)
    ensures Inv(Apply(s, l))
  {
    match l
    case Ask(q, c, net) => hide Inv; AskKeepsInv(s, q, c, net);
    case Deliver(k) => hide Inv; CallKeepsInv(s, s.asked[k].net, CallFor(s.asked[k].cmd), k, Apply(s, l));
    case Modbus(n, call) => hide Inv; CallKeepsInv(s, n, call, 0, Apply(s, l));
    case Receive(n, convertible) => hide Inv; ReceiveKeepsInv(s, n, convertible);
    case Disconnect => hide Inv; DisconnectKeepsInv(s);
  }

  // ------------------------------------------------------------------ runs

  ghost predicate StepsTo(s: System, l: Label, r: System) {
    Enabled(s, l) && r == Apply(s, l)
  }

  ghost predicate IsRun(run: seq<System>, labels: seq<Label>) {
    && |run| == |labels| + 1 && IsFresh(run[0])
    && forall i | 0 <= i < |labels| :: StepsTo(run[i], labels[i], run[i + 1])
  }

  lemma FreshKeepsInv(s: System)
    requires IsFresh(s)
    ensures Inv(s)
  {
    forall n | 0 <= n < |s.nets| ensures ExecutorInvariants.Inv(s.nets[n].exec) && Known(s, n) {
      FreshIsGood(s.nets[n].exec.lastTime);
    }
    hide ExecutorInvariants.Inv;
  }

  lemma {:induction false} RunKeepsInv(run: seq<System>, labels: seq<Label>, i: nat)
    requires IsRun(run, labels) && i < |run|
    ensures Inv(run[i])
  {
    hide Inv, Enabled, Apply;
    if i == 0 {
      FreshKeepsInv(run[0]);
    } else {
      RunKeepsInv(run, labels, i - 1);
      assert StepsTo(run[i - 1], labels[i - 1], run[i - 1 + 1]);
      StepKeepsInv(run[i - 1], labels[i - 1]);
    }
  }

  /** A request is answered at most once, and every response goes to the topic and carries the correlation
      data of the request whose command caused it. */
  lemma AnsweredAtMostOnce(run: seq<System>, labels: seq<Label>, i: nat, k: nat)
    requires IsRun(run, labels) && i < |run| && k < |run[i].asked|
    ensures Answers(run[i].table.responses, run[i].asked[k].cmd) <= 1
    ensures forall j | 0 <= j < |run[i].table.responses| :: ToAsker(run[i], run[i].table.responses[j])
  {
    RunKeepsInv(run, labels, i);
    hide IsRun;
    assert Settled(run[i], k);
  }

  /** Once the command is finished and its messages have arrived, the request is answered exactly once,
      unless a disconnect came first; a failing write that reported every attempt is no exception. */
  lemma AnsweredExactlyOnce(run: seq<System>, labels: seq<Label>, i: nat, k: nat)
    requires IsRun(run, labels) && i < |run| && k < |run[i].asked| && k !in run[i].lost
    requires WellFormed(run[i]) && Over(run[i], k)
    ensures Answers(run[i].table.responses, run[i].asked[k].cmd) == 1
  {
    RunKeepsInv(run, labels, i);
    hide IsRun;
    OverIsNotPending(run[i], k);
    assert Settled(run[i], k);
  }

  // ------------------------------------------------------------------ ids

  /** Before the counter wraps round, ids count down from -1. */
  predicate CountsDown(s: System) {
    |s.asked| <= -INT_MIN ==>
      s.table.next == -|s.asked| && forall k | 0 <= k < |s.asked| :: s.asked[k].id == -k - 1
  }

  lemma {:induction false} IdsCountDown(run: seq<System>, labels: seq<Label>, i: nat)
    requires IsRun(run, labels) && i < |run|
    ensures CountsDown(run[i])
  {
    if 0 < i {
      IdsCountDown(run, labels, i - 1);
      assert StepsTo(run[i - 1], labels[i - 1], run[i - 1 + 1]);
      hide ExecutorRuns.Apply, Allowed, KeysOk, Unused, WellFormed;
    }
  }

  /** The first two thousand million requests never reuse an id. */
  lemma FirstIdsAreUnused(run: seq<System>, labels: seq<Label>, i: nat)
    requires IsRun(run, labels) && i < |run| && |run[i].asked| < -INT_MIN && WellFormed(run[i])
    ensures NextId(run[i].table.next) < 0 && Unused(run[i], NextId(run[i].table.next))
  {
    IdsCountDown(run, labels, i);
  }
}
