/** What the command executor of one modbus network does, as functions on its state. */
module Executor {
  import opened Options
  import opened RequestQueues

  const WRITE_BATCH_SIZE: int := 10

  datatype MessageKind = Values | ReadFailed | WriteFailed

  /** A message to the main thread; it carries `cmd.commandId`. `use` is the bus use that caused it. */
  datatype Message = Message(kind: MessageKind, cmd: Command, use: nat)

  /** One use of the bus. For a write, `ordinal` is the number of writes to its slave finished before. */
  datatype BusEvent = BusEvent(cmd: Command, start: int, end: int, ok: bool, ordinal: nat)

  /** The executor's fields, then its history: messages sent, bus uses, one-shot commands accepted and
      finished, and the number of writes given up. `keys` lists the queues in map order. */
  datatype Exec = Exec(keys: seq<int>, queues: map<int, Queues>, current: Option<int>, commandsLeft: int,
                       writesQueued: int, maxRead: nat, maxWrite: nat, readRetry: nat, writeRetry: nat,
                       lastTime: int, waiting: Option<Command>, last: Option<Command>, initialPoll: bool,
                       sent: seq<Message>, bus: seq<BusEvent>, accepted: seq<Command>, finished: seq<Command>,
                       abandoned: nat)

  // ------------------------------------------------------------------ queues by slave

  predicate KeysListed(e: Exec) {
    forall i | 0 <= i < |e.keys| :: e.keys[i] in e.queues
  }

  function InsertSorted(keys: seq<int>, s: int): seq<int> {
    if keys == [] || s < keys[0] then [s] + keys
    else [keys[0]] + InsertSorted(keys[1..], s)
  }

  /** `mSlaveQueues[s]`, which creates a missing queue. */
  function QueueOf(e: Exec, s: int): Queues {
    if s in e.queues then e.queues[s] else NEW
  }

  function WithQueue(e: Exec, s: int, q: Queues): Exec {
    e.(keys := if s in e.queues then e.keys else InsertSorted(e.keys, s), queues := e.queues[s := q])
  }

  predicate AllDone(e: Exec) {
    e.waiting.None? && forall k | k in e.queues :: e.queues[k].Empty()
  }

  predicate PollDone(e: Exec) {
    !(e.waiting.Some? && !e.waiting.value.isWrite) && forall k | k in e.queues :: e.queues[k].polls == []
  }

  /** The budget of commands for the queue just selected. A missing queue counts as empty. */
  function Budget(e: Exec): int {
    if e.current.None? || QueueOf(e, e.current.value).polls == [] then WRITE_BATCH_SIZE
    else |QueueOf(e, e.current.value).polls| * 2
  }

  function ResetCounter(e: Exec): Exec {
    e.(commandsLeft := Budget(e))
  }

  function SelectIfNone(e: Exec, s: int): Exec {
    if e.current.None? then ResetCounter(e.(current := Some(s))) else e
  }

  // ------------------------------------------------------------------ adding commands

  function AddRead(e: Exec, c: Command): Exec {
    SelectIfNone(WithQueue(e, c.slave, AddPolls(QueueOf(e, c.slave), [c])), c.slave)
      .(accepted := e.accepted + [c])
  }

  /** With no write pending, the new write takes the waiting slot and the command there goes back to a
      queue, that of the new write's slave. */
  function Displace(e: Exec, c: Command): Exec {
    var e1 := if e.waiting.Some? then WithQueue(e, c.slave, Readd(QueueOf(e, c.slave), e.waiting.value)) else e;
    ResetCounter(e1.(waiting := Some(c), current := if c.slave in e1.queues then Some(c.slave) else None))
  }

  function EnqueueWrite(e: Exec, c: Command): Exec {
    SelectIfNone(WithQueue(e, c.slave, AddWrite(QueueOf(e, c.slave), c)), c.slave)
  }

  function AddWriteCommand(e: Exec, c: Command): Exec {
    var e1 := if e.writesQueued == 0 then Displace(e, c) else EnqueueWrite(e, c);
    e1.(writesQueued := e.writesQueued + 1, accepted := e.accepted + [c])
  }

  // ------------------------------------------------------------------ scheduled polls and the election

  type PollMap = seq<(int, seq<Command>)>

  function InsertPolls(e: Exec, regs: PollMap): Exec
    decreases |regs|
  {
    if regs == [] then e
    else InsertPolls(WithQueue(e, regs[0].0, AddPolls(QueueOf(e, regs[0].0), regs[0].1)), regs[1..])
  }

  function FirstAdded(regs: PollMap): Option<int> {
    if regs == [] then None
    else if regs[0].1 != [] then Some(regs[0].0)
    else FirstAdded(regs[1..])
  }

  function SetQ(e: Exec, s: int, q: Queues): Exec {
    e.(queues := e.queues[s := q])
  }

  /** One round of the election: queue `s` puts up a poll if it has one with a shorter delay than the
      best so far, and takes the place of the poll elected before, which is dropped. */
  function ElectOne(e: Exec, s: int, period: int, best: Duration): (Exec, Duration)
    requires s in e.queues
  {
    var q := e.queues[s];
    var ignoreFirst := e.current == Some(s);
    var (delay, found) := Scan(q.polls, period, ignoreFirst, 0, Infinite, q.lastFound);
    var q1 := q.(lastFound := found);
    if delay.Less(best) then
      ScanIsFresh(q.polls, period, ignoreFirst, 0, Infinite, q.lastFound);
      (SetQ(e, s, EraseFound(q1)).(waiting := Some(q.polls[found.value]), current := Some(s)), delay)
    else
      (SetQ(e, s, q1), best)
  }

  /** The election from the `i`-th queue on, with the best delay so far. */
  function Elect(e: Exec, i: nat, period: int, best: Duration): Exec
    requires i <= |e.keys| && KeysListed(e)
    decreases |e.keys| - i
  {
    if i == |e.keys| || best == Finite(0) then e
    else
      var (e1, best1) := ElectOne(e, e.keys[i], period, best);
      Elect(e1, i + 1, period, best1)
  }

  /** Takes the next command from the current queue. */
  function PopCurrent(e: Exec): Exec
    requires e.current.Some? && e.current.value in e.queues && !e.queues[e.current.value].Empty()
  {
    var s := e.current.value;
    SetQ(e, s, PopNext(e.queues[s])).(waiting := Some(Popped(e.queues[s])))
  }

  ghost predicate KeysOk(e: Exec) {
    && (forall i, j | 0 <= i < j < |e.keys| :: e.keys[i] < e.keys[j])
    && KeysListed(e)
    && (forall k | k in e.queues :: k in e.keys)
    && (e.current.Some? ==> e.current.value in e.queues)
  }

  predicate CanPop(e: Exec) {
    e.current.Some? && e.current.value in e.queues && !e.queues[e.current.value].Empty()
  }

  /** Starts on the polls just added: the elected one, or the next of the first queue that got any. */
  function StartPolls(e: Exec, first: int, period: int): Exec
    requires KeysListed(e)
  {
    var e1 := Elect(ResetCounter(e.(current := Some(first))), 0, period, Infinite);
    if e1.waiting.None? && CanPop(e1) then PopCurrent(e1) else e1
  }

  ghost function WithPollList(e: Exec, regs: PollMap, initialPoll: bool, now: int): Exec
    requires KeysOk(e)
  {
    if e.initialPoll && !PollDone(e) then e
    else
      var e1 := InsertPolls(e.(initialPoll := e.initialPoll || initialPoll), regs);
      InsertPollsKeepsKeys(e.(initialPoll := e.initialPoll || initialPoll), regs);
      if !AllDone(e) || FirstAdded(regs).None? then e1
      else StartPolls(e1, FirstAdded(regs).value, now - e.lastTime)
  }

  // ------------------------------------------------------------------ executing

  /** The first index from `i` on with a non-empty queue. */
  function FirstBusy(e: Exec, i: nat): (j: nat)
    requires i <= |e.keys| && KeysListed(e)
    ensures i <= j <= |e.keys|
    ensures j < |e.keys| ==> !e.queues[e.keys[j]].Empty()
    ensures forall k | i <= k < j :: e.queues[e.keys[k]].Empty()
    decreases |e.keys| - i
  {
    if i == |e.keys| || !e.queues[e.keys[i]].Empty() then i else FirstBusy(e, i + 1)
  }

  function IndexOf(keys: seq<int>, s: int): (i: nat)
    requires s in keys
    ensures i < |keys| && keys[i] == s
  {
    if keys[0] == s then 0 else 1 + IndexOf(keys[1..], s)
  }

  /** The first non-empty queue after the current one, going round; the current one comes last. */
  ghost function NextBusy(e: Exec): (j: nat)
    requires KeysOk(e) && e.current.Some? && exists k | k in e.queues :: !e.queues[k].Empty()
    ensures j < |e.keys| && e.keys[j] in e.queues && !e.queues[e.keys[j]].Empty()
  {
    var p := IndexOf(e.keys, e.current.value);
    var a := FirstBusy(e, p + 1);
    if a < |e.keys| then a
    else
      var k :| k in e.queues && !e.queues[k].Empty();
      assert e.keys[IndexOf(e.keys, k)] == k;
      FirstBusy(e, 0)
  }

  /** Fills the waiting slot if it is empty. */
  ghost function Choose(e: Exec): Exec
    requires KeysOk(e) && !AllDone(e)
  {
    if e.waiting.Some? || e.current.None? then e
    else if e.commandsLeft == 0 || e.queues[e.current.value].Empty() then
      ResetCounter(PopCurrent(e.(current := Some(e.keys[NextBusy(e)]))))
    else PopCurrent(e)
  }

  /** Silence needed on the bus before `c`, given the command before. */
  function Silence(last: Option<Command>, c: Command): int {
    if c.firstDelay != 0 && last.Some? && last.value.slave != c.slave then c.firstDelay else c.delay
  }

  /** What the environment contributes to one call: clock readings, the bus result, and, for a scheduled
      poll, whether its values changed or its errors piled up enough to be reported. */
  datatype Outcome = Outcome(now: int, start: int, end: int, ok: bool, report: bool)

  function MessagesOf(initialPoll: bool, use: nat, c: Command, o: Outcome, retry: bool): seq<Message> {
    if c.isWrite then [Message(if o.ok then Values else WriteFailed, c, use)]
    else if o.ok then (if c.IsRpc() || initialPoll || o.report then [Message(Values, c, use)] else [])
    else if c.IsRpc() then (if retry then [] else [Message(ReadFailed, c, use)])
    else if o.report then [Message(ReadFailed, c, use)] else []
  }

  function WritesOf(commands: seq<Command>, s: int): seq<Command> {
    if commands == [] then []
    else
      var c := commands[|commands| - 1];
      WritesOf(commands[..|commands| - 1], s) + (if c.isWrite && c.slave == s then [c] else [])
  }

  /** Retry counters are reloaded when the command is not the one sent last. */
  function LoadRetries(e: Exec, c: Command): Exec {
    if e.last == Some(c) then e
    else e.(maxRead := c.maxRead, readRetry := c.maxRead, maxWrite := c.maxWrite, writeRetry := c.maxWrite)
  }

  predicate Retries(e: Exec, c: Command, ok: bool) {
    !ok && (if c.isWrite then e.writeRetry != 0 else e.readRetry != 0)
  }

  /** A read, with the retry counters already loaded. */
  function TryRead(e: Exec, c: Command, o: Outcome): Exec {
    e.(sent := e.sent + MessagesOf(e.initialPoll, |e.bus|, c, o, Retries(e, c, o.ok)),
       readRetry := if o.ok then e.maxRead else if e.readRetry != 0 then e.readRetry - 1 else e.readRetry)
  }

  /** A write. Giving up leaves the write counter as it is. */
  function TryWrite(e: Exec, c: Command, o: Outcome): Exec {
    e.(sent := e.sent + MessagesOf(e.initialPoll, |e.bus|, c, o, Retries(e, c, o.ok)),
       writeRetry := if o.ok then e.maxWrite else if e.writeRetry != 0 then e.writeRetry - 1 else e.writeRetry,
       writesQueued := if o.ok then e.writesQueued - 1 else e.writesQueued,
       abandoned := if !o.ok && e.writeRetry == 0 then e.abandoned + 1 else e.abandoned)
  }

  function LogUse(e: Exec, c: Command, o: Outcome): Exec {
    e.(bus := e.bus + [BusEvent(c, o.start, o.end, o.ok, |WritesOf(e.finished, c.slave)|)],
       lastTime := o.end, last := Some(c))
  }

  function Finish(e: Exec, c: Command): Exec {
    e.(waiting := None,
       finished := if c.OneShot() then e.finished + [c] else e.finished,
       commandsLeft := if e.commandsLeft > 0 then e.commandsLeft - 1 else e.commandsLeft)
  }

  /** `sendCommand`: one use of the bus for the waiting command. */
  function Send(e: Exec, o: Outcome): Exec
    requires e.waiting.Some?
  {
    var c := e.waiting.value;
    var e1 := LoadRetries(e, c);
    var e2 := LogUse(if c.isWrite then TryWrite(e1, c, o) else TryRead(e1, c, o), c, o);
    if Retries(e1, c, o.ok) then e2 else Finish(e2, c)
  }

  /** The fields after one use of the bus. */
  lemma SendFields(e: Exec, o: Outcome)
    requires e.waiting.Some?
    ensures var c, r := e.waiting.value, Send(e, o); var e1 := LoadRetries(e, c); var retry := Retries(e1, c, o.ok);
      && r.keys == e.keys && r.queues == e.queues && r.current == e.current && r.accepted == e.accepted
      && r.initialPoll == e.initialPoll && r.last == e.waiting && r.lastTime == o.end
      && r.waiting == (if retry then e.waiting else None)
      && r.finished == (if !retry && c.OneShot() then e.finished + [c] else e.finished)
      && r.commandsLeft == (if !retry && e.commandsLeft > 0 then e.commandsLeft - 1 else e.commandsLeft)
      && r.bus == e.bus + [BusEvent(c, o.start, o.end, o.ok, |WritesOf(e.finished, c.slave)|)]
      && r.sent == e.sent + MessagesOf(e.initialPoll, |e.bus|, c, o, retry)
      && r.writesQueued == (if c.isWrite && o.ok then e.writesQueued - 1 else e.writesQueued)
      && r.abandoned == (if c.isWrite && !o.ok && !retry then e.abandoned + 1 else e.abandoned)
      && r.maxWrite == e1.maxWrite
      && r.writeRetry == (if !c.isWrite then e1.writeRetry else if o.ok then e1.maxWrite
                          else if retry then e1.writeRetry - 1 else e1.writeRetry)
  {
    hide MessagesOf, WritesOf;
  }

  function EndInitialPoll(e: Exec): Exec {
    if e.initialPoll && PollDone(e) && e.current.Some? then e.(initialPoll := false) else e
  }

  predicate MustWait(e: Exec, now: int)
    requires e.waiting.Some?
  {
    var delay := Silence(e.last, e.waiting.value);
    delay != 0 && delay - (now - e.lastTime) > 0
  }

  /** The search for the next queue ends: some command is left, or the current queue is not the first. */
  ghost predicate SearchEnds(e: Exec)
    requires KeysOk(e)
  {
    AllDone(e) && e.current.Some? ==> IndexOf(e.keys, e.current.value) != 0
  }

  /** `executeNext`: the new state and the time to wait. With nothing left there is nothing to wait for. */
  ghost function ExecuteNext(e: Exec, o: Outcome): (Exec, Duration)
    requires KeysOk(e)
  {
    if AllDone(e) then (e, if e.current.Some? then Infinite else Finite(0))
    else
      var e1 := Choose(e);
      if e1.waiting.Some? && MustWait(e1, o.now) then
        (e1, Finite(Silence(e1.last, e1.waiting.value) - (o.now - e1.lastTime)))
      else
        (EndInitialPoll(if e1.waiting.Some? then Send(e1, o) else e1), Finite(0))
  }

  // ------------------------------------------------------------------ keys

  lemma {:induction false} InsertSortedKeeps(keys: seq<int>, s: int)
    requires s !in keys && forall i, j | 0 <= i < j < |keys| :: keys[i] < keys[j]
    ensures var r := InsertSorted(keys, s);
      (forall i, j | 0 <= i < j < |r| :: r[i] < r[j]) && forall k :: k in r <==> k == s || k in keys
  {
    if keys == [] || s < keys[0] {
    } else {
      InsertSortedKeeps(keys[1..], s);
      assert keys == [keys[0]] + keys[1..];
      var r := InsertSorted(keys[1..], s);
      forall i | 0 <= i < |r| ensures keys[0] < r[i] {
        assert r[i] in r;
      }
    }
  }

  lemma WithQueueKeepsKeys(e: Exec, s: int, q: Queues)
    requires KeysOk(e)
    ensures KeysOk(WithQueue(e, s, q))
  {
    if s !in e.queues {
      InsertSortedKeeps(e.keys, s);
      var r := InsertSorted(e.keys, s);
      forall i | 0 <= i < |r| ensures r[i] == s || r[i] in e.queues {
        assert r[i] in r;
        if r[i] in e.keys { assert e.keys[IndexOf(e.keys, r[i])] == r[i]; }
      }
    }
  }

  lemma {:induction false} InsertPollsKeepsKeys(e: Exec, regs: PollMap)
    requires KeysOk(e)
    ensures KeysOk(InsertPolls(e, regs))
    decreases |regs|
  {
    if regs != [] {
      WithQueueKeepsKeys(e, regs[0].0, AddPolls(QueueOf(e, regs[0].0), regs[0].1));
      InsertPollsKeepsKeys(WithQueue(e, regs[0].0, AddPolls(QueueOf(e, regs[0].0), regs[0].1)), regs[1..]);
    }
  }
}
