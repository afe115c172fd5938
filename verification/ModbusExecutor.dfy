/** The command executor as the modbus thread uses it: an object changed by its calls, each proved to do
    what the functions of module `Executor` say. */
module ModbusExecutor {
  import opened Options
  import opened RequestQueues
  import opened Executor

  lemma ChooseKeepsKeys(e: Exec)
    requires KeysOk(e) && !AllDone(e)
    ensures KeysOk(Choose(e))
  {
    hide NextBusy, PopNext, Popped;
  }

  lemma SendKeepsKeys(e: Exec, o: Outcome)
    requires KeysOk(e) && e.waiting.Some?
    ensures KeysOk(Send(e, o))
  {
    SendFields(e, o);
    hide Send;
  }

  /** The search stopped at `n`: every queue passed on the way is empty, and so is the one at `n` only if the
      search came back to `p`. */
  predicate StopsAt(e: Exec, p: nat, n: nat)
    requires KeysListed(e) && p < |e.keys|
  {
    && n < |e.keys| && (n == p || !e.queues[e.keys[n]].Empty())
    && (forall k | p < k < (if p < n then n else |e.keys|) :: e.queues[e.keys[k]].Empty())
    && (n <= p ==> forall k | 0 <= k < n :: e.queues[e.keys[k]].Empty())
  }

  lemma StopIsNext(e: Exec, n: nat)
    requires KeysOk(e) && e.waiting.None? && e.current.Some? && StopsAt(e, IndexOf(e.keys, e.current.value), n)
    ensures if AllDone(e) then e.keys[n] == e.current.value else n == NextBusy(e)
  {
    if !AllDone(e) {
      var k :| k in e.queues && !e.queues[k].Empty();
      assert e.keys[IndexOf(e.keys, k)] == k;
    }
  }

  class CommandExecutor {
    // the slave queues, an ordered map
    var keys: seq<int>
    var queues: map<int, Queues>
    var current: Option<int>
    var commandsLeft: int
    var writesQueued: int
    var maxRead: nat
    var maxWrite: nat
    var readRetry: nat
    var writeRetry: nat
    var lastTime: int
    var waiting: Option<Command>
    var last: Option<Command>
    var initialPoll: bool
    // the trace: messages to the main thread, bus uses, one-shot commands in and out, writes given up
    var sent: seq<Message>
    var bus: seq<BusEvent>
    var accepted: seq<Command>
    var finished: seq<Command>
    var abandoned: nat

    ghost function State(): Exec
      reads this
    {
      Exec(keys, queues, current, commandsLeft, writesQueued, maxRead, maxWrite, readRetry, writeRetry, lastTime,
           waiting, last, initialPoll, sent, bus, accepted, finished, abandoned)
    }

    /** Times are in milliseconds; the last command counts as sent 100000 hours ago. */
    constructor (now: int)
      ensures State() ==
        Exec([], map[], None, 0, 0, 0, 0, 0, 0, now - 360000000000, None, None, false, [], [], [], [], 0)
    {
      keys, queues, current := [], map[], None;
      commandsLeft, writesQueued, maxRead, maxWrite, readRetry, writeRetry := 0, 0, 0, 0, 0, 0;
      lastTime := now - 360000000000;
      waiting, last, initialPoll, sent := None, None, false, [];
      bus, accepted, finished, abandoned := [], [], [], 0;
    }

    // ---------------------------------------------------------------- the slave queues

    method StoreQueue(s: int, q: Queues)
      modifies this`keys, this`queues
      ensures State() == WithQueue(old(State()), s, q)
    {
      if s !in queues {
        keys := InsertSorted(keys, s);
      }
      queues := queues[s := q];
    }

    method FetchQueue(s: int) returns (q: Queues)
      ensures q == QueueOf(State(), s)
    {
      q := if s in queues then queues[s] else NEW;
    }

    method ResetCommandsCounter()
      modifies this`commandsLeft
      ensures State() == ResetCounter(old(State()))
    {
      if current.None? || current.value !in queues || queues[current.value].polls == [] {
        commandsLeft := WRITE_BATCH_SIZE;
      } else {
        commandsLeft := |queues[current.value].polls| * 2;
      }
    }

    method IsAllDone() returns (done: bool)
      requires KeysOk(State())
      ensures done == AllDone(State())
    {
      done := waiting.None?;
      var i := 0;
      while done && i < |keys|
        invariant 0 <= i <= |keys|
        invariant done ==> waiting.None? && forall k | 0 <= k < i :: queues[keys[k]].Empty()
        invariant !done ==> !AllDone(State())
        decreases |keys| - i, done
      {
        if !queues[keys[i]].Empty() {
          assert keys[i] in State().queues && !State().queues[keys[i]].Empty();
          done := false;
        } else {
          i := i + 1;
        }
      }
    }

    method IsPollDone() returns (done: bool)
      requires KeysOk(State())
      ensures done == PollDone(State())
    {
      done := !(waiting.Some? && !waiting.value.isWrite);
      var i := 0;
      while done && i < |keys|
        invariant 0 <= i <= |keys|
        invariant done ==>
          !(waiting.Some? && !waiting.value.isWrite) && forall k | 0 <= k < i :: queues[keys[k]].polls == []
        invariant !done ==> !PollDone(State())
        decreases |keys| - i, done
      {
        if queues[keys[i]].polls != [] {
          assert keys[i] in State().queues && State().queues[keys[i]].polls != [];
          done := false;
        } else {
          i := i + 1;
        }
      }
    }

    // ---------------------------------------------------------------- adding commands

    method Select(s: int)
      modifies this`current, this`commandsLeft
      ensures State() == SelectIfNone(old(State()), s)
    {
      if current.None? {
        current := Some(s);
        ResetCommandsCounter();
      }
    }

    method AddReadCommand(c: Command)
      modifies this
      ensures State() == AddRead(old(State()), c)
    {
      var q := FetchQueue(c.slave);
      q := AddPollList(q, [c]);
      StoreQueue(c.slave, q);
      Select(c.slave);
      accepted := accepted + [c];
    }

    /** The branch of `addWriteCommand` that skips the queue. */
    method TakeSlot(c: Command)
      modifies this`keys, this`queues, this`waiting, this`current, this`commandsLeft
      ensures State() == Displace(old(State()), c)
    {
      if waiting.Some? {
        var q := FetchQueue(c.slave);
        StoreQueue(c.slave, Readd(q, waiting.value));
      }
      waiting := Some(c);
      current := if c.slave in queues then Some(c.slave) else None;
      ResetCommandsCounter();
    }

    method AddWriteCommand(c: Command)
      modifies this
      ensures State() == Executor.AddWriteCommand(old(State()), c)
    {
      if writesQueued == 0 {
        TakeSlot(c);
        hide Displace;
      } else {
        var q := FetchQueue(c.slave);
        StoreQueue(c.slave, AddWrite(q, c));
        hide WithQueue;
        Select(c.slave);
      }
      hide SelectIfNone;
      writesQueued := writesQueued + 1;
      accepted := accepted + [c];
    }

    /** The first loop of `addPollList`: queues the polls and finds the first slave that got any. */
    method QueuePolls(regs: PollMap) returns (first: Option<int>)
      requires KeysOk(State())
      modifies this`keys, this`queues
      ensures State() == InsertPolls(old(State()), regs) && first == FirstAdded(regs)
    {
      first := None;
      var i := 0;
      while i < |regs|
        invariant 0 <= i <= |regs|
        invariant InsertPolls(State(), regs[i..]) == InsertPolls(old(State()), regs)
        invariant FirstAdded(regs) == if first.Some? then first else FirstAdded(regs[i..])
      {
        assert regs[i..][0] == regs[i] && regs[i..][1..] == regs[i + 1..];
        var q := FetchQueue(regs[i].0);
        q := AddPollList(q, regs[i].1);
        StoreQueue(regs[i].0, q);
        if regs[i].1 != [] && first.None? {
          first := Some(regs[i].0);
        }
        i := i + 1;
      }
    }

    /** The election loop of `addPollList`. */
    method HoldElection(period: int)
      requires KeysListed(State())
      modifies this`queues, this`waiting, this`current
      ensures State() == Elect(old(State()), 0, period, Infinite)
    {
      var best := Infinite;
      var i := 0;
      while i < |keys| && best != Finite(0)
        invariant 0 <= i <= |keys| && KeysListed(State())
        invariant Elect(State(), i, period, best) == Elect(old(State()), 0, period, Infinite)
      {
        best := ElectIn(keys[i], period, best);
        hide ElectOne;
        i := i + 1;
      }
    }

    /** One round of the election loop. */
    method ElectIn(s: int, period: int, best: Duration) returns (r: Duration)
      requires KeysListed(State()) && s in queues
      modifies this`queues, this`waiting, this`current
      ensures (State(), r) == ElectOne(old(State()), s, period, best)
      ensures KeysListed(State())
    {
      var delay, q := FindForSilencePeriod(queues[s], period, current == Some(s));
      ScanIsFresh(queues[s].polls, period, current == Some(s), 0, Infinite, queues[s].lastFound);
      hide Scan;
      if delay.Less(best) {
        waiting := Some(q.polls[q.lastFound.value]);
        queues := queues[s := EraseFound(q)];
        current := Some(s);
        r := delay;
      } else {
        queues := queues[s := q];
        r := best;
      }
    }

    /** The last part of `addPollList`: picks the command to start with. */
    method Start(first: int, period: int)
      requires KeysListed(State())
      modifies this`queues, this`waiting, this`current, this`commandsLeft
      ensures State() == StartPolls(old(State()), first, period)
    {
      current := Some(first);
      ResetCommandsCounter();
      HoldElection(period);
      hide Elect;
      if waiting.None? && current.Some? && current.value in queues && !queues[current.value].Empty() {
        TakeNext();
      }
    }

    method AddPolls(regs: PollMap, initial: bool, now: int)
      requires KeysOk(State())
      modifies this
      ensures State() == WithPollList(old(State()), regs, initial, now)
    {
      hide AllDone, PollDone, InsertPolls, FirstAdded, StartPolls;
      var setupQueues := IsAllDone();
      var blocked := false;
      if initialPoll {
        var done := IsPollDone();
        blocked := !done;
      }
      if !blocked {
        initialPoll := initialPoll || initial;
        ghost var e0 := State();
        assert e0 == old(State()).(initialPoll := old(initialPoll) || initial);
        InsertPollsKeepsKeys(e0, regs);
        var first := QueuePolls(regs);
        assert State() == InsertPolls(e0, regs);
        hide KeysOk;
        if setupQueues && first.Some? {
          Start(first.value, now - lastTime);
        }
      }
    }

    // ---------------------------------------------------------------- executing

    /** Takes the next command of the current queue. */
    method TakeNext()
      requires CanPop(State())
      modifies this`queues, this`waiting
      ensures State() == PopCurrent(old(State()))
    {
      var q := queues[current.value];
      waiting := Some(Popped(q));
      queues := queues[current.value := PopNext(q)];
    }

    method IndexOfCurrent() returns (p: nat)
      requires KeysOk(State()) && current.Some?
      ensures p < |keys| && keys[p] == current.value && p == IndexOf(keys, current.value)
    {
      p := 0;
      assert current.value in keys && keys[0..] == keys;
      while keys[p] != current.value
        invariant 0 <= p < |keys| && current.value in keys[p..]
        invariant IndexOf(keys, current.value) == p + IndexOf(keys[p..], current.value)
        decreases |keys| - p
      {
        assert keys[p..][1..] == keys[p + 1..];
        p := p + 1;
      }
    }

    /** Goes round the queues, starting after position `p`, until one is not empty or it is back at `p`.
        Position `b` is one it cannot pass. */
    method GoRound(p: nat, ghost b: nat) returns (n: nat)
      requires KeysListed(State()) && p < |keys| && b < |keys| && (!queues[keys[b]].Empty() || b == p != 0)
      ensures StopsAt(State(), p, n)
    {
      ghost var wrapped := false;
      n := p + 1;
      while n != p
        invariant 0 <= n <= |keys| && (!wrapped ==> p < n) && (wrapped ==> 0 < n)
        invariant wrapped ==> forall k | p < k < |keys| :: queues[keys[k]].Empty()
        invariant forall k | (if wrapped then 0 else p + 1) <= k < n :: queues[keys[k]].Empty()
        decreases if n <= b then b - n else b + |keys| + 1 - n
      {
        if n == |keys| {
          n := 0;
          wrapped := true;
        }
        if !queues[keys[n]].Empty() {
          break;
        }
        n := n + 1;
      }
    }

    method SearchBusy() returns (n: nat)
      requires KeysOk(State()) && waiting.None? && current.Some? && SearchEnds(State())
      ensures n < |keys|
      ensures if AllDone(State()) then keys[n] == current.value else n == NextBusy(State())
    {
      var p := IndexOfCurrent();
      ghost var b := p;
      if !AllDone(State()) {
        ghost var busy :| busy in queues && !queues[busy].Empty();
        b := IndexOf(keys, busy);
      }
      n := GoRound(p, b);
      StopIsNext(State(), n);
    }

    /** Leaves the current queue for the next busy one; false if there is none. */
    method MoveOn() returns (found: bool)
      requires KeysOk(State()) && waiting.None? && current.Some? && SearchEnds(State())
      modifies this`queues, this`waiting, this`current, this`commandsLeft
      ensures found == !AllDone(old(State()))
      ensures var e := old(State());
        State() == if found then ResetCounter(PopCurrent(e.(current := Some(e.keys[NextBusy(e)])))) else e
    {
      var n := SearchBusy();
      assert keys[n] in queues && (AllDone(State()) <==> keys[n] == current.value && queues[current.value].Empty());
      hide NextBusy, KeysOk, AllDone;
      found := keys[n] != current.value || !queues[current.value].Empty();
      if found {
        current := Some(keys[n]);
        TakeNext();
        hide PopCurrent;
        ResetCommandsCounter();
      }
    }

    /** Fills the slot if it is empty; false if there is nothing to fill it with. */
    method ChooseCommand() returns (found: bool)
      requires KeysOk(State()) && SearchEnds(State())
      modifies this`queues, this`waiting, this`current, this`commandsLeft
      ensures found == !(AllDone(old(State())) && old(current).Some?)
      ensures State() == if AllDone(old(State())) then old(State()) else Choose(old(State()))
    {
      found := true;
      if waiting.None? && current.Some? {
        if commandsLeft == 0 || queues[current.value].Empty() {
          found := MoveOn();
        } else {
          TakeNext();
        }
      }
    }

    /** `pollRegisters` and what `sendCommand` does about its result. */
    method PollRegisters(c: Command, o: Outcome) returns (retry: bool)
      requires !c.isWrite
      modifies this`sent, this`readRetry
      ensures retry == Retries(old(State()), c, o.ok) && State() == TryRead(old(State()), c, o)
    {
      retry := false;
      if o.ok {
        if c.IsRpc() || initialPoll || o.report {
          sent := sent + [Message(Values, c, |bus|)];
        }
        readRetry := maxRead;
      } else {
        if !c.IsRpc() && o.report {
          sent := sent + [Message(ReadFailed, c, |bus|)];
        }
        if readRetry != 0 {
          retry := true;
          readRetry := readRetry - 1;
        } else if c.IsRpc() {
          sent := sent + [Message(ReadFailed, c, |bus|)];
        }
      }
    }

    /** `writeRegisters` and what `sendCommand` does about its result. */
    method WriteRegisters(c: Command, o: Outcome) returns (retry: bool)
      requires c.isWrite
      modifies this`sent, this`writeRetry, this`writesQueued, this`abandoned
      ensures retry == Retries(old(State()), c, o.ok) && State() == TryWrite(old(State()), c, o)
    {
      retry := false;
      sent := sent + [Message(if o.ok then Values else WriteFailed, c, |bus|)];
      if !o.ok {
        if writeRetry != 0 {
          retry := true;
          writeRetry := writeRetry - 1;
        } else {
          abandoned := abandoned + 1;
        }
      } else {
        writeRetry := maxWrite;
        writesQueued := writesQueued - 1;
      }
    }

    method LoadRetryCounts(c: Command)
      modifies this`maxRead, this`readRetry, this`maxWrite, this`writeRetry
      ensures State() == LoadRetries(old(State()), c)
    {
      if last != Some(c) {
        maxRead, readRetry := c.maxRead, c.maxRead;
        maxWrite, writeRetry := c.maxWrite, c.maxWrite;
      }
    }

    method Record(c: Command, o: Outcome)
      modifies this`lastTime, this`last, this`bus
      ensures State() == LogUse(old(State()), c, o)
    {
      lastTime := o.end;
      last := Some(c);
      bus := bus + [BusEvent(c, o.start, o.end, o.ok, |WritesOf(finished, c.slave)|)];
    }

    method Release(c: Command)
      modifies this`waiting, this`finished, this`commandsLeft
      ensures State() == Finish(old(State()), c)
    {
      waiting := None;
      finished := if c.OneShot() then finished + [c] else finished;
      if commandsLeft > 0 {
        commandsLeft := commandsLeft - 1;
      }
    }

    method SendCommand(o: Outcome)
      requires waiting.Some?
      modifies this
      ensures State() == Send(old(State()), o)
    {
      var c := waiting.value;
      LoadRetryCounts(c);
      var retry;
      hide State, LoadRetries, Retries, TryRead, TryWrite, LogUse, Finish;
      if !c.isWrite {
        retry := PollRegisters(c, o);
      } else {
        retry := WriteRegisters(c, o);
      }
      Record(c, o);
      if !retry {
        Release(c);
      }
    }

    method NeedsWait(o: Outcome) returns (left: int)
      requires waiting.Some?
      ensures 0 < left <==> MustWait(State(), o.now)
      ensures 0 < left ==> left == Silence(last, waiting.value) - (o.now - lastTime)
    {
      var c := waiting.value;
      var delay := c.delay;
      if c.firstDelay != 0 && last.Some? && last.value.slave != c.slave {
        delay := c.firstDelay;
      }
      left := 0;
      if delay != 0 {
        left := delay - (o.now - lastTime);
      }
    }

    method LeaveInitialPoll()
      requires KeysOk(State())
      modifies this`initialPoll
      ensures State() == EndInitialPoll(old(State()))
    {
      if initialPoll {
        var done := IsPollDone();
        if done && current.Some? {
          initialPoll := false;
        }
      }
    }

    method ExecuteNext(o: Outcome) returns (wait: Duration)
      requires KeysOk(State()) && SearchEnds(State())
      modifies this
      ensures (State(), wait) == Executor.ExecuteNext(old(State()), o)
    {
      if !AllDone(State()) { ChooseKeepsKeys(State()); }
      var found := ChooseCommand();
      hide SearchEnds;
      if !found {
        return Infinite;
      }
      if waiting.Some? {
        var left := NeedsWait(o);
        if left > 0 {
          hide Choose, Silence, AllDone;
          return Finite(left);
        }
        SendKeepsKeys(State(), o);
        SendCommand(o);
      }
      hide Choose, Send;
      LeaveInitialPoll();
      return Finite(0);
    }
  }
}
