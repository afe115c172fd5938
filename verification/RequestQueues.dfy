/** The commands waiting for one slave: polls and writes, popped in turn. */
module RequestQueues {
  import opened Options

  /** Time spans; `Infinite` stands for the source's `duration::max()`. */
  datatype Duration = Finite(t: int) | Infinite {
    predicate Less(other: Duration) {
      match (this, other)
      case (Finite(a), Finite(b)) => a < b
      case (Finite(_), Infinite) => true
      case (Infinite, _) => false
    }
  }

  /** A poll or a write. `ref` is the identity of the command object; polls of the scheduler have command
      id 0, RPC commands a negative one, configured commands a positive one. */
  datatype Command = Command(ref: nat, isWrite: bool, slave: int, commandId: int,
                             delay: int, firstDelay: int, maxRead: nat, maxWrite: nat) {
    predicate IsRpc() {
      commandId < 0
    }

    /** Writes and RPC reads: one-shot commands that somebody waits for. */
    predicate OneShot() {
      isWrite || IsRpc()
    }
  }

  datatype Queues = Queues(polls: seq<Command>, writes: seq<Command>, popFromPoll: bool, lastFound: Option<nat>) {
    predicate Empty() {
      polls == [] && writes == []
    }
  }

  const NEW := Queues([], [], true, None)

  // ------------------------------------------------------------------ adding

  /** Appends the polls that are not queued yet. */
  function AddPolls(q: Queues, list: seq<Command>): Queues
    decreases |list|
  {
    if list == [] then q
    else AddPolls(if list[0] in q.polls then q else q.(polls := q.polls + [list[0]]), list[1..])
  }

  method AddPollList(q: Queues, list: seq<Command>) returns (r: Queues)
    ensures r == AddPolls(q, list)
  {
    r := q;
    for i := 0 to |list|
      invariant AddPolls(r, list[i..]) == AddPolls(q, list)
    {
      assert list[i..][0] == list[i] && list[i..][1..] == list[i + 1..];
      if list[i] !in r.polls {
        r := r.(polls := r.polls + [list[i]]);
      }
    }
  }

  function AddWrite(q: Queues, c: Command): Queues {
    q.(writes := q.writes + [c])
  }

  /** Puts a displaced command back in front. */
  function Readd(q: Queues, c: Command): Queues {
    if !c.isWrite then q.(polls := [c] + q.polls, popFromPoll := true)
    else q.(writes := [c] + q.writes, popFromPoll := false)
  }

  lemma {:induction false} AddPollsKeeps(q: Queues, list: seq<Command>)
    ensures q.polls <= AddPolls(q, list).polls
    ensures AddPolls(q, list) == q.(polls := AddPolls(q, list).polls)
    ensures forall c :: c in AddPolls(q, list).polls <==> c in q.polls || c in list
    decreases |list|
  {
    if list != [] {
      AddPollsKeeps(if list[0] in q.polls then q else q.(polls := q.polls + [list[0]]), list[1..]);
      assert list == [list[0]] + list[1..];
    }
  }

  /** A poll is never queued twice by the scheduler, and one that was queued stays where it was. */
  lemma {:induction false} AddPollsCounts(q: Queues, list: seq<Command>, c: Command)
    ensures multiset(AddPolls(q, list).polls)[c] ==
      if c in q.polls then multiset(q.polls)[c] else if c in list then 1 else 0
    decreases |list|
  {
    if list != [] {
      var q1 := if list[0] in q.polls then q else q.(polls := q.polls + [list[0]]);
      AddPollsCounts(q1, list[1..], c);
      assert list == [list[0]] + list[1..];
    }
  }

  // ------------------------------------------------------------------ popping

  function PoppedFrom(q: Queues): (fromPolls: bool)
    requires !q.Empty()
    ensures if fromPolls then q.polls != [] else q.writes != []
  {
    if q.popFromPoll then q.polls != [] else q.writes == []
  }

  function Popped(q: Queues): Command
    requires !q.Empty()
  {
    if PoppedFrom(q) then q.polls[0] else q.writes[0]
  }

  function PopNext(q: Queues): Queues
    requires !q.Empty()
  {
    if q.popFromPoll then
      if q.polls == [] then q.(writes := q.writes[1..])
      else q.(polls := q.polls[1..], popFromPoll := false)
    else
      if q.writes == [] then q.(polls := q.polls[1..])
      else q.(writes := q.writes[1..], popFromPoll := true)
  }

  /** Whatever happens to the queues in between, if a poll was popped and writes are waiting at the next
      pop, a write is popped, and the other way round. */
  lemma PopsAlternate(q: Queues, later: Queues)
    requires !q.Empty() && !later.Empty() && later.popFromPoll == PopNext(q).popFromPoll
    ensures PoppedFrom(q) && later.writes != [] ==> !PoppedFrom(later)
    ensures !PoppedFrom(q) && later.polls != [] ==> PoppedFrom(later)
  {
  }

  // ------------------------------------------------------------------ election by silence period

  function Abs(x: int): int {
    if x < 0 then -x else x
  }

  function ElectionDelay(c: Command, ignoreFirst: bool): int {
    if ignoreFirst || c.firstDelay == 0 then c.delay else c.firstDelay
  }

  /** Result of the scan from index `i` on, with `ret` and `found` chosen so far. */
  function Scan(polls: seq<Command>, period: int, ignoreFirst: bool, i: nat, ret: Duration, found: Option<nat>)
    : (Duration, Option<nat>)
    requires i <= |polls|
    decreases |polls| - i
  {
    if i == |polls| then (ret, found)
    else
      var delay := ElectionDelay(polls[i], ignoreFirst);
      var diff := Abs(delay - period);
      if delay == 0 then Scan(polls, period, ignoreFirst, i + 1, ret, found)
      else if diff == 0 then (Finite(delay), Some(i))
      else if Finite(diff).Less(ret) then Scan(polls, period, ignoreFirst, i + 1, Finite(delay), Some(i))
      else Scan(polls, period, ignoreFirst, i + 1, ret, found)
  }

  /** If the scan chooses a delay, the remembered index is fresh: it points at a queued poll with that delay. */
  lemma {:induction false} ScanIsFresh(polls: seq<Command>, period: int, ignoreFirst: bool, i: nat, ret: Duration,
                                       found: Option<nat>)
    requires i <= |polls|
    requires ret.Finite? ==>
      found.Some? && found.value < |polls| && ret.t == ElectionDelay(polls[found.value], ignoreFirst) != 0
    ensures var (ret', found') := Scan(polls, period, ignoreFirst, i, ret, found);
      && (ret.Finite? ==> ret'.Finite?)
      && (ret'.Finite? ==> (found'.Some? && found'.value < |polls| &&
                            ret'.t == ElectionDelay(polls[found'.value], ignoreFirst) != 0))
      && (ret'.Infinite? ==>
            found' == found && forall k | i <= k < |polls| :: ElectionDelay(polls[k], ignoreFirst) == 0)
    decreases |polls| - i
  {
    if i < |polls| {
      var delay := ElectionDelay(polls[i], ignoreFirst);
      var diff := Abs(delay - period);
      if delay == 0 {
        ScanIsFresh(polls, period, ignoreFirst, i + 1, ret, found);
      } else if diff == 0 {
      } else if Finite(diff).Less(ret) {
        ScanIsFresh(polls, period, ignoreFirst, i + 1, Finite(delay), Some(i));
      } else {
        ScanIsFresh(polls, period, ignoreFirst, i + 1, ret, found);
      }
    }
  }

  /** The poll's delay is exactly the silence there was: the delay for the first command to a slave if it has
      one and that counts, else the delay for every command. */
  predicate FitsExactly(c: Command, period: int, ignoreFirst: bool) {
    if !ignoreFirst && c.firstDelay != 0 then c.firstDelay == period else c.delay == period
  }

  /** A poll whose delay is exactly the silence there was is chosen before all others, the first if there are
      several. */
  lemma {:induction false} ExactFitIsChosen(polls: seq<Command>, period: int, ignoreFirst: bool, i: nat, ret: Duration,
                                            found: Option<nat>, k: nat)
    requires i <= k < |polls| && period != 0 && FitsExactly(polls[k], period, ignoreFirst)
    requires forall j | i <= j < k :: !FitsExactly(polls[j], period, ignoreFirst)
    ensures Scan(polls, period, ignoreFirst, i, ret, found) == (Finite(period), Some(k))
    decreases k - i
  {
    if i < k {
      var delay := ElectionDelay(polls[i], ignoreFirst);
      if delay != 0 && Finite(Abs(delay - period)).Less(ret) {
        ExactFitIsChosen(polls, period, ignoreFirst, i + 1, Finite(delay), Some(i), k);
      } else {
        ExactFitIsChosen(polls, period, ignoreFirst, i + 1, ret, found, k);
      }
    }
  }

  method FindForSilencePeriod(q: Queues, period: int, ignoreFirst: bool) returns (ret: Duration, r: Queues)
    ensures var (d, f) := Scan(q.polls, period, ignoreFirst, 0, Infinite, q.lastFound);
      ret == d && r == q.(lastFound := f)
  {
    ret := Infinite;
    r := q;
    var i := 0;
    while i < |q.polls|
      invariant 0 <= i <= |q.polls|
      invariant r == q.(lastFound := r.lastFound)
      invariant Scan(q.polls, period, ignoreFirst, i, ret, r.lastFound) ==
        Scan(q.polls, period, ignoreFirst, 0, Infinite, q.lastFound)
    {
      var delay := ElectionDelay(q.polls[i], ignoreFirst);
      if delay != 0 {
        var diff := Abs(delay - period);
        if diff == 0 {
          ret := Finite(delay);
          r := r.(lastFound := Some(i));
          return;
        } else if Finite(diff).Less(ret) {
          ret := Finite(delay);
          r := r.(lastFound := Some(i));
        }
      }
      i := i + 1;
    }
  }

  /** Removes the poll that the last search remembered. */
  function EraseFound(q: Queues): Queues
    requires q.lastFound.Some? && q.lastFound.value < |q.polls|
  {
    q.(polls := q.polls[..q.lastFound.value] + q.polls[q.lastFound.value + 1..])
  }
}
