/** When scheduled polls fall due, and how an RPC read stands in for them. */
module Scheduler {
  import opened ModbusTypes
  import opened RequestQueues

  /** A scheduled poll. `start` is when its last read began; it is 0 before the first one. */
  datatype RegisterPoll = RegisterPoll(ref: nat, range: AddressRange, refresh: int, mode: PublishMode, ok: bool,
                                       start: int)

  /** The polls of each slave. */
  type RegisterMap = seq<(int, seq<RegisterPoll>)>

  predicate Active(p: RegisterPoll) {
    !(p.mode == Once && p.ok)
  }

  predicate Due(p: RegisterPoll, now: int) {
    Active(p) && now - p.start >= p.refresh
  }

  function DueIn(polls: seq<RegisterPoll>, now: int): seq<RegisterPoll> {
    if polls == [] then []
    else
      var p := polls[|polls| - 1];
      DueIn(polls[..|polls| - 1], now) + if Due(p, now) then [p] else []
  }

  /** The slaves with due polls, and these. */
  function DuePolls(table: RegisterMap, now: int): RegisterMap {
    if table == [] then []
    else
      var (slave, polls) := table[|table| - 1];
      DuePolls(table[..|table| - 1], now) + if DueIn(polls, now) != [] then [(slave, DueIn(polls, now))] else []
  }

  /** How long a poll lets the scheduler sleep. */
  function WaitFor(p: RegisterPoll, now: int): Duration {
    if !Active(p) then Infinite
    else if now - p.start >= p.refresh then Finite(p.refresh)
    else Finite(p.refresh - (now - p.start))
  }

  predicate AtMost(d: Duration, e: Duration) {
    !e.Less(d)
  }

  /** `d` is the least of the waits of these polls. */
  ghost predicate LeastWait(d: Duration, polls: seq<RegisterPoll>, now: int) {
    && (forall k | 0 <= k < |polls| :: AtMost(d, WaitFor(polls[k], now)))
    && (d.Finite? ==> exists k | 0 <= k < |polls| :: WaitFor(polls[k], now) == d)
  }

  function AllPolls(table: RegisterMap): seq<RegisterPoll> {
    if table == [] then [] else AllPolls(table[..|table| - 1]) + table[|table| - 1].1
  }

  class ModbusScheduler {
    var registerMap: RegisterMap

    constructor (registerMap: RegisterMap)
      ensures this.registerMap == registerMap
    {
      this.registerMap := registerMap;
    }

    /** Exactly the due polls, and the least wait of all polls. */
    method GetRegistersToPoll(now: int) returns (ret: RegisterMap, wait: Duration)
      ensures ret == DuePolls(registerMap, now)
      ensures LeastWait(wait, AllPolls(registerMap), now)
    {
      ret, wait := [], Infinite;
      var i := 0;
      while i < |registerMap|
        invariant 0 <= i <= |registerMap|
        invariant ret == DuePolls(registerMap[..i], now)
        invariant LeastWait(wait, AllPolls(registerMap[..i]), now)
      {
        var due, least := ScanSlave(registerMap[i].1, now, wait, AllPolls(registerMap[..i]));
        if due != [] {
          ret := ret + [(registerMap[i].0, due)];
        }
        wait := least;
        i := i + 1;
        assert registerMap[..i][..i - 1] == registerMap[..i - 1];
      }
      assert registerMap[..i] == registerMap;
    }

    method ScanSlave(polls: seq<RegisterPoll>, now: int, wait: Duration, ghost before: seq<RegisterPoll>)
      returns (due: seq<RegisterPoll>, least: Duration)
      requires LeastWait(wait, before, now)
      ensures due == DueIn(polls, now) && LeastWait(least, before + polls, now)
    {
      due, least := [], wait;
      assert before + polls[..0] == before;
      var k := 0;
      while k < |polls|
        invariant 0 <= k <= |polls|
        invariant due == DueIn(polls[..k], now)
        invariant LeastWait(least, before + polls[..k], now)
      {
        var p := polls[k];
        ghost var seen := before + polls[..k];
        assert before + polls[..k + 1] == seen + [p];
        assert polls[..k + 1][..k] == polls[..k];
        ghost var was := least;
        if Active(p) {
          var passed := now - p.start;
          var toPoll := p.refresh;
          if passed >= p.refresh {
            due := due + [p];
          } else {
            toPoll := p.refresh - passed;
          }
          if Finite(toPoll).Less(least) {
            least := Finite(toPoll);
          }
        }
        LeastOfMore(was, seen, p, now, least);
        k := k + 1;
      }
      assert polls[..k] == polls;
    }

    /** An RPC read that succeeded: polls of the slave within its range count as read. */
    method NotifyRpcRead(slave: int, range: AddressRange, start: int)
      modifies this`registerMap
      ensures registerMap == Deferred(old(registerMap), slave, range, start)
    {
      var i := 0;
      while i < |registerMap| && registerMap[i].0 != slave
        invariant 0 <= i <= |registerMap| && forall k | 0 <= k < i :: registerMap[k].0 != slave
      {
        i := i + 1;
      }
      FirstSlaveIs(registerMap, slave, i);
      if i < |registerMap| {
        var polls := DeferAll(registerMap[i].1, range, start);
        registerMap := registerMap[i := (slave, polls)];
      }
    }
  }

  method DeferAll(polls: seq<RegisterPoll>, range: AddressRange, start: int) returns (r: seq<RegisterPoll>)
    ensures r == DeferIn(polls, range, start)
  {
    r := polls;
    var k := 0;
    while k < |polls|
      invariant 0 <= k <= |polls| == |r|
      invariant forall j | 0 <= j < |polls| :: r[j] == if j < k then Defer(polls[j], range, start) else polls[j]
    {
      if range.Contains(r[k].range) {
        r := r[k := r[k].(start := start)];
      }
      k := k + 1;
    }
  }

  lemma LeastOfMore(d: Duration, seen: seq<RegisterPoll>, p: RegisterPoll, now: int, d': Duration)
    requires LeastWait(d, seen, now)
    requires d' == if WaitFor(p, now).Less(d) then WaitFor(p, now) else d
    ensures LeastWait(d', seen + [p], now)
  {
    var more := seen + [p];
    assert more[|seen|] == p && forall k | 0 <= k < |seen| :: more[k] == seen[k];
    if d'.Finite? && !WaitFor(p, now).Less(d) {
      var k :| 0 <= k < |seen| && WaitFor(seen[k], now) == d;
      assert WaitFor(more[k], now) == d';
    }
  }

  // ------------------------------------------------------------------ deferral

  function Defer(p: RegisterPoll, range: AddressRange, start: int): RegisterPoll {
    if range.Contains(p.range) then p.(start := start) else p
  }

  function DeferIn(polls: seq<RegisterPoll>, range: AddressRange, start: int): seq<RegisterPoll> {
    seq(|polls|, k requires 0 <= k < |polls| => Defer(polls[k], range, start))
  }

  /** The position of the slave in the map, or the map's size. */
  function FirstSlave(table: RegisterMap, slave: int): (i: nat)
    ensures i <= |table| && (i < |table| ==> table[i].0 == slave) && forall k | 0 <= k < i :: table[k].0 != slave
  {
    if table == [] || table[0].0 == slave then 0 else 1 + FirstSlave(table[1..], slave)
  }

  lemma FirstSlaveIs(table: RegisterMap, slave: int, i: nat)
    requires i <= |table| && (i < |table| ==> table[i].0 == slave) && forall k | 0 <= k < i :: table[k].0 != slave
    ensures i == FirstSlave(table, slave)
  {
  }

  function Deferred(table: RegisterMap, slave: int, range: AddressRange, start: int): RegisterMap {
    var i := FirstSlave(table, slave);
    if i == |table| then table else table[i := (slave, DeferIn(table[i].1, range, start))]
  }

  // ------------------------------------------------------------------ nothing falls due unnoticed

  /** The `k`-th poll of the `i`-th slave. */
  predicate IsAt(table: RegisterMap, i: nat, k: nat) {
    i < |table| && k < |table[i].1|
  }

  lemma {:induction false} AllPollsHas(table: RegisterMap, i: nat, k: nat)
    requires IsAt(table, i, k)
    ensures table[i].1[k] in AllPolls(table)
  {
    if i < |table| - 1 { AllPollsHas(table[..|table| - 1], i, k); }
  }

  /** A poll is returned exactly if it is due. */
  lemma {:induction false} DueInHas(polls: seq<RegisterPoll>, now: int, p: RegisterPoll)
    ensures p in DueIn(polls, now) <==> p in polls && Due(p, now)
  {
    if polls != [] {
      DueInHas(polls[..|polls| - 1], now, p);
      assert polls == polls[..|polls| - 1] + [polls[|polls| - 1]];
    }
  }

  predicate Has(table: RegisterMap, slave: int, p: RegisterPoll) {
    exists j | 0 <= j < |table| :: table[j].0 == slave && p in table[j].1
  }

  /** A poll is returned for a slave exactly if it is registered there, is not a ONCE poll that has succeeded,
      and its refresh period has passed since its last read began. */
  lemma {:induction false} ReturnsExactlyTheDue(table: RegisterMap, now: int, slave: int, p: RegisterPoll)
    ensures Has(DuePolls(table, now), slave, p) <==>
      Has(table, slave, p) && !(p.mode == Once && p.ok) && p.start + p.refresh <= now
  {
    if table != [] {
      var n := |table| - 1;
      var before := table[..n];
      var (s, polls) := table[n];
      ReturnsExactlyTheDue(before, now, slave, p);
      DueInHas(polls, now, p);
      AppendHas(DuePolls(before, now), s, DueIn(polls, now), slave, p);
      AppendHas(before, s, polls, slave, p);
      assert table == before + [(s, polls)];
      assert DuePolls(before, now) + [] == DuePolls(before, now);
      hide Has;
    }
  }

  lemma AppendHas(ret: RegisterMap, s: int, polls: seq<RegisterPoll>, slave: int, p: RegisterPoll)
    ensures Has(ret + [(s, polls)], slave, p) <==> Has(ret, slave, p) || (s == slave && p in polls)
  {
    var r := ret + [(s, polls)];
    assert r[|ret|] == (s, polls);
    if Has(ret, slave, p) {
      var j :| 0 <= j < |ret| && ret[j].0 == slave && p in ret[j].1;
      assert r[j] == ret[j];
    }
    if Has(r, slave, p) && !(s == slave && p in polls) {
      var j :| 0 <= j < |r| && r[j].0 == slave && p in r[j].1;
      assert ret[j] == r[j];
    }
  }

  /** The poll is not due before `until`. */
  predicate QuietUntil(p: RegisterPoll, until: Duration) {
    AtMost(until, Finite(p.start + p.refresh))
  }

  /** That is what it means, for polls that do not end after one success. */
  lemma QuietIsNotDue(p: RegisterPoll, until: Duration, t: int)
    requires QuietUntil(p, until) && Finite(t).Less(until)
    ensures !Due(p, t)
  {
  }

  function Until(now: int, wait: Duration): Duration {
    if wait.Infinite? then Infinite else Finite(now + wait.t)
  }

  /** The bus reads since the schedule: of a poll itself, or by an RPC read that succeeded. */
  datatype BusRead =
    | OwnRead(slave: int, i: nat, k: nat, start: int, ok: bool)
    | RpcRead(slave: int, range: AddressRange, start: int)

  function AfterRead(table: RegisterMap, r: BusRead): RegisterMap
    requires r.OwnRead? ==> IsAt(table, r.i, r.k) && table[r.i].0 == r.slave
  {
    match r
    case OwnRead(slave, i, k, start, ok) =>
      table[i := (slave, table[i].1[k := table[i].1[k].(start := start, ok := ok)])]
    case RpcRead(slave, range, start) => Deferred(table, slave, range, start)
  }

  ghost predicate ReadsAllowed(table: RegisterMap, uses: seq<BusRead>)
    decreases |uses|
  {
    uses != [] ==>
      var r := uses[0];
      && (r.OwnRead? ==> IsAt(table, r.i, r.k) && table[r.i].0 == r.slave)
      && ReadsAllowed(AfterRead(table, r), uses[1..])
  }

  ghost function AfterReads(table: RegisterMap, uses: seq<BusRead>): RegisterMap
    requires ReadsAllowed(table, uses)
    decreases |uses|
  {
    if uses == [] then table else AfterReads(AfterRead(table, uses[0]), uses[1..])
  }

  /** One read changes only start time and success of a poll, and a new start time is that of the read. */
  lemma ReadTouches(table: RegisterMap, r: BusRead, i: nat, k: nat)
    requires r.OwnRead? ==> IsAt(table, r.i, r.k) && table[r.i].0 == r.slave
    requires IsAt(table, i, k)
    ensures var table' := AfterRead(table, r);
      && IsAt(table', i, k) && table'[i].0 == table[i].0
      && var p, p' := table[i].1[k], table'[i].1[k];
         && p' == p.(start := p'.start, ok := p'.ok) && (p'.start == p.start || p'.start == r.start)
         && (r.RpcRead? && p' != p ==> table[i].0 == r.slave && r.range.Contains(p.range) && p'.start == r.start)
         && (r.OwnRead? && p' != p ==> i == r.i && k == r.k && p'.start == r.start)
  {
  }

  ghost predicate After(uses: seq<BusRead>, now: int) {
    forall j | 0 <= j < |uses| :: now <= uses[j].start
  }

  /** Whatever is read after a schedule, a poll stays quiet until the next one once it is. */
  lemma {:induction false} QuietStays(table: RegisterMap, uses: seq<BusRead>, now: int, wait: Duration, i: nat, k: nat)
    requires ReadsAllowed(table, uses) && After(uses, now) && IsAt(table, i, k)
    requires QuietUntil(table[i].1[k], Until(now, wait)) && AtMost(wait, Finite(table[i].1[k].refresh))
    ensures IsAt(AfterReads(table, uses), i, k) && QuietUntil(AfterReads(table, uses)[i].1[k], Until(now, wait))
    decreases |uses|
  {
    if uses != [] {
      ReadTouches(table, uses[0], i, k);
      assert forall j | 0 <= j < |uses[1..]| :: uses[1..][j] == uses[j + 1];
      QuietStays(AfterRead(table, uses[0]), uses[1..], now, wait, i, k);
    }
  }

  /** After a schedule at `now` that allows to sleep for `wait`, no poll of a repeating mode falls due
      before `now + wait` unless it was returned and not read since, whatever is read in between. */
  lemma NothingFallsDueUnnoticed(table: RegisterMap, uses: seq<BusRead>, now: int, wait: Duration,
                                 i: nat, k: nat, t: int)
    requires LeastWait(wait, AllPolls(table), now) && IsAt(table, i, k)
    requires ReadsAllowed(table, uses) && After(uses, now)
    requires table[i].1[k].mode != Once && table[i].1[k].start <= now && !Due(table[i].1[k], now)
    requires Finite(t).Less(Until(now, wait))
    ensures IsAt(AfterReads(table, uses), i, k) && !Due(AfterReads(table, uses)[i].1[k], t)
  {
    var p := table[i].1[k];
    AllPollsHas(table, i, k);
    var j :| 0 <= j < |AllPolls(table)| && AllPolls(table)[j] == p;
    assert AtMost(wait, WaitFor(AllPolls(table)[j], now));
    QuietStays(table, uses, now, wait, i, k);
  }

  lemma WaitIsAtMostRefresh(table: RegisterMap, now: int, wait: Duration, i: nat, k: nat)
    requires LeastWait(wait, AllPolls(table), now) && IsAt(table, i, k)
    requires table[i].1[k].mode != Once && table[i].1[k].start <= now
    ensures AtMost(wait, Finite(table[i].1[k].refresh))
  {
    AllPollsHas(table, i, k);
    var j :| 0 <= j < |AllPolls(table)| && AllPolls(table)[j] == table[i].1[k];
    assert AtMost(wait, WaitFor(AllPolls(table)[j], now));
  }

  /** A returned poll is quiet as soon as it is read. */
  lemma ReadMakesQuiet(table: RegisterMap, now: int, wait: Duration, i: nat, k: nat, start: int)
    requires LeastWait(wait, AllPolls(table), now) && IsAt(table, i, k) && now <= start
    requires table[i].1[k].mode != Once && table[i].1[k].start <= now
    ensures QuietUntil(table[i].1[k].(start := start), Until(now, wait))
  {
    WaitIsAtMostRefresh(table, now, wait, i, k);
  }

  /** A returned poll that is read after the schedule is not due again before the next one, whatever is read
      in between. */
  lemma ReadIsNotDueAgain(table: RegisterMap, uses: seq<BusRead>, now: int, wait: Duration,
                          i: nat, k: nat, start: int, ok: bool, t: int)
    requires LeastWait(wait, AllPolls(table), now) && IsAt(table, i, k) && now <= start
    requires table[i].1[k].mode != Once && table[i].1[k].start <= now
    requires ReadsAllowed(AfterRead(table, OwnRead(table[i].0, i, k, start, ok)), uses) && After(uses, now)
    requires Finite(t).Less(Until(now, wait))
    ensures var r := AfterReads(AfterRead(table, OwnRead(table[i].0, i, k, start, ok)), uses);
      IsAt(r, i, k) && !Due(r[i].1[k], t)
  {
    var read := AfterRead(table, OwnRead(table[i].0, i, k, start, ok));
    ReadMakesQuiet(table, now, wait, i, k, start);
    WaitIsAtMostRefresh(table, now, wait, i, k);
    QuietStays(read, uses, now, wait, i, k);
    QuietIsNotDue(AfterReads(read, uses)[i].1[k], Until(now, wait), t);
  }

  // ------------------------------------------------------------------ the wait is not too short

  /** When the poll falls due next, if it is read now in case it is due now. */
  function NextDue(p: RegisterPoll, now: int): int {
    if p.start + p.refresh <= now then now + p.refresh else p.start + p.refresh
  }

  /** The wait ends exactly when the first poll falls due again; it is infinite exactly if none ever will. */
  lemma WakesWhenDue(table: RegisterMap, now: int, wait: Duration)
    requires LeastWait(wait, AllPolls(table), now)
    ensures forall p | p in AllPolls(table) && !(p.mode == Once && p.ok) ::
      wait.Finite? && now + wait.t <= NextDue(p, now)
    ensures wait.Finite? ==>
      exists p | p in AllPolls(table) :: !(p.mode == Once && p.ok) && now + wait.t == NextDue(p, now)
  {
    forall p | p in AllPolls(table) && !(p.mode == Once && p.ok)
      ensures wait.Finite? && now + wait.t <= NextDue(p, now)
    {
      var k :| 0 <= k < |AllPolls(table)| && AllPolls(table)[k] == p;
      assert AtMost(wait, WaitFor(AllPolls(table)[k], now));
    }
    if wait.Finite? {
      var k :| 0 <= k < |AllPolls(table)| && WaitFor(AllPolls(table)[k], now) == wait;
      assert AllPolls(table)[k] in AllPolls(table);
    }
  }

  // ------------------------------------------------------------------ an RPC read stands in for polls

  /** Each slave has one list. */
  predicate OneListEach(table: RegisterMap) {
    forall i, j | 0 <= i < j < |table| :: table[i].0 != table[j].0
  }

  /** After an RPC read exactly the polls of its slave and type that lie within its range count as read when it
      began; nothing else changes. */
  lemma RpcReadDefersExactly(table: RegisterMap, slave: int, range: AddressRange, start: int, i: nat, k: nat)
    requires OneListEach(table) && IsAt(table, i, k)
    ensures var table' := Deferred(table, slave, range, start); var p := table[i].1[k];
      && |table'| == |table| && IsAt(table', i, k) && table'[i].0 == table[i].0 && |table'[i].1| == |table[i].1|
      && table'[i].1[k] ==
         if table[i].0 == slave && p.range.kind == range.kind &&
            range.first <= p.range.first && p.range.Last() <= range.Last() then p.(start := start) else p
  {
  }

  /** So a repeating poll within the range is not due before its period has passed since then, and is due
      afterwards. */
  lemma DeferredIsDueLater(table: RegisterMap, slave: int, range: AddressRange, start: int, i: nat, k: nat, t: int)
    requires OneListEach(table) && IsAt(table, i, k) && table[i].0 == slave && table[i].1[k].mode != Once
    requires table[i].1[k].range.kind == range.kind
    requires range.first <= table[i].1[k].range.first && table[i].1[k].range.Last() <= range.Last()
    ensures var table' := Deferred(table, slave, range, start);
      IsAt(table', i, k) && (Due(table'[i].1[k], t) <==> start + table[i].1[k].refresh <= t)
  {
    RpcReadDefersExactly(table, slave, range, start, i, k);
    hide Deferred;
  }

  // ------------------------------------------------------------------ start times are honest

  /** A bus read of this slave covering the whole range began then. */
  predicate WasRead(history: seq<(int, AddressRange, int)>, slave: int, range: AddressRange, start: int) {
    exists j | 0 <= j < |history| :: history[j].0 == slave && history[j].2 == start && history[j].1.Contains(range)
  }

  ghost predicate Honest(table: RegisterMap, history: seq<(int, AddressRange, int)>) {
    forall i: nat, k: nat | IsAt(table, i, k) ::
      table[i].1[k].start == 0 || WasRead(history, table[i].0, table[i].1[k].range, table[i].1[k].start)
  }

  /** The bus use a read stands for. */
  function UseOf(table: RegisterMap, r: BusRead): (int, AddressRange, int)
    requires r.OwnRead? ==> IsAt(table, r.i, r.k)
  {
    match r
    case OwnRead(slave, i, k, start, _) => (slave, table[i].1[k].range, start)
    case RpcRead(slave, range, start) => (slave, range, start)
  }

  lemma ReadKeepsHonest(table: RegisterMap, history: seq<(int, AddressRange, int)>, r: BusRead)
    requires Honest(table, history) && (r.OwnRead? ==> IsAt(table, r.i, r.k) && table[r.i].0 == r.slave)
    ensures Honest(AfterRead(table, r), history + [UseOf(table, r)])
  {
    var table', more := AfterRead(table, r), history + [UseOf(table, r)];
    forall i: nat, k: nat | IsAt(table', i, k)
      ensures table'[i].1[k].start == 0 || WasRead(more, table'[i].0, table'[i].1[k].range, table'[i].1[k].start)
    {
      ReadTouches(table, r, i, k);
      var p, p' := table[i].1[k], table'[i].1[k];
      if p' == p {
        if WasRead(history, table[i].0, p.range, p.start) {
          var j :| && 0 <= j < |history| && history[j].0 == table[i].0
                   && history[j].2 == p.start && history[j].1.Contains(p.range);
          assert more[j] == history[j];
        }
      } else {
        assert more[|history|] == UseOf(table, r);
      }
    }
  }

  ghost function Uses(table: RegisterMap, uses: seq<BusRead>): seq<(int, AddressRange, int)>
    requires ReadsAllowed(table, uses)
    decreases |uses|
  {
    if uses == [] then [] else [UseOf(table, uses[0])] + Uses(AfterRead(table, uses[0]), uses[1..])
  }

  /** After any reads, own or by RPC, a poll's start time is unset or a moment when a bus read that covers
      its whole range began. */
  lemma {:induction false} StartTimesAreHonest(table: RegisterMap, history: seq<(int, AddressRange, int)>,
                                               uses: seq<BusRead>)
    requires Honest(table, history) && ReadsAllowed(table, uses)
    ensures Honest(AfterReads(table, uses), history + Uses(table, uses))
    decreases |uses|
  {
    if uses == [] {
      assert history + [] == history;
    } else {
      ReadKeepsHonest(table, history, uses[0]);
      StartTimesAreHonest(AfterRead(table, uses[0]), history + [UseOf(table, uses[0])], uses[1..]);
      assert history + [UseOf(table, uses[0])] + Uses(AfterRead(table, uses[0]), uses[1..]) ==
             history + Uses(table, uses);
    }
  }
}
