/** Which scheduled polls the election drops: all it elected but the last. */
module Election {
  import opened Options
  import opened RequestQueues
  import opened Executor
  import opened ExecutorInvariants
  import opened ExecutorRuns
  import opened ExecutorFairness

  // ------------------------------------------------------------------ the polls elected

  /** The queue puts up a poll: its delay is shorter than the best so far. */
  predicate PutsUp(e: Exec, s: int, period: int, best: Duration)
    requires s in e.queues
  {
    var q := e.queues[s];
    Scan(q.polls, period, e.current == Some(s), 0, Infinite, q.lastFound).0.Less(best)
  }

  /** The polls elected from the `i`-th queue on, one after the other. */
  function Elected(e: Exec, i: nat, period: int, best: Duration): seq<Command>
    requires i <= |e.keys| && KeysListed(e)
    decreases |e.keys| - i
  {
    if i == |e.keys| || best == Finite(0) then []
    else
      var (e1, best1) := ElectOne(e, e.keys[i], period, best);
      (if PutsUp(e, e.keys[i], period, best) && e1.waiting.Some? then [e1.waiting.value] else [])
      + Elected(e1, i + 1, period, best1)
  }

  /** What an election drops: the poll in the slot and every elected poll but the last. */
  function Dropped(w: Option<Command>, elected: seq<Command>): seq<Command> {
    if elected == [] then []
    else (if w.Some? then [w.value] else []) + elected[..|elected| - 1]
  }

  // ------------------------------------------------------------------ counting commands

  lemma EraseLoad(q: Queues, c: Command)
    requires q.lastFound.Some? && q.lastFound.value < |q.polls|
    ensures LoadOf(c)(q) == LoadOf(c)(EraseFound(q)) + InSlot(Some(q.polls[q.lastFound.value]), c)
  {
    var k := q.lastFound.value;
    assert q.polls == q.polls[..k] + [q.polls[k]] + q.polls[k + 1..];
  }

  /** What one round does to the slot and the queue, written as one change. */
  function Replaced(e: Exec, s: int, period: int, best: Duration): (Queues, Option<Command>)
    requires s in e.queues
  {
    var q := e.queues[s];
    var (delay, found) := Scan(q.polls, period, e.current == Some(s), 0, Infinite, q.lastFound);
    var q1 := q.(lastFound := found);
    if delay.Less(best) && found.Some? && found.value < |q.polls|
    then (EraseFound(q1), Some(q.polls[found.value])) else (q1, e.waiting)
  }

  lemma ElectOneIsPut(e: Exec, s: int, period: int, best: Duration)
    requires KeysOk(e) && s in e.queues
    ensures var (r, _) := ElectOne(e, s, period, best);
      var (q, w) := Replaced(e, s, period, best);
      && KeysOk(r) && r == Put(e, s, q, w).(current := r.current)
      && (PutsUp(e, s, period, best) ==> w.Some?) && (!PutsUp(e, s, period, best) ==> w == e.waiting)
  {
    var q := e.queues[s];
    ScanIsFresh(q.polls, period, e.current == Some(s), 0, Infinite, q.lastFound);
    hide Scan, EraseFound;
  }

  lemma ReplacedLoad(e: Exec, s: int, period: int, best: Duration, d: Command)
    requires s in e.queues
    ensures var (q, w) := Replaced(e, s, period, best);
      LoadOf(d)(q) + InSlot(w, d) ==
      LoadOf(d)(e.queues[s]) + if PutsUp(e, s, period, best) then 0 else InSlot(e.waiting, d)
  {
    var q := e.queues[s];
    var (delay, found) := Scan(q.polls, period, e.current == Some(s), 0, Infinite, q.lastFound);
    ScanIsFresh(q.polls, period, e.current == Some(s), 0, Infinite, q.lastFound);
    if PutsUp(e, s, period, best) { EraseLoad(q.(lastFound := found), d); }
    hide Scan, EraseFound;
  }

  lemma ElectOneCounts(e: Exec, s: int, period: int, best: Duration, d: Command)
    requires KeysOk(e) && s in e.queues
    ensures var (r, _) := ElectOne(e, s, period, best);
      && KeysOk(r) && r.keys == e.keys
      && CountIn(r, d) == CountIn(e, d) - (if PutsUp(e, s, period, best) then InSlot(e.waiting, d) else 0)
      && (if PutsUp(e, s, period, best) then r.waiting.Some? else r.waiting == e.waiting)
  {
    var (r, _) := ElectOne(e, s, period, best);
    var (q, w) := Replaced(e, s, period, best);
    ElectOneIsPut(e, s, period, best);
    ReplacedLoad(e, s, period, best, d);
    hide ElectOne, Replaced, PutsUp;
    PutCount(e, s, q, w, d);
    assert CountIn(r, d) == CountIn(Put(e, s, q, w), d);
  }

  /** How often a command is dropped. */
  function Drops(w: Option<Command>, elected: seq<Command>, d: Command): nat {
    multiset(Dropped(w, elected))[d]
  }

  function Slot(w: Option<Command>): seq<Command> {
    if w.Some? then [w.value] else []
  }

  lemma DroppedNext(w: Option<Command>, x: Command, rest: seq<Command>)
    ensures Dropped(w, [x] + rest) == Slot(w) + Dropped(Some(x), rest)
  {
    var all := [x] + rest;
    if rest == [] {
      assert all[..|all| - 1] == [];
    } else {
      assert all[..|all| - 1] == [x] + rest[..|rest| - 1];
    }
  }

  lemma DroppedStep(w: Option<Command>, x: Command, rest: seq<Command>, d: Command)
    ensures Drops(w, [x] + rest, d) == InSlot(w, d) + Drops(Some(x), rest, d)
  {
    DroppedNext(w, x, rest);
    hide Dropped;
    assert multiset(Slot(w) + Dropped(Some(x), rest)) == multiset(Slot(w)) + multiset(Dropped(Some(x), rest));
  }

  lemma ElectStep(e: Exec, i: nat, period: int, best: Duration)
    requires KeysOk(e) && i < |e.keys| && best != Finite(0)
    ensures var (e1, best1) := ElectOne(e, e.keys[i], period, best);
      && KeysOk(e1) && e1.keys == e.keys && Elect(e, i, period, best) == Elect(e1, i + 1, period, best1)
      && var rest := Elected(e1, i + 1, period, best1);
         if PutsUp(e, e.keys[i], period, best)
         then e1.waiting.Some? && Elected(e, i, period, best) == [e1.waiting.value] + rest
         else e1.waiting == e.waiting && Elected(e, i, period, best) == rest
  {
    ElectOneCounts(e, e.keys[i], period, best, Command(0, false, 0, 0, 0, 0, 0, 0));
    hide ElectOne, PutsUp, CountIn;
    var (e1, best1) := ElectOne(e, e.keys[i], period, best);
    assert [] + Elected(e1, i + 1, period, best1) == Elected(e1, i + 1, period, best1);
  }

  lemma ElectEnds(e: Exec, i: nat, period: int, best: Duration, d: Command)
    requires KeysOk(e) && i <= |e.keys| && (i == |e.keys| || best == Finite(0))
    ensures Elect(e, i, period, best) == e && Elected(e, i, period, best) == [] && Drops(e.waiting, [], d) == 0
  {
  }

  lemma {:induction false} ElectKeepsKeys(e: Exec, i: nat, period: int, best: Duration)
    requires KeysOk(e) && i <= |e.keys|
    ensures KeysOk(Elect(e, i, period, best))
    decreases |e.keys| - i
  {
    if i < |e.keys| && best != Finite(0) {
      var (e1, best1) := ElectOne(e, e.keys[i], period, best);
      ElectStep(e, i, period, best);
      ElectKeepsKeys(e1, i + 1, period, best1);
    }
  }

  /** What is in the slot after some polls were elected. */
  function SlotAfter(w: Option<Command>, elected: seq<Command>): Option<Command> {
    if elected == [] then w else Some(elected[|elected| - 1])
  }

  lemma SlotAfterNext(w: Option<Command>, x: Command, rest: seq<Command>)
    ensures SlotAfter(w, [x] + rest) == SlotAfter(Some(x), rest)
  {
  }

  /** The last poll elected is in the slot. */
  lemma {:induction false} LastElectedWaits(e: Exec, i: nat, period: int, best: Duration)
    requires KeysOk(e) && i <= |e.keys|
    ensures Elect(e, i, period, best).waiting == SlotAfter(e.waiting, Elected(e, i, period, best))
    decreases |e.keys| - i
  {
    if i < |e.keys| && best != Finite(0) {
      hide ElectOne, PutsUp, Elect, Elected, KeysOk, SlotAfter;
      var (e1, best1) := ElectOne(e, e.keys[i], period, best);
      ElectStep(e, i, period, best);
      LastElectedWaits(e1, i + 1, period, best1);
      if PutsUp(e, e.keys[i], period, best) {
        SlotAfterNext(e.waiting, e1.waiting.value, Elected(e1, i + 1, period, best1));
      }
    }
  }

  lemma {:induction false} ElectCounts(e: Exec, i: nat, period: int, best: Duration, d: Command)
    requires KeysOk(e) && i <= |e.keys|
    ensures KeysOk(Elect(e, i, period, best))
    ensures CountIn(Elect(e, i, period, best), d) == CountIn(e, d) - Drops(e.waiting, Elected(e, i, period, best), d)
    decreases |e.keys| - i
  {
    assert KeysListed(e);
    hide ElectOne, CountIn, KeysOk, PutsUp, Elect, Elected, Drops;
    ElectKeepsKeys(e, i, period, best);
    if i == |e.keys| || best == Finite(0) {
      ElectEnds(e, i, period, best, d);
    } else {
      var s := e.keys[i];
      var (e1, best1) := ElectOne(e, s, period, best);
      ElectStep(e, i, period, best);
      ElectOneCounts(e, s, period, best, d);
      ElectCounts(e1, i + 1, period, best1, d);
      RoundDrops(e.waiting, e1.waiting, PutsUp(e, s, period, best),
                 Elected(e, i, period, best), Elected(e1, i + 1, period, best1), d);
    }
  }

  lemma RoundDrops(w: Option<Command>, w1: Option<Command>, up: bool, all: seq<Command>, rest: seq<Command>, d: Command)
    requires if up then w1.Some? && all == [w1.value] + rest else w1 == w && all == rest
    ensures Drops(w, all, d) == Drops(w1, rest, d) + if up then InSlot(w, d) else 0
  {
    if up { DroppedStep(w, w1.value, rest, d); }
    hide Drops;
  }

  // ------------------------------------------------------------------ starting on polls

  /** The polls elected when an idle executor starts on new polls. */
  function ElectedAtStart(e: Exec, first: int, period: int): seq<Command>
    requires KeysListed(e)
  {
    Elected(ResetCounter(e.(current := Some(first))), 0, period, Infinite)
  }

  /** Starting drops every elected poll but the last; all other commands stay, in the slot or in a queue. */
  lemma StartDrops(e: Exec, first: int, period: int, d: Command)
    requires KeysOk(e) && e.waiting.None? && first in e.queues
    ensures var r := StartPolls(e, first, period);
      && KeysOk(r)
      && CountIn(r, d) == CountIn(e, d) - Drops(None, ElectedAtStart(e, first, period), d)
  {
    var e0 := ResetCounter(e.(current := Some(first)));
    var e1 := Elect(e0, 0, period, Infinite);
    assert KeysOk(e0) && CountIn(e0, d) == CountIn(e, d);
    ElectCounts(e0, 0, period, Infinite, d);
    hide Elect, Elected, Drops, CountIn;
    if e1.waiting.None? && CanPop(e1) {
      var s := e1.current.value;
      assert PopCurrent(e1) == Put(e1, s, PopNext(e1.queues[s]), Some(Popped(e1.queues[s])));
      PopCounts(e1, s, PopCurrent(e1));
    }
  }

  lemma NothingDroppedIfOneElected(e: Exec, first: int, period: int)
    requires KeysOk(e) && e.waiting.None? && first in e.queues
    ensures var r := StartPolls(e, first, period);
      KeysOk(r) && ((forall d :: CountIn(r, d) == CountIn(e, d)) <==> |ElectedAtStart(e, first, period)| <= 1)
  {
    var r := StartPolls(e, first, period);
    var el := ElectedAtStart(e, first, period);
    StartDrops(e, first, period, Command(0, false, 0, 0, 0, 0, 0, 0));
    forall d ensures KeysOk(r) && CountIn(r, d) == CountIn(e, d) - Drops(None, el, d) {
      StartDrops(e, first, period, d);
    }
    hide StartPolls, ElectedAtStart, CountIn, KeysOk;
    if 1 < |el| {
      assert Dropped(None, el)[0] == el[0];
      assert el[0] in multiset(Dropped(None, el));
      assert CountIn(r, el[0]) != CountIn(e, el[0]);
    }
  }

  // ------------------------------------------------------------------ when nothing is dropped

  /** The delay that a queue offers, as it is before the election: a current queue (`own`) leaves the delays
      for the first command to a slave out of account. */
  function Offer(q: Queues, own: bool, period: int): Duration {
    Scan(q.polls, period, own, 0, Infinite, q.lastFound).0
  }

  function OfferAt(e: Exec, k: nat, first: int, period: int): Duration
    requires KeysListed(e) && k < |e.keys|
  {
    Offer(e.queues[e.keys[k]], e.keys[k] == first, period)
  }

  /** The `k`-th queue is the first from the `i`-th on that offers a delay. */
  predicate FirstToOffer(e: Exec, first: int, period: int, i: nat, k: nat)
    requires KeysListed(e)
  {
    i <= k < |e.keys| && OfferAt(e, k, first, period).Finite? &&
    forall h | i <= h < k :: OfferAt(e, h, first, period).Infinite?
  }

  /** Some queue from the `i`-th on offers less than `best`. */
  predicate Undercuts(e: Exec, period: int, i: nat, best: Duration)
    requires KeysListed(e)
  {
    exists j | i <= j < |e.keys| :: Offer(e.queues[e.keys[j]], false, period).Less(best)
  }

  /** A queue after the first that offers a delay offers a shorter one. */
  ghost predicate Contested(e: Exec, first: int, period: int, i: nat)
    requires KeysListed(e)
  {
    exists k: nat :: FirstToOffer(e, first, period, i, k) && Undercuts(e, period, k + 1, OfferAt(e, k, first, period))
  }

  lemma OfferIsDelayed(q: Queues, own: bool, period: int)
    ensures Offer(q, own, period).Finite? ==> Offer(q, own, period).t != 0 && Delayed(q)
  {
    ScanIsFresh(q.polls, period, own, 0, Infinite, q.lastFound);
    hide Scan;
  }

  /** One round: the queue that puts up a poll becomes the current one and sets the best delay; later queues
      are as they were. */
  lemma RoundKeepsLater(e: Exec, i: nat, period: int, best: Duration)
    requires KeysOk(e) && i < |e.keys|
    ensures var s := e.keys[i];
      var (e1, best1) := ElectOne(e, s, period, best);
      var offer := Offer(e.queues[s], e.current == Some(s), period);
      && KeysOk(e1) && e1.keys == e.keys
      && SameFrom(e, e1, i + 1)
      && (PutsUp(e, s, period, best) <==> offer.Less(best))
      && (if offer.Less(best) then e1.current == Some(s) && best1 == offer
          else e1.current == e.current && best1 == best)
  {
    ElectOneIsPut(e, e.keys[i], period, best);
    hide Scan, EraseFound, Replaced;
  }

  /** The queues from the `i`-th on are the same. */
  predicate SameFrom(e: Exec, e1: Exec, i: nat)
    requires KeysListed(e) && KeysListed(e1)
  {
    e1.keys == e.keys && forall j | i <= j < |e.keys| :: e1.queues[e.keys[j]] == e.queues[e.keys[j]]
  }

  lemma UndercutsSame(e: Exec, e1: Exec, period: int, i: nat, best: Duration)
    requires KeysListed(e) && KeysListed(e1) && SameFrom(e, e1, i)
    ensures Undercuts(e1, period, i, best) == Undercuts(e, period, i, best)
  {
    hide Offer;
  }

  lemma FirstToOfferSame(e: Exec, e1: Exec, first: int, period: int, i: nat, k: nat)
    requires KeysListed(e) && KeysListed(e1) && SameFrom(e, e1, i)
    ensures FirstToOffer(e1, first, period, i, k) == FirstToOffer(e, first, period, i, k)
    ensures i <= k < |e.keys| ==> OfferAt(e1, k, first, period) == OfferAt(e, k, first, period)
  {
    hide Offer;
    assert forall h | i <= h < |e.keys| :: OfferAt(e1, h, first, period) == OfferAt(e, h, first, period);
    hide OfferAt;
  }

  lemma ContestedSame(e: Exec, e1: Exec, first: int, period: int, i: nat)
    requires KeysListed(e) && KeysListed(e1) && SameFrom(e, e1, i)
    ensures Contested(e1, first, period, i) == Contested(e, first, period, i)
  {
    forall k: nat ensures FirstToOffer(e1, first, period, i, k) == FirstToOffer(e, first, period, i, k) {
      FirstToOfferSame(e, e1, first, period, i, k);
    }
    forall k: nat | FirstToOffer(e, first, period, i, k)
      ensures OfferAt(e1, k, first, period) == OfferAt(e, k, first, period)
      ensures Undercuts(e1, period, k + 1, OfferAt(e, k, first, period)) ==
              Undercuts(e, period, k + 1, OfferAt(e, k, first, period))
    {
      FirstToOfferSame(e, e1, first, period, i, k);
      UndercutsSame(e, e1, period, k + 1, OfferAt(e, k, first, period));
    }
    hide Undercuts, OfferAt, FirstToOffer;
    if Contested(e, first, period, i) {
      var k: nat :| FirstToOffer(e, first, period, i, k) && Undercuts(e, period, k + 1, OfferAt(e, k, first, period));
      assert FirstToOffer(e1, first, period, i, k);
    }
    if Contested(e1, first, period, i) {
      var k: nat :|
        FirstToOffer(e1, first, period, i, k) && Undercuts(e1, period, k + 1, OfferAt(e1, k, first, period));
      assert FirstToOffer(e, first, period, i, k);
    }
  }

  /** Once a queue before the `i`-th has become the current one, another poll is elected exactly if some
      queue offers less than the best delay so far. */
  lemma {:induction false} ElectedLater(e: Exec, i: nat, period: int, best: Duration)
    requires KeysOk(e) && i <= |e.keys| && best != Finite(0)
    requires forall j | i <= j < |e.keys| :: e.current != Some(e.keys[j])
    ensures Elected(e, i, period, best) != [] <==> Undercuts(e, period, i, best)
    decreases |e.keys| - i
  {
    if i < |e.keys| {
      hide ElectOne, PutsUp, Elected, Offer;
      var (e1, best1) := ElectOne(e, e.keys[i], period, best);
      ElectStep(e, i, period, best);
      RoundKeepsLater(e, i, period, best);
      if !Offer(e.queues[e.keys[i]], false, period).Less(best) {
        ElectedLater(e1, i + 1, period, best);
        UndercutsSame(e, e1, period, i + 1, best);
      }
    }
  }

  lemma ContestedNext(e: Exec, first: int, period: int, i: nat)
    requires KeysListed(e) && i < |e.keys|
    ensures Contested(e, first, period, i) <==>
      if OfferAt(e, i, first, period).Finite? then Undercuts(e, period, i + 1, OfferAt(e, i, first, period))
      else Contested(e, first, period, i + 1)
  {
    hide OfferAt, Undercuts;
    if OfferAt(e, i, first, period).Finite? {
      assert FirstToOffer(e, first, period, i, i);
    } else {
      assert forall k: nat :: FirstToOffer(e, first, period, i, k) <==> FirstToOffer(e, first, period, i + 1, k);
    }
  }

  /** Before anything is elected, more than one poll will be exactly if the first offer is undercut. */
  lemma {:induction false} ElectedTwice(e: Exec, first: int, i: nat, period: int)
    requires KeysOk(e) && i <= |e.keys| && e.current == Some(first)
    ensures 1 < |Elected(e, i, period, Infinite)| <==> Contested(e, first, period, i)
    decreases |e.keys| - i
  {
    if i == |e.keys| {
      assert Elected(e, i, period, Infinite) == [] && !Contested(e, first, period, i);
    } else {
      var s := e.keys[i];
      assert OfferAt(e, i, first, period) == Offer(e.queues[s], e.current == Some(s), period);
      assert KeysListed(e) && forall j | i < j < |e.keys| :: e.keys[j] != s;
      hide ElectOne, PutsUp, Elected, OfferAt, Offer, Contested, Undercuts, SameFrom, KeysOk;
      var (e1, best1) := ElectOne(e, e.keys[i], period, Infinite);
      ElectStep(e, i, period, Infinite);
      RoundKeepsLater(e, i, period, Infinite);
      ContestedNext(e, first, period, i);
      if OfferAt(e, i, first, period).Finite? {
        OfferIsDelayed(e.queues[e.keys[i]], e.keys[i] == first, period);
        ElectedLater(e1, i + 1, period, best1);
        UndercutsSame(e, e1, period, i + 1, best1);
      } else {
        ElectedTwice(e1, first, i + 1, period);
        ContestedSame(e, e1, first, period, i + 1);
      }
    }
  }

  /** Nothing is dropped exactly if no queue after the first that offers a delay offers a shorter one. */
  lemma NothingDroppedExactly(e: Exec, first: int, period: int)
    requires KeysOk(e) && e.waiting.None? && first in e.queues
    ensures var r := StartPolls(e, first, period);
      KeysOk(r) && ((forall d :: CountIn(r, d) == CountIn(e, d)) <==> !Contested(e, first, period, 0))
  {
    var e0 := ResetCounter(e.(current := Some(first)));
    NothingDroppedIfOneElected(e, first, period);
    ElectedTwice(e0, first, 0, period);
    ContestedSame(e, e0, first, period, 0);
    hide StartPolls, CountIn, Elected, Contested;
  }

  predicate Delayed(q: Queues) {
    exists k | 0 <= k < |q.polls| :: q.polls[k].delay != 0 || q.polls[k].firstDelay != 0
  }

  /** At most one queue holds a poll with a delay. */
  predicate OneDelayed(e: Exec)
    requires KeysListed(e)
  {
    forall j, k | 0 <= j < k < |e.keys| :: !(Delayed(e.queues[e.keys[j]]) && Delayed(e.queues[e.keys[k]]))
  }

  lemma OneDelayedIsUncontested(e: Exec, first: int, period: int)
    requires KeysListed(e) && OneDelayed(e)
    ensures !Contested(e, first, period, 0)
  {
    hide Offer, Delayed;
    if Contested(e, first, period, 0) {
      var k: nat :| FirstToOffer(e, first, period, 0, k) && Undercuts(e, period, k + 1, OfferAt(e, k, first, period));
      var j :| k + 1 <= j < |e.keys| && Offer(e.queues[e.keys[j]], false, period).Less(OfferAt(e, k, first, period));
      OfferIsDelayed(e.queues[e.keys[k]], e.keys[k] == first, period);
      OfferIsDelayed(e.queues[e.keys[j]], false, period);
    }
  }

  /** If at most one queue holds polls with a delay, starting drops nothing. */
  lemma OneDelayedQueueDropsNothing(e: Exec, first: int, period: int, d: Command)
    requires KeysOk(e) && e.waiting.None? && first in e.queues && OneDelayed(e)
    ensures KeysOk(StartPolls(e, first, period)) && CountIn(StartPolls(e, first, period), d) == CountIn(e, d)
  {
    OneDelayedIsUncontested(e, first, period);
    hide StartPolls, CountIn, Contested;
    NothingDroppedExactly(e, first, period);
  }

  // ------------------------------------------------------------------ an idle executor is given polls

  predicate Ordered(regs: PollMap) {
    forall i, j | 0 <= i < j < |regs| :: regs[i].0 < regs[j].0
  }

  /** The queues of the slaves below `s` hold no polls. */
  predicate NoPollsBelow(e: Exec, s: int) {
    forall k | k in e.queues && k < s :: e.queues[k].polls == []
  }

  lemma {:induction false} InsertAbove(e: Exec, regs: PollMap, s: int)
    requires NoPollsBelow(e, s) && forall i | 0 <= i < |regs| :: s <= regs[i].0
    ensures NoPollsBelow(InsertPolls(e, regs), s)
    decreases |regs|
  {
    if regs != [] { InsertAbove(WithQueue(e, regs[0].0, AddPolls(QueueOf(e, regs[0].0), regs[0].1)), regs[1..], s); }
  }

  /** The first queue that gets polls is the first one with polls. */
  lemma {:induction false} FirstAddedIsFirst(e: Exec, regs: PollMap)
    requires Ordered(regs) && FirstAdded(regs).Some? && NoPollsBelow(e, FirstAdded(regs).value)
    ensures NoPollsBelow(InsertPolls(e, regs), FirstAdded(regs).value)
    decreases |regs|
  {
    if regs[0].1 != [] {
      InsertAbove(e, regs, regs[0].0);
    } else {
      assert AddPolls(QueueOf(e, regs[0].0), []) == QueueOf(e, regs[0].0);
      FirstAddedIsFirst(WithQueue(e, regs[0].0, QueueOf(e, regs[0].0)), regs[1..]);
    }
  }

  /** A queue after the first that offers a delay offers a shorter one, where only the delays of the first
      queue with polls leave the first command out of account. */
  ghost predicate UndercutAfter(e: Exec, first: int, period: int)
    requires KeysListed(e)
  {
    exists k: nat, j: nat ::
      && FirstToOffer(e, first, period, 0, k) && k < j < |e.keys|
      && OfferAt(e, j, first, period).Less(OfferAt(e, k, first, period))
  }

  lemma OfferFromFirst(e: Exec, first: int, period: int, k: nat)
    requires KeysOk(e) && NoPollsBelow(e, first) && k < |e.keys| && OfferAt(e, k, first, period).Finite?
    ensures first <= e.keys[k]
    ensures forall j | k < j < |e.keys| :: OfferAt(e, j, first, period) == Offer(e.queues[e.keys[j]], false, period)
  {
    OfferIsDelayed(e.queues[e.keys[k]], e.keys[k] == first, period);
    hide Offer;
  }

  lemma ContestedIsUndercut(e: Exec, first: int, period: int)
    requires KeysOk(e) && NoPollsBelow(e, first)
    ensures Contested(e, first, period, 0) <==> UndercutAfter(e, first, period)
  {
    forall k: nat | FirstToOffer(e, first, period, 0, k)
      ensures forall j | k < j < |e.keys| :: OfferAt(e, j, first, period) == Offer(e.queues[e.keys[j]], false, period)
    {
      OfferFromFirst(e, first, period, k);
    }
    hide OfferAt, KeysOk, NoPollsBelow, Offer;
    if Contested(e, first, period, 0) {
      var k: nat :| FirstToOffer(e, first, period, 0, k) && Undercuts(e, period, k + 1, OfferAt(e, k, first, period));
      var j: nat :| k < j < |e.keys| && Offer(e.queues[e.keys[j]], false, period).Less(OfferAt(e, k, first, period));
      assert OfferAt(e, j, first, period).Less(OfferAt(e, k, first, period));
    }
    if UndercutAfter(e, first, period) {
      var k: nat, j: nat :| FirstToOffer(e, first, period, 0, k) && k < j < |e.keys| &&
        OfferAt(e, j, first, period).Less(OfferAt(e, k, first, period));
      assert Offer(e.queues[e.keys[j]], false, period).Less(OfferAt(e, k, first, period));
    }
  }

  /** An idle executor that is given polls queues them all and starts on them. */
  lemma IdleStarts(e: Exec, regs: PollMap, initialPoll: bool, now: int)
    requires KeysOk(e) && AllDone(e) && Ordered(regs) && FirstAdded(regs).Some?
    ensures var queued := InsertPolls(e.(initialPoll := e.initialPoll || initialPoll), regs);
      var first := FirstAdded(regs).value;
      && KeysOk(queued) && queued.waiting.None? && first in queued.queues && NoPollsBelow(queued, first)
      && WithPollList(e, regs, initialPoll, now) == StartPolls(queued, first, now - e.lastTime)
  {
    var e0 := e.(initialPoll := e.initialPoll || initialPoll);
    var first := FirstAdded(regs).value;
    assert NoPollsBelow(e0, first);
    InsertPollsKeepsKeys(e0, regs);
    FirstAddedIsFirst(e0, regs);
    InsertPollsFills(e0, regs, first);
    InsertPollsFrame(e0, regs);
    hide InsertPolls, StartPolls, FirstAdded, NoPollsBelow;
  }

  lemma StartDropsNothingExactly(e: Exec, first: int, period: int)
    requires KeysOk(e) && e.waiting.None? && first in e.queues && NoPollsBelow(e, first)
    ensures var r := StartPolls(e, first, period);
      KeysOk(r) && ((forall d :: CountIn(r, d) == CountIn(e, d)) <==> !UndercutAfter(e, first, period))
  {
    assert KeysListed(e);
    hide StartPolls, CountIn, Contested, UndercutAfter, NoPollsBelow, KeysOk;
    ContestedIsUndercut(e, first, period);
    NothingDroppedExactly(e, first, period);
  }

  /** An idle executor that is given polls in the order of their slaves drops none exactly if, with all of them
      queued, no queue after the first that offers a delay offers a shorter one. */
  lemma IdleDropsNothingExactly(e: Exec, regs: PollMap, initialPoll: bool, now: int)
    requires KeysOk(e) && AllDone(e) && Ordered(regs) && FirstAdded(regs).Some?
    ensures var queued := InsertPolls(e.(initialPoll := e.initialPoll || initialPoll), regs);
      var r := WithPollList(e, regs, initialPoll, now);
      && KeysOk(queued) && KeysOk(r)
      && ((forall d :: CountIn(r, d) == CountIn(queued, d)) <==>
          !UndercutAfter(queued, FirstAdded(regs).value, now - e.lastTime))
  {
    hide WithPollList, InsertPolls, AllDone, FirstAdded, StartPolls, CountIn, UndercutAfter;
    IdleStarts(e, regs, initialPoll, now);
    var queued := InsertPolls(e.(initialPoll := e.initialPoll || initialPoll), regs);
    StartDropsNothingExactly(queued, FirstAdded(regs).value, now - e.lastTime);
  }

  // ------------------------------------------------------------------ a poll is dropped

  /** Two polls of two slaves, the later one with a shorter delay: the earlier one is neither in the slot nor
      in a queue after a new executor was given both. */
  lemma EarlierPollIsDropped(time: int, now: int, p1: Command, p2: Command)
    requires !p1.OneShot() && !p2.OneShot() && p1.slave < p2.slave
    requires 0 < ElectionDelay(p2, false) < p1.delay
    ensures var r := WithPollList(ExecutorRuns.Fresh(time), [(p1.slave, [p1]), (p2.slave, [p2])], false, now);
      KeysOk(r) && CountIn(r, p1) == 0 && r.waiting == Some(p2)
  {
    var e2 := TwoQueues(time, [p1], [p2], p1.slave, p2.slave);
    var e3 := ResetCounter(e2.(current := Some(p1.slave)));
    hide WithPollList, Elect, CountIn;
    BothElected(e3, p1, p2, now - time);
    StartsWith(time, now, p1, p2);
    var r := Elect(e3, 0, now - time, Infinite);
    assert KeysOk(r) && r.waiting == Some(p2) && forall k | k in r.queues :: r.queues[k].Empty();
    EmptyQueuesCount(r, p1);
  }

  lemma StartsWith(time: int, now: int, p1: Command, p2: Command)
    requires p1.slave < p2.slave && 0 < ElectionDelay(p2, false) < p1.delay
    ensures var e2 := TwoQueues(time, [p1], [p2], p1.slave, p2.slave);
      && KeysListed(e2)
      && WithPollList(ExecutorRuns.Fresh(time), [(p1.slave, [p1]), (p2.slave, [p2])], false, now) ==
         Elect(ResetCounter(e2.(current := Some(p1.slave))), 0, now - time, Infinite)
  {
    var e2 := TwoQueues(time, [p1], [p2], p1.slave, p2.slave);
    hide InsertPolls, Elect, ElectOne;
    BothQueued(time, p1, p2);
    BothElected(ResetCounter(e2.(current := Some(p1.slave))), p1, p2, now - time);
    assert AllDone(ExecutorRuns.Fresh(time)) && FirstAdded([(p1.slave, [p1]), (p2.slave, [p2])]) == Some(p1.slave);
    hide AllDone, PollDone, FirstAdded;
  }

  /** A new executor with the queues of two slaves. */
  function TwoQueues(time: int, polls1: seq<Command>, polls2: seq<Command>, s1: int, s2: int): Exec {
    ExecutorRuns.Fresh(time).(keys := [s1, s2], queues := map[s1 := NEW.(polls := polls1), s2 := NEW.(polls := polls2)])
  }

  lemma BothElected(e: Exec, p1: Command, p2: Command, period: int)
    requires p1.slave < p2.slave && 0 < ElectionDelay(p2, false) < p1.delay && e.current == Some(p1.slave)
    requires e.keys == [p1.slave, p2.slave]
    requires e.queues == map[p1.slave := NEW.(polls := [p1]), p2.slave := NEW.(polls := [p2])]
    ensures KeysListed(e)
    ensures var done := NEW.(lastFound := Some(0));
      Elect(e, 0, period, Infinite) ==
      e.(queues := map[p1.slave := done, p2.slave := done], waiting := Some(p2), current := Some(p2.slave))
  {
    var done := NEW.(lastFound := Some(0));
    var e1 := SetQ(e, p1.slave, done).(waiting := Some(p1), current := Some(p1.slave));
    var e2 := SetQ(e1, p2.slave, done).(waiting := Some(p2), current := Some(p2.slave));
    ElectSingle(e, p1, period, Infinite);
    ElectSingle(e1, p2, period, Finite(p1.delay));
    assert e2.queues == map[p1.slave := done, p2.slave := done];
    assert e.keys[0] == p1.slave && e1.keys[1] == p2.slave && |e2.keys| == 2;
    hide ElectOne, SetQ, Elect;
    ElectUnfolds(e, 0, period, Infinite);
    ElectUnfolds(e1, 1, period, Finite(p1.delay));
    ElectUnfolds(e2, 2, period, Finite(ElectionDelay(p2, false)));
  }

  lemma ElectUnfolds(e: Exec, i: nat, period: int, best: Duration)
    requires KeysListed(e) && i <= |e.keys| && best != Finite(0)
    ensures i == |e.keys| ==> Elect(e, i, period, best) == e
    ensures i < |e.keys| ==>
      var (e1, best1) := ElectOne(e, e.keys[i], period, best);
      KeysListed(e1) && e1.keys == e.keys && Elect(e, i, period, best) == Elect(e1, i + 1, period, best1)
  {
  }

  /** A queue with a single poll that has a delay. */
  lemma ElectSingle(e: Exec, p: Command, period: int, best: Duration)
    requires p.slave in e.queues && e.queues[p.slave] == NEW.(polls := [p])
    requires var delay := ElectionDelay(p, e.current == Some(p.slave)); delay != 0 && Finite(delay).Less(best)
    ensures ElectOne(e, p.slave, period, best) ==
      (SetQ(e, p.slave, NEW.(lastFound := Some(0))).(waiting := Some(p), current := Some(p.slave)),
       Finite(ElectionDelay(p, e.current == Some(p.slave))))
  {
    ScanOfOne(p, period, e.current == Some(p.slave));
    hide Scan;
    var q := NEW.(polls := [p], lastFound := Some(0));
    assert EraseFound(q) == NEW.(lastFound := Some(0)) by { assert [p][..0] + [p][1..] == []; }
    hide EraseFound;
  }

  lemma ScanOfOne(p: Command, period: int, ignoreFirst: bool)
    requires ElectionDelay(p, ignoreFirst) != 0
    ensures Scan([p], period, ignoreFirst, 0, Infinite, None) == (Finite(ElectionDelay(p, ignoreFirst)), Some(0))
  {
  }

  lemma BothQueued(time: int, p1: Command, p2: Command)
    requires p1.slave < p2.slave
    ensures InsertPolls(ExecutorRuns.Fresh(time), [(p1.slave, [p1]), (p2.slave, [p2])]) ==
      TwoQueues(time, [p1], [p2], p1.slave, p2.slave)
  {
    var regs := [(p1.slave, [p1]), (p2.slave, [p2])];
    var e0 := ExecutorRuns.Fresh(time);
    AddFirst(p1);
    AddFirst(p2);
    hide AddPolls;
    var e1 := WithQueue(e0, p1.slave, NEW.(polls := [p1]));
    assert e1 == e0.(keys := [p1.slave], queues := map[p1.slave := NEW.(polls := [p1])]);
    assert InsertSorted([p1.slave], p2.slave) == [p1.slave, p2.slave];
    var e2 := WithQueue(e1, p2.slave, NEW.(polls := [p2]));
    assert regs[1..] == [(p2.slave, [p2])] && regs[1..][1..] == [];
    assert InsertPolls(e2, regs[1..][1..]) == e2;
    assert InsertPolls(e1, regs[1..]) == e2;
  }

  lemma AddFirst(p: Command)
    ensures AddPolls(NEW, [p]) == NEW.(polls := [p])
  {
    assert [p][1..] == [] && [] + [p] == [p];
  }

  lemma EmptyQueuesCount(e: Exec, d: Command)
    requires KeysOk(e) && e.waiting != Some(d) && forall k | k in e.queues :: e.queues[k].Empty()
    ensures CountIn(e, d) == 0
  {
    forall k | k in e.queues ensures LoadOf(d)(e.queues[k]) == 0 { assert e.queues[k].Empty(); }
    TotalZero(e.keys, e.queues, LoadOf(d));
  }
}
