/** The circular search for the next queue, one round of its loop at a time: when it ends. */
module QueueSearch {
  import opened Options
  import opened RequestQueues
  import opened Executor

  /** The loop goes on at a position, which may be the end of the map, or has stopped at a queue. */
  datatype Search = Going(n: nat) | Stopped(n: nat)

  /** One round, for the current queue at position `p`. */
  function Round(e: Exec, p: nat, n: nat): (s: Search)
    requires KeysListed(e) && p < |e.keys| && n <= |e.keys|
    ensures s.n <= |e.keys|
  {
    if n == p then Stopped(n)
    else
      var m := if n == |e.keys| then 0 else n;
      if !e.queues[e.keys[m]].Empty() then Stopped(m) else Going(m + 1)
  }

  function After(e: Exec, p: nat, rounds: nat): (s: Search)
    requires KeysListed(e) && p < |e.keys|
    ensures s.n <= |e.keys|
  {
    if rounds == 0 then Going(p + 1)
    else
      var s := After(e, p, rounds - 1);
      if s.Stopped? then s else Round(e, p, s.n)
  }

  ghost predicate Ends(e: Exec, p: nat)
    requires KeysListed(e) && p < |e.keys|
  {
    exists rounds: nat :: After(e, p, rounds).Stopped?
  }

  predicate BusyAt(e: Exec, b: nat)
    requires KeysListed(e)
  {
    b < |e.keys| && !e.queues[e.keys[b]].Empty()
  }

  /** Rounds left to position `b`. */
  function Way(e: Exec, n: nat, b: nat): int {
    if n <= b then b - n else b + |e.keys| + 1 - n
  }

  lemma {:induction false} ReachesEnd(e: Exec, p: nat, b: nat, rounds: nat)
    requires KeysListed(e) && p < |e.keys| && b < |e.keys| && (BusyAt(e, b) || b == p != 0)
    ensures Ends(e, p)
    decreases if After(e, p, rounds).Stopped? then 0 else Way(e, After(e, p, rounds).n, b) + 1
  {
    var s := After(e, p, rounds);
    if s.Going? {
      assert After(e, p, rounds + 1) == Round(e, p, s.n);
      ReachesEnd(e, p, b, rounds + 1);
    }
  }

  lemma {:induction false} GoesRoundForEver(e: Exec, rounds: nat)
    requires KeysListed(e) && 0 < |e.keys| && forall b: nat :: !BusyAt(e, b)
    ensures After(e, 0, rounds).Going? && 0 < After(e, 0, rounds).n
  {
    if rounds != 0 {
      GoesRoundForEver(e, rounds - 1);
      var n := After(e, 0, rounds - 1).n;
      assert !BusyAt(e, if n == |e.keys| then 0 else n);
    }
  }

  /** The search ends exactly if some queue is busy or the current queue is not the first. */
  lemma EndsExactly(e: Exec, p: nat)
    requires KeysListed(e) && p < |e.keys|
    ensures Ends(e, p) <==> p != 0 || exists b: nat :: BusyAt(e, b)
  {
    if b: nat :| BusyAt(e, b) {
      ReachesEnd(e, p, b, 0);
    } else if p != 0 {
      ReachesEnd(e, p, p, 0);
    } else {
      forall rounds: nat ensures !After(e, p, rounds).Stopped? { GoesRoundForEver(e, rounds); }
    }
  }

  /** What the executor demands of its caller is just that, when nothing is in the slot. */
  lemma SearchEndsMeansEnds(e: Exec)
    requires KeysOk(e) && e.waiting.None? && e.current.Some?
    ensures SearchEnds(e) <==> Ends(e, IndexOf(e.keys, e.current.value))
  {
    var p := IndexOf(e.keys, e.current.value);
    EndsExactly(e, p);
    if b: nat :| BusyAt(e, b) {
      assert !AllDone(e);
    } else {
      forall k | k in e.queues ensures e.queues[k].Empty() {
        assert !BusyAt(e, IndexOf(e.keys, k));
      }
    }
  }
}
