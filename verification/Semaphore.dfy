/** The semaphore that pairs with the queue: a counter on top of a kernel semaphore, with one waiter. */
module Semaphore {

  /** The source passes a timeout in microseconds: negative for ever, zero not at all. */
  datatype Timeout = Forever | Instant | Timed

  datatype WaitResult = NoWait | Acquired | TimedOut

  /** Program counter inside `tryWait` or `wait`. `retry` says whether `wait` follows a failed `tryWait`. */
  datatype Waiter =
    | WIdle(last: WaitResult)
    | WProbe(retry: bool, timeout: Timeout)
    | WTake
    | WDecrement(timeout: Timeout)
    | WKernel(timeout: Timeout)
    | WRestore
    | WRetake
    | WTryKernel

  datatype Poster = SIdle | SAdd(n: nat) | SKernel

  /** `count` is `m_count`, `kernel` the value of `m_sema`; `posted` and `acquired` are history: the
      number of signals given and of waits that succeeded. */
  datatype Sema = Sema(count: int, kernel: nat, waiter: Waiter, poster: Poster, posted: nat, acquired: nat)

  const INITIAL := Sema(0, 0, WIdle(NoWait), SIdle, 0, 0)

  datatype Label =
    | CallSignal(n: nat)
    | StepSignal
    | CallWait(retry: bool, timeout: Timeout)
    | StepWait
    | ExpireWait

  predicate Enabled(s: Sema, l: Label) {
    match l
    case CallSignal(_) => s.poster.SIdle?
    case StepSignal => !s.poster.SIdle?
    case CallWait(_, _) => s.waiter.WIdle?
    // a kernel wait returns true only by taking a unit, and otherwise blocks or expires
    case StepWait => !s.waiter.WIdle? && (s.waiter.WKernel? ==> 0 < s.kernel)
    case ExpireWait => s.waiter.WKernel?
  }

  function Apply(s: Sema, l: Label): Sema
    requires Enabled(s, l)
  {
    match l
    case CallSignal(n) => s.(poster := SAdd(n))
    case StepSignal => StepPoster(s)
    case CallWait(retry, timeout) => s.(waiter := WProbe(retry, timeout))
    case StepWait => StepWaiter(s)
    case ExpireWait => s.(waiter := WRestore)
  }

  function StepPoster(s: Sema): Sema
    requires !s.poster.SIdle?
  {
    match s.poster
    case SAdd(n) =>
      s.(count := s.count + n, posted := s.posted + n, poster := if s.count < 0 then SKernel else SIdle)
    case SKernel => s.(kernel := s.kernel + 1, poster := SIdle)
  }

  function Acquire(s: Sema): Sema {
    s.(waiter := WIdle(Acquired), acquired := s.acquired + 1)
  }

  function StepWaiter(s: Sema): Sema
    requires !s.waiter.WIdle? && (s.waiter.WKernel? ==> 0 < s.kernel)
  {
    match s.waiter
    case WProbe(retry, timeout) =>
      if 0 < s.count then s.(waiter := WTake)
      else if retry then s.(waiter := WDecrement(timeout))
      else s.(waiter := WIdle(TimedOut))
    case WTake => Acquire(s.(count := s.count - 1))
    case WDecrement(timeout) =>
      var s1 := s.(count := s.count - 1);
      if 0 < s.count then Acquire(s1)
      else if timeout.Instant? then s1.(waiter := WRestore)
      else s1.(waiter := WKernel(timeout))
    case WKernel(_) => Acquire(s.(kernel := s.kernel - 1))
    case WRestore =>
      var s1 := s.(count := s.count + 1);
      if s.count < 0 then s1.(waiter := WIdle(TimedOut)) else s1.(waiter := WRetake)
    case WRetake =>
      var s1 := s.(count := s.count - 1);
      if 0 < s.count then s1.(waiter := WTryKernel) else s1.(waiter := WRestore)
    case WTryKernel =>
      if 0 < s.kernel then Acquire(s.(kernel := s.kernel - 1)) else s.(waiter := WRestore)
  }

  // ------------------------------------------------------------------ invariant

  /** The waiter has decremented the counter for a unit it does not have yet. */
  predicate Registered(w: Waiter) {
    w.WKernel? || w.WRestore? || w.WTryKernel?
  }

  /** Kernel units given, or about to be given, for the waiter. */
  function Wakeups(s: Sema): nat {
    s.kernel + if s.poster.SKernel? then 1 else 0
  }

  predicate Inv(s: Sema) {
    && s.count + (if Registered(s.waiter) then 1 else 0) == s.posted - s.acquired
    && (if Registered(s.waiter) then -1 <= s.count && Wakeups(s) == (if s.count < 0 then 0 else 1)
        else 0 <= s.count && Wakeups(s) == (if s.waiter.WRetake? then 1 else 0))
    && (s.waiter.WTake? || s.waiter.WRetake? ==> 0 < s.count)
    && (s.waiter.WTryKernel? ==> 0 <= s.count)
  }

  /** A signal of zero units, which the source allows, to a registered waiter. */
  predicate EmptyWakeup(s: Sema, l: Label) {
    l.StepSignal? && s.poster == SAdd(0) && s.count < 0
  }

  /** Every step keeps the invariant, except a signal of zero units to a registered waiter. */
  lemma ApplyKeepsInv(s: Sema, l: Label)
    requires Inv(s) && Enabled(s, l)
    ensures Inv(Apply(s, l)) <==> !EmptyWakeup(s, l)
  {
  }

  ghost predicate StepsTo(s: Sema, l: Label, s': Sema) {
    Enabled(s, l) && s' == Apply(s, l)
  }

  ghost predicate IsRun(run: seq<Sema>, labels: seq<Label>) {
    && |run| == |labels| + 1 && run[0] == INITIAL
    && forall i | 0 <= i < |labels| :: StepsTo(run[i], labels[i], run[i + 1])
  }

  lemma {:induction false} RunKeepsInv(run: seq<Sema>, labels: seq<Label>, i: nat)
    requires IsRun(run, labels) && i < |run| && forall k | 0 <= k < |labels| :: !EmptyWakeup(run[k], labels[k])
    ensures Inv(run[i])
  {
    if 0 < i {
      RunKeepsInv(run, labels, i - 1);
      assert StepsTo(run[i - 1], labels[i - 1], run[i - 1 + 1]);
      ApplyKeepsInv(run[i - 1], labels[i - 1]);
    }
  }

  /** Waits have not succeeded more often than signals were given, `m_count` is not below -1 (the assert in
      `signal`), an idle semaphore's count is exactly the signals left over, a wait that just gave up did so
      with nothing left, and a waiter blocked in the kernel with no wake-up under way has missed nothing. */
  predicate Accounted(run: seq<Sema>, i: nat)
    requires i < |run|
  {
    && run[i].acquired <= run[i].posted && -1 <= run[i].count
    && (run[i].waiter.WIdle? ==> run[i].count == run[i].posted - run[i].acquired)
    && (0 < i && !run[i - 1].waiter.WIdle? && run[i].waiter == WIdle(TimedOut) ==> run[i].posted == run[i].acquired)
    && (run[i].waiter.WKernel? && run[i].kernel == 0 && !run[i].poster.SKernel? ==> run[i].posted == run[i].acquired)
  }

  /** Over every interleaving without a signal of zero units to a registered waiter. */
  lemma RunCountsSignals(run: seq<Sema>, labels: seq<Label>, i: nat)
    requires IsRun(run, labels) && i < |run| && forall k | 0 <= k < |labels| :: !EmptyWakeup(run[k], labels[k])
    ensures Accounted(run, i)
  {
    RunKeepsInv(run, labels, i);
    if 0 < i {
      RunKeepsInv(run, labels, i - 1);
      assert StepsTo(run[i - 1], labels[i - 1], run[i - 1 + 1]);
    }
  }

  /** Every call of `signal` gives at least one unit. */
  predicate PositiveSignals(labels: seq<Label>) {
    forall k | 0 <= k < |labels| && labels[k].CallSignal? :: 0 < labels[k].n
  }

  lemma {:induction false} PosterGivesSomething(run: seq<Sema>, labels: seq<Label>, i: nat)
    requires IsRun(run, labels) && i < |run| && PositiveSignals(labels)
    ensures run[i].poster != SAdd(0)
  {
    if 0 < i {
      var h := i - 1;
      PosterGivesSomething(run, labels, h);
      assert StepsTo(run[h], labels[h], run[h + 1]);
    }
  }

  /** Over every interleaving in which no call of `signal` gives zero units. */
  lemma PositiveSignalsAreCounted(run: seq<Sema>, labels: seq<Label>, i: nat)
    requires IsRun(run, labels) && i < |run| && PositiveSignals(labels)
    ensures Accounted(run, i)
  {
    forall k | 0 <= k < |labels| ensures !EmptyWakeup(run[k], labels[k]) { PosterGivesSomething(run, labels, k); }
    RunCountsSignals(run, labels, i);
  }

  /** `k` consecutive steps of the waiter alone. */
  function WaiterAlone(s: Sema, k: nat): Sema
    decreases k
  {
    if k == 0 || s.waiter.WIdle? || (s.waiter.WKernel? && s.kernel == 0) then s
    else WaiterAlone(StepWaiter(s), k - 1)
  }

  /** The restore loop spins only while the producer is between its two steps: otherwise it ends within
      three steps, with a unit exactly if one is left. */
  lemma RestoreTerminates(s: Sema)
    requires Inv(s) && s.waiter.WRestore? && s.poster.SIdle?
    ensures WaiterAlone(s, 3).waiter == WIdle(if s.acquired < s.posted then Acquired else TimedOut)
    ensures WaiterAlone(s, 3).count == s.posted - WaiterAlone(s, 3).acquired
  {
    var s1 := StepWaiter(s);
    if 0 <= s.count {
      var s2 := StepWaiter(s1);
      var s3 := StepWaiter(s2);
      assert WaiterAlone(s3, 0) == s3;
      assert WaiterAlone(s2, 1) == WaiterAlone(s3, 0);
      assert WaiterAlone(s1, 2) == WaiterAlone(s2, 1);
    } else {
      assert WaiterAlone(s1, 2) == s1;
    }
    assert WaiterAlone(s, 3) == WaiterAlone(s1, 2);
  }

  /** A wait that blocks and is then woken by `signal(0)`. */
  function EmptySignalRun(timeout: Timeout): seq<Sema> {
    var w := WKernel(timeout);
    [ INITIAL, INITIAL.(waiter := WProbe(true, timeout)), INITIAL.(waiter := WDecrement(timeout)),
      Sema(-1, 0, w, SIdle, 0, 0), Sema(-1, 0, w, SAdd(0), 0, 0), Sema(-1, 0, w, SKernel, 0, 0),
      Sema(-1, 1, w, SIdle, 0, 0), Sema(-1, 0, WIdle(Acquired), SIdle, 0, 1)]
  }

  function EmptySignalLabels(timeout: Timeout): seq<Label> {
    [CallWait(true, timeout), StepWait, StepWait, CallSignal(0), StepSignal, StepSignal, StepWait]
  }

  lemma EmptySignalSteps(timeout: Timeout, i: nat)
    requires !timeout.Instant? && i < 7
    ensures StepsTo(EmptySignalRun(timeout)[i], EmptySignalLabels(timeout)[i], EmptySignalRun(timeout)[i + 1])
  {
    if i == 0 {} else if i == 1 {} else if i == 2 {} else if i == 3 {} else if i == 4 {} else if i == 5 {} else {}
  }

  /** `signal(0)` wakes a blocked waiter that was given nothing, so the law needs its condition. */
  lemma EmptySignalWakes(timeout: Timeout)
    requires !timeout.Instant?
    ensures IsRun(EmptySignalRun(timeout), EmptySignalLabels(timeout))
    ensures EmptySignalRun(timeout)[7].acquired == 1 && EmptySignalRun(timeout)[7].posted == 0
  {
    hide StepsTo;
    forall i | 0 <= i < 7
      ensures StepsTo(EmptySignalRun(timeout)[i], EmptySignalLabels(timeout)[i], EmptySignalRun(timeout)[i + 1])
    {
      EmptySignalSteps(timeout, i);
    }
  }
}
