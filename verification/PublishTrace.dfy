/** What exactly an object publishes on every event, and what that amounts to over every run. */
module PublishTrace {
  import opened ModbusTypes
  import opened Options
  import opened Availability
  import opened Publishing

  /** The payload the object has after a message. */
  function PayloadAfter(t: Topic, m: Message, env: Env): string {
    env.generate(Apply(t.o, m, env.convert).state)
  }

  function FlagAfter(t: Topic, m: Message, env: Env): Flag {
    Apply(t.o, m, env.convert).flag
  }

  /** An object of mode ONCE that has published a state. */
  predicate Spent(t: Topic) {
    t.mode == Once && t.lastTime.Some?
  }

  // ------------------------------------------------------------------ single events

  /** Values that find an object available and leave it so: its state is published exactly if the payload
      changed or, in mode EVERY_POLL, the period has passed since the last state; unless it is spent. */
  lemma StaysAvailable(t: Topic, m: Message, now: int, env: Env)
    requires m.Values? && t.o.flag == True && FlagAfter(t, m, env) == True
    ensures var payload := PayloadAfter(t, m, env);
      OnValues(t, m, now, env).trace == t.trace +
      if !Spent(t) && (payload != t.lastPayload ||
                       (t.mode == EveryPoll && (t.lastTime.None? || t.lastTime.value + t.period <= now)))
      then [State(payload)] else []
  {
    hide Apply;
  }

  /** So a changed payload is published, retained or not, in every mode but ONCE. */
  lemma ChangeIsPublished(t: Topic, m: Message, now: int, env: Env)
    requires m.Values? && t.o.flag == True && FlagAfter(t, m, env) == True && t.mode != Once
    requires PayloadAfter(t, m, env) != t.lastPayload
    ensures OnValues(t, m, now, env).trace == t.trace + [State(PayloadAfter(t, m, env))]
  {
    StaysAvailable(t, m, now, env);
    hide OnValues, PayloadAfter, FlagAfter;
  }

  /** In mode EVERY_POLL so is an unchanged one, once the period has passed. */
  lemma EveryPeriodIsPublished(t: Topic, m: Message, now: int, env: Env)
    requires m.Values? && t.o.flag == True && FlagAfter(t, m, env) == True && t.mode == EveryPoll
    requires t.lastTime.Some? ==> t.lastTime.value + t.period <= now
    ensures OnValues(t, m, now, env).trace == t.trace + [State(PayloadAfter(t, m, env))]
  {
    StaysAvailable(t, m, now, env);
    hide OnValues, PayloadAfter, FlagAfter;
  }

  /** Values that make an object available: a retained one publishes its state unless it is spent; one that is
      not retained first deletes what the broker keeps, if nothing was known before, and publishes its state
      in mode EVERY_POLL only. Then it is announced. */
  lemma BecomesAvailable(t: Topic, m: Message, now: int, env: Env)
    requires m.Values? && t.o.flag != True && FlagAfter(t, m, env) == True
    ensures var payload := PayloadAfter(t, m, env);
      OnValues(t, m, now, env).trace == t.trace
        + (if !t.retain && t.o.flag == NotSet then [Cleared] else [])
        + (if (t.retain && !Spent(t)) || (!t.retain && t.mode == EveryPoll) then [State(payload)] else [])
        + [Available(true)]
  {
    var payload := PayloadAfter(t, m, env);
    hide Apply;
    assert t.trace + [] == t.trace && t.trace + [] + [] == t.trace;
    assert t.trace + [] + [State(payload)] == t.trace + [State(payload)];
    assert t.trace + [Cleared] + [] == t.trace + [Cleared];
  }

  /** Values that leave an object unavailable: it is announced so if that is news. */
  lemma StaysUnavailable(t: Topic, m: Message, now: int, env: Env)
    requires m.Values? && FlagAfter(t, m, env) != True
    ensures OnValues(t, m, now, env).trace ==
      t.trace + if FlagAfter(t, m, env) == False && t.o.flag != False then [Available(false)] else []
  {
    hide Apply;
    assert t.trace + [] == t.trace;
  }

  /** A failure or a network going down that makes an object unavailable is announced, and nothing else. */
  lemma LossIsAnnounced(t: Topic, m: Message, now: int, env: Env)
    requires (m.Failed? || (m.NetworkState? && !m.up)) && t.o.flag != False && FlagAfter(t, m, env) == False
    ensures (if m.Failed? then OnFailed(t, m, now, env) else OnNetworkState(t, m, env)).trace ==
      t.trace + [Available(false)]
  {
    hide Apply;
  }

  /** A network that comes up, or goes down where nothing changes, publishes nothing. */
  lemma NetworkIsSilent(t: Topic, m: Message, env: Env)
    requires m.NetworkState? && (m.up || FlagAfter(t, m, env) == t.o.flag)
    ensures OnNetworkState(t, m, env).trace == t.trace
  {
    hide Apply;
  }

  /** A connect publishes the state of an available object, unless it is spent, and then whether it is. */
  lemma ConnectRepublishes(t: Topic, now: int, env: Env)
    ensures OnConnect(t, now, env).trace == t.trace
      + (if t.o.flag == True && !Spent(t) then [State(env.generate(t.o.state))] else [])
      + (if t.o.flag == NotSet then [] else [Available(t.o.flag == True)])
  {
    assert t.trace + [] == t.trace && t.trace + [] + [] == t.trace;
  }

  // ------------------------------------------------------------------ the remembered payload and time

  /** The last message that sets or deletes the state. */
  function LastMark(trace: seq<Publish>): Option<Publish> {
    if trace == [] then None
    else
      var p := trace[|trace| - 1];
      if p.Available? then LastMark(trace[..|trace| - 1]) else Some(p)
  }

  lemma MarkAppend(trace: seq<Publish>, p: Publish)
    ensures LastMark(trace + [p]) == if p.Available? then LastMark(trace) else Some(p)
  {
    assert (trace + [p])[..|trace|] == trace;
  }

  /** The remembered payload is the one published last, unless the state was deleted since. */
  predicate Remembers(t: Topic) {
    var mark := LastMark(t.trace);
    mark.Some? && mark.value.State? ==> t.lastPayload == mark.value.payload
  }

  lemma PublishStateRemembers(t: Topic, force: bool, now: int, env: Env)
    requires Remembers(t)
    ensures Remembers(PublishState(t, force, now, env))
  {
    MarkAppend(t.trace, State(env.generate(t.o.state)));
    hide LastMark;
  }

  lemma PublishAvailabilityRemembers(t: Topic)
    requires Remembers(t)
    ensures Remembers(PublishAvailability(t))
  {
    MarkAppend(t.trace, Available(t.o.flag == True));
    hide LastMark;
  }

  lemma ForgetRemembers(t: Topic, was: Flag, env: Env)
    requires Remembers(t)
    ensures Remembers(Forget(t, was, env))
  {
    MarkAppend(t.trace, Cleared);
    hide LastMark;
  }

  lemma ObjectDoesNotMatter(t: Topic, o: Object)
    requires Remembers(t)
    ensures Remembers(t.(o := o))
  {
  }

  lemma ConnectRemembers(t: Topic, now: int, env: Env)
    requires Remembers(t)
    ensures Remembers(OnConnect(t, now, env))
  {
    hide Remembers, PublishState, PublishAvailability;
    PublishStateRemembers(t, true, now, env);
    PublishAvailabilityRemembers(t);
    PublishAvailabilityRemembers(PublishState(t, true, now, env));
  }

  lemma MessageRemembers(t: Topic, m: Message, now: int, env: Env)
    requires Remembers(t)
    ensures Remembers(OnValues(t, m, now, env)) && Remembers(OnFailed(t, m, now, env))
    ensures m.NetworkState? ==> Remembers(OnNetworkState(t, m, env))
  {
    hide Remembers, Apply, PublishState, PublishAvailability, BecomeAvailable, NeedsRepublish;
    ObjectDoesNotMatter(t, Apply(t.o, m, env.convert));
    ReceivedRemembers(t.(o := Apply(t.o, m, env.convert)), t.o.flag, now, env);
  }

  lemma StepRemembers(t: Topic, e: Event, env: Env)
    requires Remembers(t)
    ensures Remembers(Step(t, e, env))
  {
    hide Remembers, OnConnect, OnValues, OnFailed, OnNetworkState;
    if e.Connected? { ConnectRemembers(t, e.now, env); } else { MessageRemembers(t, e.m, e.now, env); }
  }

  lemma ReceivedRemembers(t: Topic, was: Flag, now: int, env: Env)
    requires Remembers(t)
    ensures Remembers(PublishState(t, false, now, env)) && Remembers(PublishState(t, NeedsRepublish(t, now), now, env))
    ensures Remembers(PublishAvailability(t)) && Remembers(PublishAvailability(PublishState(t, false, now, env)))
    ensures Remembers(PublishAvailability(BecomeAvailable(t, was, now, env)))
  {
    hide Remembers, PublishState, PublishAvailability, Forget;
    PublishStateRemembers(t, false, now, env);
    PublishStateRemembers(t, NeedsRepublish(t, now), now, env);
    PublishStateRemembers(t, true, now, env);
    ForgetRemembers(t, was, env);
    PublishStateRemembers(Forget(t, was, env), true, now, env);
    PublishAvailabilityRemembers(t);
    PublishAvailabilityRemembers(PublishState(t, false, now, env));
    PublishAvailabilityRemembers(BecomeAvailable(t, was, now, env));
  }

  /** Over every run. */
  lemma {:induction false} RunRemembers(t: Topic, events: seq<Event>, env: Env)
    requires IsNewTopic(t)
    ensures Remembers(Run(t, events, env))
  {
    if events != [] {
      var n := |events| - 1;
      RunRemembers(t, events[..n], env);
      StepRemembers(Run(t, events[..n], env), events[n], env);
    }
  }

  /** From `t` to `r` at most one state was published, and if so the remembered time is now. */
  predicate Timed(t: Topic, r: Topic, now: int) {
    var same := CountStates(r.trace) == CountStates(t.trace);
    (same || CountStates(r.trace) == CountStates(t.trace) + 1) && r.lastTime == if same then t.lastTime else Some(now)
  }

  predicate Untimed(t: Topic, r: Topic) {
    CountStates(r.trace) == CountStates(t.trace) && r.lastTime == t.lastTime
  }

  lemma PartsAreTimed(t: Topic, force: bool, was: Flag, now: int, env: Env)
    ensures Timed(t, PublishState(t, force, now, env), now)
    ensures Untimed(t, PublishAvailability(t)) && Untimed(t, Forget(t, was, env))
  {
    Append(t.trace, State(env.generate(t.o.state)));
    Append(t.trace, Available(t.o.flag == True));
    Append(t.trace, Cleared);
    hide CountStates, LastAvailable, LastState;
  }

  lemma TimedSteps(t: Topic, a: Topic, b: Topic, r: Topic, now: int)
    requires Untimed(t, a) && Timed(a, b, now) && Untimed(b, r)
    ensures Timed(t, r, now)
  {
    hide CountStates;
  }

  /** A state, if any, then the announcement. */
  lemma PublishIsTimed(t: Topic, a: Topic, force: bool, now: int, env: Env)
    requires Untimed(t, a)
    ensures Timed(t, PublishState(a, force, now, env), now) && Timed(t, a, now)
    ensures Timed(t, PublishAvailability(PublishState(a, force, now, env)), now)
    ensures Timed(t, PublishAvailability(a), now)
  {
    var b := PublishState(a, force, now, env);
    PartsAreTimed(a, force, NotSet, now, env);
    PartsAreTimed(b, force, NotSet, now, env);
    hide CountStates, PublishState, PublishAvailability, Forget;
    TimedSteps(t, a, b, b, now);
    TimedSteps(t, a, a, PublishAvailability(a), now);
    TimedSteps(t, a, b, PublishAvailability(b), now);
  }

  lemma ValuesAreTimed(t: Topic, m: Message, now: int, env: Env)
    ensures Timed(t, OnValues(t, m, now, env), now)
  {
    var t1 := t.(o := Apply(t.o, m, env.convert));
    assert Untimed(t, t1);
    PartsAreTimed(t1, true, t.o.flag, now, env);
    var t2 := Forget(t1, t.o.flag, env);
    assert Untimed(t, t2);
    hide Apply, PublishState, PublishAvailability, NeedsRepublish, Forget, Timed, Untimed;
    PublishIsTimed(t, t1, NeedsRepublish(t1, now), now, env);
    PublishIsTimed(t, t1, true, now, env);
    PublishIsTimed(t, t2, true, now, env);
  }

  lemma FailuresAreTimed(t: Topic, m: Message, now: int, env: Env)
    ensures Timed(t, OnFailed(t, m, now, env), now)
    ensures m.NetworkState? ==> Timed(t, OnNetworkState(t, m, env), now)
  {
    var t1 := t.(o := Apply(t.o, m, env.convert));
    assert Untimed(t, t) && Untimed(t, t1);
    hide Apply, PublishState, PublishAvailability, Timed, Untimed;
    PublishIsTimed(t, t, true, now, env);
    PublishIsTimed(t, t1, false, now, env);
  }

  lemma ReceivedIsTimed(t: Topic, m: Message, now: int, env: Env)
    ensures Timed(t, Step(t, Received(m, now), env), now)
  {
    hide Timed, OnValues, OnFailed, OnNetworkState;
    ValuesAreTimed(t, m, now, env);
    FailuresAreTimed(t, m, now, env);
  }

  /** The remembered time is that of the event that published the last state, and no event publishes two. */
  lemma TimeOfLastState(t: Topic, e: Event, env: Env)
    ensures Timed(t, Step(t, e, env), e.now)
  {
    assert Untimed(t, t);
    hide Timed, Untimed, OnValues, OnFailed, OnNetworkState, PublishState, PublishAvailability;
    if e.Connected? { PublishIsTimed(t, t, true, e.now, env); } else { ReceivedIsTimed(t, e.m, e.now, env); }
  }

  // ------------------------------------------------------------------ mode ONCE

  /** The object was announced as available some time. */
  predicate WasAvailable(trace: seq<Publish>) {
    Available(true) in trace
  }

  /** A retained object of mode ONCE has published one state exactly if it was ever available. */
  predicate OneOnceAvailable(t: Topic) {
    t.retain && t.mode == Once ==> (t.lastTime.Some? <==> WasAvailable(t.trace))
  }

  lemma StepOnce(t: Topic, e: Event, env: Env)
    requires OneOnceAvailable(t) && Sound(t, env)
    ensures OneOnceAvailable(Step(t, e, env))
  {
    FlagTrueWasAvailable(t, env);
    hide Apply, Sound, LastAvailable, LastState, CountStates;
    if e.Received? && !e.m.Values? {
      FailureIsNoGoodNewsFor(t, e.m, env);
    }
  }

  lemma FailureIsNoGoodNewsFor(t: Topic, m: Message, env: Env)
    requires Sound(t, env) && !m.Values?
    ensures m.Failed? || !m.up ==> Apply(t.o, m, env.convert) == t.o || Apply(t.o, m, env.convert).flag == False
  {
    if m.Failed? || !m.up { FailureIsNoGoodNews(t.o, m, env.convert); }
  }

  lemma {:induction false} AnnouncedWas(trace: seq<Publish>)
    requires LastAvailable(trace) == Some(true)
    ensures WasAvailable(trace)
  {
    if !trace[|trace| - 1].Available? { AnnouncedWas(trace[..|trace| - 1]); }
  }

  lemma FlagTrueWasAvailable(t: Topic, env: Env)
    requires Sound(t, env)
    ensures t.o.flag == True ==> WasAvailable(t.trace)
  {
    if t.o.flag == True { AnnouncedWas(t.trace); }
  }

  /** Over every run a retained object of mode ONCE has published exactly one state once it was available for
      the first time, and none before. */
  lemma {:induction false} OncePublishesOnce(t: Topic, events: seq<Event>, env: Env)
    requires IsNewTopic(t) && t.retain && t.mode == Once
    ensures var r := Run(t, events, env); CountStates(r.trace) == if WasAvailable(r.trace) then 1 else 0
  {
    RunIsSound(t, events, env);
    RunOnce(t, events, env);
    hide IsNewTopic;
  }

  lemma {:induction false} RunOnce(t: Topic, events: seq<Event>, env: Env)
    requires IsNewTopic(t)
    ensures var r := Run(t, events, env); OneOnceAvailable(r) && r.retain == t.retain && r.mode == t.mode
  {
    if events != [] {
      var n := |events| - 1;
      RunOnce(t, events[..n], env);
      RunIsSound(t, events[..n], env);
      hide IsNewTopic, OneOnceAvailable, Sound;
      StepOnce(Run(t, events[..n], env), events[n], env);
      StepKeepsSettings(Run(t, events[..n], env), events[n], env);
    }
  }

  lemma StepKeepsSettings(t: Topic, e: Event, env: Env)
    ensures var r := Step(t, e, env); r.retain == t.retain && r.mode == t.mode && r.period == t.period
  {
    hide Apply;
  }
}
