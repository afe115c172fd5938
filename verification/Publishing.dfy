/** What an MQTT object publishes: its state payloads and its availability. */
module Publishing {
  import opened ModbusTypes
  import opened Options
  import opened Availability

  /** `Cleared` is the empty message that deletes a retained state. */
  datatype Publish = State(payload: string) | Cleared | Available(up: bool)

  /** An object with its publish settings and bookkeeping, and everything it has published. */
  datatype Topic = Topic(o: Object, retain: bool, mode: PublishMode, period: int,
                         lastPayload: string, lastTime: Option<int>, trace: seq<Publish>)

  /** Unknown parts of the program: value converters and the JSON writer. */
  datatype Env = Env(convert: (nat, seq<nat>) -> int, generate: Nodes -> string)

  // ------------------------------------------------------------------ publishing

  function PublishState(t: Topic, force: bool, now: int, env: Env): Topic {
    if t.o.flag != True || (t.mode == Once && t.lastTime.Some?) then t
    else
      var payload := env.generate(t.o.state);
      if payload != t.lastPayload || force then
        t.(trace := t.trace + [State(payload)], lastPayload := payload, lastTime := Some(now))
      else t
  }

  function PublishAvailability(t: Topic): Topic {
    if t.o.flag == NotSet then t else t.(trace := t.trace + [Available(t.o.flag == True)])
  }

  predicate NeedsRepublish(t: Topic, now: int) {
    t.mode == EveryPoll && (t.lastTime.Some? ==> t.lastTime.value + t.period <= now)
  }

  /** An object just became available and is not retained: the state kept by the broker is deleted. */
  function Forget(t: Topic, was: Flag, env: Env): Topic {
    if was == NotSet then t.(trace := t.trace + [Cleared], lastPayload := env.generate(t.o.state)) else t
  }

  function BecomeAvailable(t: Topic, was: Flag, now: int, env: Env): Topic {
    if t.retain then PublishState(t, true, now, env)
    else if t.mode == EveryPoll then PublishState(Forget(t, was, env), true, now, env)
    else Forget(t, was, env)
  }

  function OnValues(t: Topic, m: Message, now: int, env: Env): Topic {
    var t1 := t.(o := Apply(t.o, m, env.convert));
    if t1.o.flag == t.o.flag then PublishState(t1, NeedsRepublish(t1, now), now, env)
    else if t1.o.flag == True then PublishAvailability(BecomeAvailable(t1, t.o.flag, now, env))
    else PublishAvailability(t1)
  }

  function OnFailed(t: Topic, m: Message, now: int, env: Env): Topic {
    var t1 := t.(o := Apply(t.o, m, env.convert));
    var t2 := PublishState(t1, false, now, env);
    if t1.o.flag == t.o.flag then t2 else PublishAvailability(t2)
  }

  /** Networks that come up are ignored: the initial poll will tell. */
  function OnNetworkState(t: Topic, m: Message, env: Env): Topic
    requires m.NetworkState?
  {
    if m.up then t
    else
      var t1 := t.(o := Apply(t.o, m, env.convert));
      if t1.o.flag == t.o.flag then t1 else PublishAvailability(t1)
  }

  function OnConnect(t: Topic, now: int, env: Env): Topic {
    PublishAvailability(if t.o.flag == True then PublishState(t, true, now, env) else t)
  }

  // ------------------------------------------------------------------ what subscribers see

  function LastAvailable(trace: seq<Publish>): Option<bool> {
    if trace == [] then None
    else
      var p := trace[|trace| - 1];
      if p.Available? then Some(p.up) else LastAvailable(trace[..|trace| - 1])
  }

  function LastState(trace: seq<Publish>): Option<string> {
    if trace == [] then None
    else
      var p := trace[|trace| - 1];
      if p.State? then Some(p.payload) else LastState(trace[..|trace| - 1])
  }

  function CountStates(trace: seq<Publish>): nat {
    if trace == [] then 0
    else CountStates(trace[..|trace| - 1]) + if trace[|trace| - 1].State? then 1 else 0
  }

  /** The `i`-th message, if a state, comes while the object is announced as available or just before. */
  predicate Announced(trace: seq<Publish>, i: nat)
    requires i < |trace|
  {
    trace[i].State? ==> LastAvailable(trace[..i]) == Some(true) || (i + 1 < |trace| && trace[i + 1] == Available(true))
  }

  predicate StatesAnnounced(trace: seq<Publish>) {
    forall i | 0 <= i < |trace| :: Announced(trace, i)
  }

  /** The `i`-th message, if it announces the object as available, follows a state. */
  predicate Prepared(trace: seq<Publish>, i: nat)
    requires i < |trace|
  {
    trace[i] == Available(true) ==> 0 < i && trace[i - 1].State?
  }

  predicate OnesPrepared(trace: seq<Publish>) {
    forall i | 0 <= i < |trace| :: Prepared(trace, i)
  }

  predicate Strict(t: Topic) {
    t.retain && t.mode != Once
  }

  /** While the flag is `True`, and only then, the object is announced as available; states are published
      only then; an object of mode `Once` has at most one; and a retained object of another mode publishes
      its state just before announcing itself, and the last state is the current one. */
  ghost predicate Sound(t: Topic, env: Env) {
    && UpToDate(t.o, env.convert)
    && (LastAvailable(t.trace) == Some(true) <==> t.o.flag == True)
    && Ordered(t.trace, Strict(t))
    && (t.mode == Once ==> CountStates(t.trace) == if t.lastTime.Some? then 1 else 0)
    && (Strict(t) && t.o.flag == True ==>
          LastState(t.trace) == Some(t.lastPayload) && t.lastPayload == env.generate(t.o.state))
  }

  // ------------------------------------------------------------------ appending to the trace

  lemma Append(trace: seq<Publish>, p: Publish)
    ensures LastAvailable(trace + [p]) == if p.Available? then Some(p.up) else LastAvailable(trace)
    ensures LastState(trace + [p]) == if p.State? then Some(p.payload) else LastState(trace)
    ensures CountStates(trace + [p]) == CountStates(trace) + if p.State? then 1 else 0
  {
    assert (trace + [p])[..|trace|] == trace;
  }

  /** The order of messages is right; `strict` for retained objects that publish more than once. */
  predicate Ordered(trace: seq<Publish>, strict: bool) {
    StatesAnnounced(trace) && (strict ==> OnesPrepared(trace))
  }

  lemma PrefixStaysOrdered(trace: seq<Publish>, more: seq<Publish>, strict: bool, i: nat)
    requires Ordered(trace, strict) && i < |trace|
    ensures Announced(trace + more, i) && (strict ==> Prepared(trace + more, i))
  {
    assert (trace + more)[..i] == trace[..i];
    assert Announced(trace, i) && (strict ==> Prepared(trace, i));
  }

  /** One more message: a state while announced as available, or anything but a state. */
  lemma OneMore(trace: seq<Publish>, p: Publish, strict: bool)
    requires Ordered(trace, strict)
    requires if p.State? then LastAvailable(trace) == Some(true) else p == Available(true) ==> !strict
    ensures Ordered(trace + [p], strict)
  {
    var r := trace + [p];
    assert r[..|trace|] == trace;
    forall i | 0 <= i < |r| ensures Announced(r, i) && (strict ==> Prepared(r, i)) {
      if i < |trace| { PrefixStaysOrdered(trace, [p], strict, i); }
    }
  }

  /** A state and the announcement. */
  lemma StateThenOne(trace: seq<Publish>, payload: string, strict: bool)
    requires Ordered(trace, strict)
    ensures Ordered(trace + [State(payload)] + [Available(true)], strict)
  {
    var more := [State(payload), Available(true)];
    var r := trace + [State(payload)] + [Available(true)];
    assert r == trace + more;
    forall i | 0 <= i < |r| ensures Announced(r, i) && (strict ==> Prepared(r, i)) {
      if i < |trace| { PrefixStaysOrdered(trace, more, strict, i); }
    }
  }

  // ------------------------------------------------------------------ the object's flag

  lemma FailureIsNoGoodNews(o: Object, m: Message, convert: (nat, seq<nat>) -> int)
    requires UpToDate(o, convert) && (m.Failed? || (m.NetworkState? && !m.up))
    ensures Apply(o, m, convert) == o || Apply(o, m, convert).flag == False
  {
    if Changed(o.state, m) {
      ChangeIsError(o.state, m);
    } else if Changed(o.avail, m) {
      ChangeIsError(o.avail, m);
    } else {
      UnchangedMeansSame(o.state, m);
      UnchangedMeansSame(o.avail, m);
    }
  }

  lemma ChangeIsError(f: Nodes, m: Message)
    requires (m.Failed? || (m.NetworkState? && !m.up)) && Changed(f, m)
    ensures !IsPolling(Update(f, m))
  {
  }

  // ------------------------------------------------------------------ every event keeps it sound

  /** The object changes without a message. */
  lemma SilentSound(t: Topic, o: Object, env: Env)
    requires Sound(t, env) && UpToDate(o, env.convert)
    requires o == t.o || (o.flag != True && t.o.flag != True)
    ensures Sound(t.(o := o), env)
  {
  }

  /** The object stays available and may publish. */
  lemma RepublishSound(t: Topic, o: Object, force: bool, now: int, env: Env)
    requires Sound(t, env) && UpToDate(o, env.convert) && (o.flag == True <==> t.o.flag == True)
    ensures Sound(PublishState(t.(o := o), force, now, env), env)
  {
    var p := State(env.generate(o.state));
    Append(t.trace, p);
    if o.flag == True { OneMore(t.trace, p, Strict(t)); }
    hide LastAvailable, LastState, CountStates, Ordered, UpToDate;
  }

  /** The object is announced as not available, or nothing is known about it. */
  lemma DownSound(t: Topic, o: Object, env: Env)
    requires Sound(t, env) && UpToDate(o, env.convert) && o.flag != True && (o.flag == NotSet ==> t.o.flag != True)
    ensures Sound(PublishAvailability(t.(o := o)), env)
  {
    Append(t.trace, Available(false));
    OneMore(t.trace, Available(false), Strict(t));
    hide LastAvailable, LastState, CountStates, Ordered, UpToDate;
  }

  /** A retained object is announced as available. */
  lemma UpSound(t: Topic, o: Object, now: int, env: Env)
    requires Sound(t, env) && UpToDate(o, env.convert) && o.flag == True && (t.retain || t.o == o)
    ensures Sound(PublishAvailability(PublishState(t.(o := o), true, now, env)), env)
  {
    var p := State(env.generate(o.state));
    Append(t.trace, p);
    Append(t.trace + [p], Available(true));
    Append(t.trace, Available(true));
    StateThenOne(t.trace, p.payload, Strict(t));
    if t.mode == Once { OneMore(t.trace, Available(true), Strict(t)); }
    hide LastAvailable, LastState, CountStates, Ordered, UpToDate;
  }

  lemma ForgetSound(t: Topic, o: Object, now: int, env: Env)
    requires Sound(t, env) && UpToDate(o, env.convert) && o.flag == True && t.o.flag != True && !t.retain
    ensures Sound(PublishAvailability(BecomeAvailable(t.(o := o), t.o.flag, now, env)), env)
  {
    var p := State(env.generate(o.state));
    var cleared := if t.o.flag == NotSet then t.trace + [Cleared] else t.trace;
    Append(t.trace, Cleared);
    OneMore(t.trace, Cleared, false);
    Append(cleared, p);
    Append(cleared + [p], Available(true));
    Append(cleared, Available(true));
    StateThenOne(cleared, p.payload, false);
    OneMore(cleared, Available(true), false);
    hide LastAvailable, LastState, CountStates, Ordered, UpToDate;
  }

  lemma OnValuesSound(t: Topic, m: Message, now: int, env: Env)
    requires Sound(t, env)
    ensures Sound(OnValues(t, m, now, env), env)
  {
    var o := Apply(t.o, m, env.convert);
    ApplyKeepsUpToDate(t.o, m, env.convert);
    KnownIsSet(t.o, m, env.convert);
    assert UpToDate(t.o, env.convert);
    hide Sound, UpToDate, PublishAvailability, PublishState, Forget, Apply;
    if o.flag == t.o.flag {
      RepublishSound(t, o, NeedsRepublish(t.(o := o), now), now, env);
    } else if o.flag != True {
      DownSound(t, o, env);
    } else if t.retain {
      UpSound(t, o, now, env);
    } else {
      ForgetSound(t, o, now, env);
    }
  }

  lemma OnFailedSound(t: Topic, m: Message, now: int, env: Env)
    requires Sound(t, env) && m.Failed?
    ensures Sound(OnFailed(t, m, now, env), env)
  {
    var o := Apply(t.o, m, env.convert);
    ApplyKeepsUpToDate(t.o, m, env.convert);
    FailureIsNoGoodNews(t.o, m, env.convert);
    assert UpToDate(t.o, env.convert);
    hide Sound, UpToDate, PublishAvailability, Apply;
    if o.flag == t.o.flag {
      RepublishSound(t, o, false, now, env);
    } else {
      DownSound(t, o, env);
    }
  }

  lemma OnNetworkStateSound(t: Topic, m: Message, env: Env)
    requires Sound(t, env) && m.NetworkState?
    ensures Sound(OnNetworkState(t, m, env), env)
  {
    if !m.up {
      var o := Apply(t.o, m, env.convert);
      ApplyKeepsUpToDate(t.o, m, env.convert);
      FailureIsNoGoodNews(t.o, m, env.convert);
      assert UpToDate(t.o, env.convert);
      hide Sound, UpToDate, PublishAvailability, Apply;
      if o.flag == t.o.flag {
        SilentSound(t, o, env);
      } else {
        DownSound(t, o, env);
      }
    }
  }

  lemma OnConnectSound(t: Topic, now: int, env: Env)
    requires Sound(t, env)
    ensures Sound(OnConnect(t, now, env), env)
  {
    assert UpToDate(t.o, env.convert) && t.(o := t.o) == t;
    hide Sound, UpToDate, PublishAvailability, PublishState;
    if t.o.flag == True { UpSound(t, t.o, now, env); } else { DownSound(t, t.o, env); }
  }

  // ------------------------------------------------------------------ runs

  datatype Event = Received(m: Message, now: int) | Connected(now: int)

  function Step(t: Topic, e: Event, env: Env): Topic {
    match e
    case Received(m, now) =>
      (match m
       case Values(_, _, _, _, _) => OnValues(t, m, now, env)
       case Failed(_, _, _, _, _) => OnFailed(t, m, now, env)
       case NetworkState(_, _) => OnNetworkState(t, m, env))
    case Connected(now) => OnConnect(t, now, env)
  }

  function Run(t: Topic, events: seq<Event>, env: Env): Topic {
    if events == [] then t else Step(Run(t, events[..|events| - 1], env), events[|events| - 1], env)
  }

  predicate IsNewTopic(t: Topic) {
    IsNew(t.o) && t.trace == [] && t.lastTime.None?
  }

  lemma {:induction false} RunIsSound(t: Topic, events: seq<Event>, env: Env)
    requires IsNewTopic(t)
    ensures Sound(Run(t, events, env), env)
  {
    if events == [] {
      NewIsUpToDate(t.o, env.convert);
    } else {
      RunIsSound(t, events[..|events| - 1], env);
      var before := Run(t, events[..|events| - 1], env);
      hide Sound, Run;
      StepSound(before, events[|events| - 1], env);
    }
  }

  lemma StepSound(t: Topic, e: Event, env: Env)
    requires Sound(t, env)
    ensures Sound(Step(t, e, env), env)
  {
    hide Sound;
    if e.Connected? {
      OnConnectSound(t, e.now, env);
    } else {
      match e.m
      case Values(_, _, _, _, _) => OnValuesSound(t, e.m, e.now, env);
      case Failed(_, _, _, _, _) => OnFailedSound(t, e.m, e.now, env);
      case NetworkState(_, _) => OnNetworkStateSound(t, e.m, env);
    }
  }
}
