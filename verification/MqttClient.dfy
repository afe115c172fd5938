/** The MQTT client's handlers: each message or connect goes to the objects it concerns. */
module MqttClient {
  import opened Options
  import opened ModbusTypes
  import opened ObjectIndex
  import opened Availability
  import opened Publishing

  /** The objects of each poll group, in map order; an object may be in several lists. */
  type Index = seq<(Ident, seq<nat>)>

  /** The object is in a list of the network, or in any list if no network is given. */
  predicate Lists(index: Index, network: Option<string>, id: nat) {
    exists i | 0 <= i < |index| :: Relevant(index[i], network) && id in index[i].1
  }

  predicate Relevant(entry: (Ident, seq<nat>), network: Option<string>) {
    network.Some? ==> entry.0.network == network.value
  }

  /** The objects after `f` was applied to each one in the list, in order. */
  function Each(objects: map<nat, Topic>, ids: seq<nat>, f: Topic -> Topic): map<nat, Topic>
    requires forall i | 0 <= i < |ids| :: ids[i] in objects
  {
    if ids == [] then objects
    else Each(objects[ids[0] := f(objects[ids[0]])], ids[1..], f)
  }

  // ------------------------------------------------------------------ whom a message concerns

  /** The ident a message is looked up with. */
  function LookupIdent(m: Message): Ident
    requires !m.NetworkState?
  {
    Ident(m.network, m.slave, m.first, m.kind)
  }

  predicate HasEntry(index: Index, ident: Ident) {
    exists i | 0 <= i < |index| :: index[i].0 == ident
  }

  /** The objects listed under the ident; none if it has no entry. */
  function ListOf(index: Index, ident: Ident): (ids: seq<nat>)
    ensures ids != [] ==> exists i | 0 <= i < |index| :: index[i].0 == ident && index[i].1 == ids
    ensures !HasEntry(index, ident) ==> ids == []
  {
    assert index != [] ==> forall i | 0 < i < |index| :: index[i] == index[1..][i - 1];
    if index == [] then []
    else if index[0].0 == ident then index[0].1
    else ListOf(index[1..], ident)
  }

  /** The objects that values concern: those of the command that was written, if any object reads its
      registers; for a poll and for an RPC request, those of the poll group with the same first register. */
  function Affected(index: Index, commandObjects: map<int, seq<nat>>, m: Message, commandId: int): seq<nat>
    requires !m.NetworkState?
  {
    if commandId in commandObjects && commandId != 0 then commandObjects[commandId]
    else if commandId <= 0 then ListOf(index, LookupIdent(m))
    else []
  }

  /** The values of the group that polls a declared register concern the declaring object, whether a poll or an
      RPC request read them. */
  lemma ValuesReachDeclarer(networks: seq<Network>, declared: seq<ObjectIndex.MqttObject>,
                            built: map<Ident, seq<nat>>, index: Index, commandObjects: map<int, seq<nat>>,
                            n: nat, o: nat, d: Declaration, r: int) returns (g: Poll)
    requires WellFormed(networks, declared) && IsIndex(built, declared, FinalSpecs(networks, declared))
    requires forall ident :: ListOf(index, ident) == Listed(built, ident)
    requires n < |networks| && o < |declared| && d in declared[o] && d.network == networks[n].name
    requires d.poll.range.Has(r)
    ensures g in Scheduled(FinalSpec(networks[n], declared).groups) && g.Covers(d.poll.slave, d.poll.range.kind, r)
    ensures forall m: Message, id | m.Values? && LookupIdent(m) == ObjectIndex.IdentOf(networks[n].name, g) &&
      id <= 0 && id !in commandObjects :: o in Affected(index, commandObjects, m, id)
    ensures forall m: Message | m.Values? && LookupIdent(m) == ObjectIndex.IdentOf(networks[n].name, g) ::
      o in Affected(index, commandObjects, m, 0)
  {
    g := RegisterInOneGroup(networks, declared, built, n, o, d, r);
    hide IsIndex, FinalSpecs, Scheduled, Listed, ListOf;
  }

  /** The values that a configured command wrote concern exactly the objects that read some register among
      those it writes. */
  lemma WrittenValuesReachReaders(index: Index, built: map<int, seq<nat>>, declared: seq<ObjectIndex.MqttObject>,
                                  commands: seq<CommandDeclaration>, m: Message, id: int, o: nat)
    requires IsCommandIndex(built, declared, commands) && m.Values? && 0 < id && o < |declared|
    ensures o in Affected(index, built, m, id) <==>
      exists c | c in commands :: c.id == id && HasRegisterIn(declared[o], c.network, c.target)
  {
    assert o in IdListed(built, id) <==> ReadsWhatIsWritten(declared[o], commands, id);
    hide HasRegisterIn, ListOf;
  }

  class Client {
    const env: Env
    const index: Index
    const commandObjects: map<int, seq<nat>>
    var connected: bool
    var objects: map<nat, Topic>

    ghost predicate Valid()
      reads this
    {
      && (forall i, k | 0 <= i < |index| && 0 <= k < |index[i].1| :: index[i].1[k] in objects)
      && (forall c, k | c in commandObjects && 0 <= k < |commandObjects[c]| :: commandObjects[c][k] in objects)
    }

    ghost predicate AllSound()
      reads this
    {
      forall id | id in objects :: Sound(objects[id], env)
    }

    constructor (env: Env, index: Index, commandObjects: map<int, seq<nat>>, objects: map<nat, Topic>)
      ensures this.env == env && this.index == index && this.commandObjects == commandObjects
      ensures !connected && this.objects == objects
    {
      this.env, this.index, this.commandObjects, this.objects := env, index, commandObjects, objects;
      connected := false;
    }

    method ForEach(ids: seq<nat>, f: Topic -> Topic)
      requires Valid() && forall i | 0 <= i < |ids| :: ids[i] in objects
      modifies this`objects
      ensures Valid() && objects.Keys == old(objects).Keys && objects == Each(old(objects), ids, f)
    {
      var i := 0;
      while i < |ids|
        invariant 0 <= i <= |ids| && objects.Keys == old(objects).Keys
        invariant forall k | 0 <= k < |ids| :: ids[k] in objects
        invariant Each(objects, ids[i..], f) == Each(old(objects), ids, f)
      {
        assert ids[i..][0] == ids[i] && ids[i..][1..] == ids[i + 1..];
        objects := objects[ids[i] := f(objects[ids[i]])];
        i := i + 1;
      }
    }

    /** The loop over all lists that leaves out objects already processed. */
    method ForEachOnce(network: Option<string>, f: Topic -> Topic)
      requires Valid()
      modifies this`objects
      ensures Valid() && objects.Keys == old(objects).Keys
      ensures forall id | id in objects ::
        objects[id] == if Lists(index, network, id) then f(old(objects)[id]) else old(objects)[id]
    {
      var processed: set<nat> := {};
      var i := 0;
      while i < |index|
        invariant 0 <= i <= |index| && Valid() && objects.Keys == old(objects).Keys
        invariant forall id | id in objects ::
          objects[id] == if id in processed then f(old(objects)[id]) else old(objects)[id]
        invariant forall id :: id in processed <==> Lists(index[..i], network, id)
      {
        if Relevant(index[i], network) {
          processed := ForList(index[i].1, processed, f, old(objects));
        }
        ListsStep(index, i, network);
        i := i + 1;
      }
      assert index[..i] == index;
    }

    method ForList(ids: seq<nat>, processed: set<nat>, f: Topic -> Topic, ghost start: map<nat, Topic>)
      returns (done: set<nat>)
      requires Valid() && objects.Keys == start.Keys && forall k | 0 <= k < |ids| :: ids[k] in objects
      requires forall id | id in objects :: objects[id] == if id in processed then f(start[id]) else start[id]
      modifies this`objects
      ensures Valid() && objects.Keys == start.Keys
      ensures forall id | id in objects :: objects[id] == if id in done then f(start[id]) else start[id]
      ensures forall id :: id in done <==> id in processed || id in ids
    {
      done := processed;
      var i := 0;
      while i < |ids|
        invariant 0 <= i <= |ids| && objects.Keys == start.Keys
        invariant forall k | 0 <= k < |ids| :: ids[k] in objects
        invariant forall id | id in objects :: objects[id] == if id in done then f(start[id]) else start[id]
        invariant forall id :: id in done <==> id in processed || id in ids[..i]
      {
        if ids[i] !in done {
          objects := objects[ids[i] := f(objects[ids[i]])];
          done := done + {ids[i]};
        }
        i := i + 1;
      }
    }

    method FindList(ident: Ident) returns (found: bool, ids: seq<nat>)
      requires Valid()
      ensures found == HasEntry(index, ident) && ids == ListOf(index, ident)
      ensures forall k | 0 <= k < |ids| :: ids[k] in objects
    {
      var i := 0;
      while i < |index| && index[i].0 != ident
        invariant 0 <= i <= |index| && ListOf(index[i..], ident) == ListOf(index, ident)
        invariant forall j | 0 <= j < i :: index[j].0 != ident
      {
        assert index[i..][0] == index[i] && index[i..][1..] == index[i + 1..];
        i := i + 1;
      }
      found := i < |index|;
      ids := if found then index[i].1 else [];
      if found { assert index[i..][0] == index[i]; }
    }

    /** Values are dropped while the broker is not connected. The values of a poll have an entry. */
    method ProcessRegisterValues(m: Message, commandId: int, now: int)
      requires Valid() && m.Values? && (connected && commandId == 0 ==> HasEntry(index, LookupIdent(m)))
      modifies this`objects
      ensures Valid() && objects == if !connected then old(objects)
        else Each(old(objects), Affected(index, commandObjects, m, commandId), t => OnValues(t, m, now, env))
      ensures old(AllSound()) ==> AllSound()
    {
      if !connected {
        return;
      }
      var affected := [];
      if commandId != 0 && commandId in commandObjects {
        affected := commandObjects[commandId];
      } else if commandId <= 0 {
        var found;
        found, affected := FindList(LookupIdent(m));
        assert commandId == 0 ==> found;
      }
      var f := t => OnValues(t, m, now, env);
      forall t | Sound(t, env) ensures Sound(f(t), env) { OnValuesSound(t, m, now, env); }
      EachKeepsSound(objects, affected, f, env);
      ForEach(affected, f);
    }

    /** A failed write need not belong to a poll group. */
    method ProcessRegistersOperationFailed(m: Message, now: int)
      requires Valid() && m.Failed?
      modifies this`objects
      ensures Valid() && objects == Each(old(objects), ListOf(index, LookupIdent(m)), t => OnFailed(t, m, now, env))
      ensures old(AllSound()) ==> AllSound()
    {
      var found, affected := FindList(LookupIdent(m));
      if !found {
        return;
      }
      var f := t => OnFailed(t, m, now, env);
      forall t | Sound(t, env) ensures Sound(f(t), env) { OnFailedSound(t, m, now, env); }
      EachKeepsSound(objects, affected, f, env);
      ForEach(affected, f);
    }

    method ProcessModbusNetworkState(m: Message)
      requires Valid() && m.NetworkState?
      modifies this`objects
      ensures Valid() && objects.Keys == old(objects).Keys
      ensures forall id | id in objects ::
        objects[id] == if Lists(index, Some(m.network), id) then OnNetworkState(old(objects)[id], m, env)
                       else old(objects)[id]
      ensures old(AllSound()) ==> AllSound()
    {
      if m.up {
        return;
      }
      var f := (t: Topic) => OnNetworkState(t, m, env);
      forall t | Sound(t, env) ensures Sound(f(t), env) { OnNetworkStateSound(t, m, env); }
      ForEachOnce(Some(m.network), f);
    }

    method PublishAll(now: int)
      requires Valid()
      modifies this`objects
      ensures Valid() && objects.Keys == old(objects).Keys
      ensures forall id | id in objects ::
        objects[id] == if Lists(index, None, id) then OnConnect(old(objects)[id], now, env) else old(objects)[id]
      ensures old(AllSound()) ==> AllSound()
    {
      var f := t => OnConnect(t, now, env);
      forall t | Sound(t, env) ensures Sound(f(t), env) { OnConnectSound(t, now, env); }
      ForEachOnce(None, f);
    }

    method Connect(now: int)
      requires Valid()
      modifies this
      ensures Valid() && connected && objects.Keys == old(objects).Keys
      ensures forall id | id in objects ::
        objects[id] == if Lists(index, None, id) then OnConnect(old(objects)[id], now, env) else old(objects)[id]
      ensures old(AllSound()) ==> AllSound()
    {
      connected := true;
      PublishAll(now);
    }
  }

  /** In a list that holds no object twice, the listed objects change and no others. */
  lemma {:induction false} EachAppliesOnce(objects: map<nat, Topic>, ids: seq<nat>, f: Topic -> Topic, id: nat)
    requires (forall i | 0 <= i < |ids| :: ids[i] in objects) && forall i, j | 0 <= i < j < |ids| :: ids[i] != ids[j]
    requires id in objects
    ensures var r := Each(objects, ids, f); id in r && r[id] == if id in ids then f(objects[id]) else objects[id]
    decreases |ids|
  {
    if ids != [] {
      EachAppliesOnce(objects[ids[0] := f(objects[ids[0]])], ids[1..], f, id);
      assert ids == [ids[0]] + ids[1..];
    }
  }

  lemma ListsStep(index: Index, i: nat, network: Option<string>)
    requires i < |index|
    ensures forall id :: Lists(index[..i + 1], network, id) <==>
      Lists(index[..i], network, id) || (Relevant(index[i], network) && id in index[i].1)
  {
    forall id ensures Lists(index[..i + 1], network, id) <==>
      Lists(index[..i], network, id) || (Relevant(index[i], network) && id in index[i].1)
    {
      if Lists(index[..i], network, id) {
        var k :| 0 <= k < i && Relevant(index[..i][k], network) && id in index[..i][k].1;
        assert index[..i + 1][k] == index[..i][k];
      }
      if Relevant(index[i], network) && id in index[i].1 {
        assert index[..i + 1][i] == index[i];
      }
      if Lists(index[..i + 1], network, id) {
        var k :| 0 <= k < i + 1 && Relevant(index[..i + 1][k], network) && id in index[..i + 1][k].1;
        if k < i { assert index[..i][k] == index[..i + 1][k]; }
      }
    }
  }

  lemma {:induction false} EachKeepsSound(objects: map<nat, Topic>, ids: seq<nat>, f: Topic -> Topic, env: Env)
    requires forall i | 0 <= i < |ids| :: ids[i] in objects
    requires forall t | Sound(t, env) :: Sound(f(t), env)
    ensures (forall id | id in objects :: Sound(objects[id], env)) ==>
      forall id | id in Each(objects, ids, f) :: Sound(Each(objects, ids, f)[id], env)
    decreases |ids|
  {
    if ids != [] { EachKeepsSound(objects[ids[0] := f(objects[ids[0]])], ids[1..], f, env); }
  }
}
