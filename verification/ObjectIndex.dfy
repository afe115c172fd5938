/** Which objects a poll result belongs to: the index the main thread looks poll data up in. */
module ObjectIndex {
  import opened ModbusTypes
  import opened PollMerge
  import opened PollStages

  datatype Ident = Ident(network: string, slave: int, register: int, kind: RegisterType)

  /** A register declaration of an object: its poll, and one data node per register of the range. */
  datatype Declaration = Declaration(network: string, poll: Poll)

  /** An object is the list of its declarations, for its state and its availability. */
  type MqttObject = seq<Declaration>

  /** A network of the modbus section with its poll groups, which have no refresh period of their own. */
  datatype Network = Network(name: string, pollGroups: seq<Poll>)

  datatype Spec = Spec(name: string, groups: seq<Poll>)

  // ------------------------------------------------------------------ first stage

  function DeclaredOn(obj: MqttObject, network: string): seq<Poll> {
    if obj == [] then []
    else (if obj[0].network == network then [obj[0].poll] else []) + DeclaredOn(obj[1..], network)
  }

  function Topics(objects: seq<MqttObject>, network: string): seq<Poll> {
    if objects == [] then [] else DeclaredOn(objects[0], network) + Topics(objects[1..], network)
  }

  lemma {:induction false} DeclaredOnMembers(obj: MqttObject, network: string, p: Poll)
    ensures p in DeclaredOn(obj, network) <==> Declaration(network, p) in obj
  {
    if obj != [] {
      DeclaredOnMembers(obj[1..], network, p);
      assert obj == [obj[0]] + obj[1..];
    }
  }

  lemma {:induction false} TopicsMembers(objects: seq<MqttObject>, network: string, p: Poll)
    ensures p in Topics(objects, network) <==> exists o | 0 <= o < |objects| :: Declaration(network, p) in objects[o]
  {
    if objects != [] {
      DeclaredOnMembers(objects[0], network, p);
      TopicsMembers(objects[1..], network, p);
      assert forall o | 0 < o < |objects| :: objects[o] == objects[1..][o - 1];
      assert objects == [objects[0]] + objects[1..];
    }
  }

  /** `updateSpecification`: finds the network's specification or puts a new one in front, and merges. */
  method UpdateSpecification(specs: seq<Spec>, d: Declaration) returns (r: seq<Spec>)
    ensures GroupsFor(r, d.network) == Merged(GroupsFor(specs, d.network), d.poll)
    ensures forall n | n != d.network :: GroupsFor(r, n) == GroupsFor(specs, n)
  {
    var i := 0;
    while i < |specs| && specs[i].name != d.network
      invariant 0 <= i <= |specs|
      invariant GroupsFor(specs, d.network) == GroupsFor(specs[i..], d.network)
      invariant forall j | 0 <= j < i :: specs[j].name != d.network
    {
      assert specs[i..][1..] == specs[i + 1..];
      i := i + 1;
    }
    if i == |specs| {
      r := [Spec(d.network, Merged([], d.poll))] + specs;
      assert r[1..] == specs;
    } else {
      r := specs[i := specs[i].(groups := Merged(specs[i].groups, d.poll))];
      UpdateAt(specs, i, r[i]);
      assert specs[i..][0] == specs[i];
    }
  }

  /** The groups of the first specification with this name; none if there is none. */
  function GroupsFor(specs: seq<Spec>, network: string): seq<Poll> {
    if specs == [] then []
    else if specs[0].name == network then specs[0].groups
    else GroupsFor(specs[1..], network)
  }

  lemma {:induction false} UpdateAt(specs: seq<Spec>, i: nat, s: Spec)
    requires i < |specs| && s.name == specs[i].name
    requires forall j | 0 <= j < i :: specs[j].name != s.name
    ensures GroupsFor(specs[i := s], s.name) == s.groups
    ensures forall n | n != s.name :: GroupsFor(specs[i := s], n) == GroupsFor(specs, n)
  {
    if 0 < i {
      UpdateAt(specs[1..], i - 1, s);
      assert specs[i := s][1..] == specs[1..][i - 1 := s];
    } else {
      assert specs[i := s][1..] == specs[1..];
    }
  }

  lemma {:induction false} MergedAllAppend(groups: seq<Poll>, a: seq<Poll>, b: seq<Poll>)
    ensures MergedAll(groups, a + b) == MergedAll(MergedAll(groups, a), b)
    decreases |a|
  {
    if a == [] {
      assert a + b == b;
    } else {
      assert (a + b)[1..] == a[1..] + b;
      MergedAllAppend(Merged(groups, a[0]), a[1..], b);
    }
  }

  lemma {:induction false} DeclaredOnAppend(a: MqttObject, b: MqttObject, network: string)
    ensures DeclaredOn(a + b, network) == DeclaredOn(a, network) + DeclaredOn(b, network)
  {
    if a == [] {
      assert a + b == b;
    } else {
      assert (a + b)[1..] == a[1..] + b;
      DeclaredOnAppend(a[1..], b, network);
    }
  }

  lemma {:induction false} TopicsAppend(a: seq<MqttObject>, b: seq<MqttObject>, network: string)
    ensures Topics(a + b, network) == Topics(a, network) + Topics(b, network)
  {
    if a == [] {
      assert a + b == b;
    } else {
      assert (a + b)[1..] == a[1..] + b;
      TopicsAppend(a[1..], b, network);
    }
  }

  lemma TopicsOneMore(objects: seq<MqttObject>, o: nat, network: string)
    requires o < |objects|
    ensures Topics(objects[..o + 1], network) == Topics(objects[..o], network) + DeclaredOn(objects[o], network)
  {
    assert objects[..o + 1] == objects[..o] + [objects[o]];
    TopicsAppend(objects[..o], [objects[o]], network);
    assert [objects[o]][1..] == [];
  }

  method CollectObject(specs: seq<Spec>, obj: MqttObject) returns (r: seq<Spec>)
    ensures forall n :: GroupsFor(r, n) == MergedAll(GroupsFor(specs, n), DeclaredOn(obj, n))
  {
    r := specs;
    for i := 0 to |obj|
      invariant forall n :: GroupsFor(r, n) == MergedAll(GroupsFor(specs, n), DeclaredOn(obj[..i], n))
    {
      forall n
        ensures MergedAll(GroupsFor(specs, n), DeclaredOn(obj[..i + 1], n)) ==
          MergedAll(MergedAll(GroupsFor(specs, n), DeclaredOn(obj[..i], n)), DeclaredOn([obj[i]], n))
      {
        assert obj[..i + 1] == obj[..i] + [obj[i]];
        DeclaredOnAppend(obj[..i], [obj[i]], n);
        MergedAllAppend(GroupsFor(specs, n), DeclaredOn(obj[..i], n), DeclaredOn([obj[i]], n));
      }
      forall groups, n
        ensures MergedAll(groups, DeclaredOn([obj[i]], n)) ==
          if obj[i].network == n then Merged(groups, obj[i].poll) else groups
      {
        assert [obj[i].poll][1..] == [] && DeclaredOn([obj[i]][1..], n) == [];
      }
      r := UpdateSpecification(r, obj[i]);
    }
    assert obj[..|obj|] == obj;
  }

  /** The first stage: for every network, the groups of all registers declared on it. */
  method CollectSpecifications(objects: seq<MqttObject>) returns (r: seq<Spec>)
    ensures forall n :: GroupsFor(r, n) == MergedAll([], Topics(objects, n))
  {
    r := [];
    for o := 0 to |objects|
      invariant forall n :: GroupsFor(r, n) == MergedAll([], Topics(objects[..o], n))
    {
      forall n
        ensures MergedAll([], Topics(objects[..o + 1], n)) ==
          MergedAll(MergedAll([], Topics(objects[..o], n)), DeclaredOn(objects[o], n))
      {
        TopicsOneMore(objects, o, n);
        MergedAllAppend([], Topics(objects[..o], n), DeclaredOn(objects[o], n));
      }
      r := CollectObject(r, objects[o]);
    }
    assert objects[..|objects|] == objects;
  }

  // ------------------------------------------------------------------ the index

  function FinalSpec(n: Network, objects: seq<MqttObject>): Spec {
    Spec(n.name, FinalGroups(n.pollGroups, Topics(objects, n.name)))
  }

  function IdentOf(network: string, g: Poll): Ident {
    Ident(network, g.slave, g.range.first, g.range.kind)
  }

  /** Some data node of the object reads a register in the group's range. */
  predicate HasRegisterIn(obj: MqttObject, network: string, g: Poll) {
    exists d | d in obj :: DeclaresIn(d, network, g)
  }

  predicate DeclaresIn(d: Declaration, network: string, g: Poll) {
    exists r | d.poll.range.first <= r <= d.poll.range.Last() ::
      NodeIn(Ident(d.network, d.poll.slave, r, d.poll.range.kind), network, g)
  }

  predicate NodeIn(node: Ident, network: string, g: Poll) {
    && node.slave == g.slave
    && g.range.Overlaps(AddressRange(node.kind, node.register, 1))
    && node.network == network
  }

  ghost predicate Matches(obj: MqttObject, network: string, g: Poll, ident: Ident) {
    ident == IdentOf(network, g) && HasRegisterIn(obj, network, g)
  }

  ghost predicate MatchesSome(obj: MqttObject, network: string, groups: seq<Poll>, ident: Ident) {
    exists g | g in groups :: Matches(obj, network, g, ident)
  }

  /** The object is listed under `ident` because of some group of some specification. */
  ghost predicate Belongs(obj: MqttObject, specs: seq<Spec>, ident: Ident) {
    exists s | s in specs :: MatchesSome(obj, s.name, s.groups, ident)
  }

  lemma MatchesOneMore(obj: MqttObject, network: string, groups: seq<Poll>, g: Poll, ident: Ident)
    ensures MatchesSome(obj, network, groups + [g], ident) <==>
      MatchesSome(obj, network, groups, ident) || Matches(obj, network, g, ident)
  {
    if MatchesSome(obj, network, groups, ident) {
      var h :| h in groups && Matches(obj, network, h, ident);
      assert h in groups + [g];
    }
    if Matches(obj, network, g, ident) { assert g in groups + [g]; }
  }

  function Listed(index: map<Ident, seq<nat>>, ident: Ident): seq<nat> {
    if ident in index then index[ident] else []
  }

  ghost predicate NoEmptyEntry(index: map<Ident, seq<nat>>) {
    forall i | i in index :: 0 < |index[i]|
  }

  ghost predicate OthersKept(index: map<Ident, seq<nat>>, r: map<Ident, seq<nat>>, o: nat) {
    forall i, k | k != o :: k in Listed(r, i) <==> k in Listed(index, i)
  }

  ghost predicate IsIndex(index: map<Ident, seq<nat>>, objects: seq<MqttObject>, specs: seq<Spec>) {
    && NoEmptyEntry(index)
    && (forall i, k | k in Listed(index, i) :: k < |objects|)
    && (forall i, k | 0 <= k < |objects| :: k in Listed(index, i) <==> Belongs(objects[k], specs, i))
  }

  method AddGroups(index: map<Ident, seq<nat>>, obj: MqttObject, o: nat, s: Spec) returns (r: map<Ident, seq<nat>>)
    requires NoEmptyEntry(index)
    ensures NoEmptyEntry(r) && OthersKept(index, r, o)
    ensures forall i :: o in Listed(r, i) <==> o in Listed(index, i) || MatchesSome(obj, s.name, s.groups, i)
  {
    r := index;
    for k := 0 to |s.groups|
      invariant NoEmptyEntry(r) && OthersKept(index, r, o)
      invariant forall i :: o in Listed(r, i) <==>
        o in Listed(index, i) || MatchesSome(obj, s.name, s.groups[..k], i)
    {
      assert s.groups[..k + 1] == s.groups[..k] + [s.groups[k]];
      forall i { MatchesOneMore(obj, s.name, s.groups[..k], s.groups[k], i); }
      if HasRegisterIn(obj, s.name, s.groups[k]) {
        var ident := IdentOf(s.name, s.groups[k]);
        r := r[ident := Listed(r, ident) + [o]];
      }
    }
    assert s.groups[..|s.groups|] == s.groups;
  }

  method AddObject(index: map<Ident, seq<nat>>, obj: MqttObject, o: nat, specs: seq<Spec>)
    returns (r: map<Ident, seq<nat>>)
    requires NoEmptyEntry(index)
    ensures NoEmptyEntry(r) && OthersKept(index, r, o)
    ensures forall i :: o in Listed(r, i) <==> o in Listed(index, i) || Belongs(obj, specs, i)
  {
    r := index;
    for k := 0 to |specs|
      invariant NoEmptyEntry(r) && OthersKept(index, r, o)
      invariant forall i :: o in Listed(r, i) <==> o in Listed(index, i) || Belongs(obj, specs[..k], i)
    {
      assert specs[..k + 1] == specs[..k] + [specs[k]];
      r := AddGroups(r, obj, o, specs[k]);
    }
    assert specs[..|specs|] == specs;
  }

  /** Object `o` is listed under an ident exactly if one of its registers lies in the group with that ident. */
  method BuildIndex(objects: seq<MqttObject>, specs: seq<Spec>) returns (r: map<Ident, seq<nat>>)
    ensures IsIndex(r, objects, specs)
  {
    r := map[];
    for o := 0 to |objects|
      invariant NoEmptyEntry(r)
      invariant forall i, k | k in Listed(r, i) :: k < o
      invariant forall i, k | 0 <= k < o :: k in Listed(r, i) <==> Belongs(objects[k], specs, i)
    {
      r := AddObject(r, objects[o], o, specs);
    }
  }

  // ------------------------------------------------------------------ the objects of each command

  /** A configured command: its id, and the registers it writes. */
  datatype CommandDeclaration = CommandDeclaration(id: int, network: string, target: Poll)

  function IdListed(index: map<int, seq<nat>>, id: int): seq<nat> {
    if id in index then index[id] else []
  }

  /** The object has a register among those that a command with this id writes. */
  ghost predicate ReadsWhatIsWritten(obj: MqttObject, commands: seq<CommandDeclaration>, id: int) {
    exists c | c in commands :: c.id == id && HasRegisterIn(obj, c.network, c.target)
  }

  ghost predicate IsCommandIndex(index: map<int, seq<nat>>, objects: seq<MqttObject>,
                                 commands: seq<CommandDeclaration>) {
    forall id, k | 0 <= k < |objects| :: k in IdListed(index, id) <==> ReadsWhatIsWritten(objects[k], commands, id)
  }

  lemma ReadsOneMore(obj: MqttObject, commands: seq<CommandDeclaration>, c: CommandDeclaration, id: int)
    ensures ReadsWhatIsWritten(obj, commands + [c], id) <==>
      ReadsWhatIsWritten(obj, commands, id) || (c.id == id && HasRegisterIn(obj, c.network, c.target))
  {
    hide HasRegisterIn;
    if ReadsWhatIsWritten(obj, commands, id) {
      var d :| d in commands && d.id == id && HasRegisterIn(obj, d.network, d.target);
      assert d in commands + [c];
    }
    if c.id == id && HasRegisterIn(obj, c.network, c.target) { assert c in commands + [c]; }
  }

  method AddCommands(index: map<int, seq<nat>>, obj: MqttObject, o: nat, commands: seq<CommandDeclaration>)
    returns (r: map<int, seq<nat>>)
    ensures forall id :: o in IdListed(r, id) <==> o in IdListed(index, id) || ReadsWhatIsWritten(obj, commands, id)
    ensures forall id, k | k != o :: k in IdListed(r, id) <==> k in IdListed(index, id)
  {
    r := index;
    assert commands[..0] == [] && forall id :: !ReadsWhatIsWritten(obj, [], id);
    hide HasRegisterIn, ReadsWhatIsWritten;
    for k := 0 to |commands|
      invariant forall id :: o in IdListed(r, id) <==>
        o in IdListed(index, id) || ReadsWhatIsWritten(obj, commands[..k], id)
      invariant forall id, j | j != o :: j in IdListed(r, id) <==> j in IdListed(index, id)
    {
      assert commands[..k + 1] == commands[..k] + [commands[k]];
      forall id { ReadsOneMore(obj, commands[..k], commands[k], id); }
      if HasRegisterIn(obj, commands[k].network, commands[k].target) {
        r := r[commands[k].id := IdListed(r, commands[k].id) + [o]];
      }
    }
    assert commands[..|commands|] == commands;
  }

  /** An object is listed under a command exactly if it has a register among those the command writes. */
  method BuildCommandIndex(objects: seq<MqttObject>, commands: seq<CommandDeclaration>) returns (r: map<int, seq<nat>>)
    ensures IsCommandIndex(r, objects, commands)
    ensures forall id, k | k in IdListed(r, id) :: k < |objects|
  {
    r := map[];
    for o := 0 to |objects|
      invariant forall id, k | k in IdListed(r, id) :: k < o
      invariant forall id, k | 0 <= k < o :: k in IdListed(r, id) <==> ReadsWhatIsWritten(objects[k], commands, id)
    {
      r := AddCommands(r, objects[o], o, commands);
    }
  }

  // ------------------------------------------------------------------ what the main thread relies on

  function FinalSpecs(networks: seq<Network>, objects: seq<MqttObject>): seq<Spec> {
    seq(|networks|, i requires 0 <= i < |networks| => FinalSpec(networks[i], objects))
  }

  /** The configuration parser gives every declaration a positive count and a refresh period, and poll
      groups no refresh period. */
  ghost predicate WellFormed(networks: seq<Network>, objects: seq<MqttObject>) {
    && (forall o, d | 0 <= o < |objects| && d in objects[o] :: d.poll.Positive() && d.poll.refresh != INVALID_REFRESH)
    && (forall n, p | 0 <= n < |networks| && p in networks[n].pollGroups ::
          p.Positive() && p.refresh == INVALID_REFRESH)
  }

  /** Groups the modbus thread schedules: it drops those without a refresh period. */
  function Scheduled(groups: seq<Poll>): seq<Poll> {
    if groups == [] then []
    else (if groups[0].refresh != INVALID_REFRESH then [groups[0]] else []) + Scheduled(groups[1..])
  }

  lemma {:induction false} ScheduledMembers(groups: seq<Poll>, g: Poll)
    ensures g in Scheduled(groups) <==> g in groups && g.refresh != INVALID_REFRESH
  {
    if groups != [] {
      ScheduledMembers(groups[1..], g);
      assert groups == [groups[0]] + groups[1..];
    }
  }

  lemma FinalSpecIsCanonical(networks: seq<Network>, objects: seq<MqttObject>, n: nat)
    requires WellFormed(networks, objects) && n < |networks|
    ensures Canonical(FinalSpec(networks[n], objects).groups,
                      AsSet(networks[n].pollGroups) + AsSet(Topics(objects, networks[n].name)))
    ensures AllPositive(AsSet(Topics(objects, networks[n].name)))
  {
    forall p | p in Topics(objects, networks[n].name) ensures p.Positive() {
      TopicsMembers(objects, networks[n].name, p);
    }
    FinalIsCanonical(networks[n].pollGroups, Topics(objects, networks[n].name));
  }

  lemma DeclarationInGroup(d: Declaration, g: Poll)
    requires d.poll.Positive() && d.poll.Within(g)
    ensures DeclaresIn(d, d.network, g)
  {
    assert NodeIn(Ident(d.network, d.poll.slave, d.poll.range.first, d.poll.range.kind), d.network, g);
  }

  /** A group around a declaration lists the declaring object. */
  lemma DeclarerIsListed(objects: seq<MqttObject>, specs: seq<Spec>, index: map<Ident, seq<nat>>,
                         s: Spec, o: nat, d: Declaration, g: Poll)
    requires IsIndex(index, objects, specs) && s in specs && g in s.groups
    requires o < |objects| && d in objects[o] && d.network == s.name && d.poll.Positive() && d.poll.Within(g)
    ensures o in Listed(index, IdentOf(s.name, g))
  {
    DeclarationInGroup(d, g);
    assert Matches(objects[o], s.name, g, IdentOf(s.name, g));
    assert MatchesSome(objects[o], s.name, s.groups, IdentOf(s.name, g));
    assert Belongs(objects[o], specs, IdentOf(s.name, g));
  }

  lemma FinalSpecIsListed(networks: seq<Network>, objects: seq<MqttObject>, n: nat)
    requires n < |networks|
    ensures FinalSpec(networks[n], objects) in FinalSpecs(networks, objects)
  {
    assert FinalSpecs(networks, objects)[n] == FinalSpec(networks[n], objects);
  }

  /** A group gets its refresh period from some object's declaration. */
  lemma ScheduledHasDeclaration(networks: seq<Network>, objects: seq<MqttObject>, n: nat, g: Poll)
    returns (o: nat, d: Declaration)
    requires WellFormed(networks, objects) && n < |networks|
    requires g in Scheduled(FinalSpec(networks[n], objects).groups)
    ensures g in FinalSpec(networks[n], objects).groups
    ensures o < |objects| && d in objects[o] && d.network == networks[n].name && d.poll.Within(g)
  {
    hide Tight, Disjoint, Housed, FinalGroups, Topics;
    var spec := FinalSpec(networks[n], objects);
    var topics := Topics(objects, spec.name);
    ScheduledMembers(spec.groups, g);
    FinalSpecIsCanonical(networks, objects, n);
    assert Summarises(g, AsSet(networks[n].pollGroups) + AsSet(topics));
    var q :| q in AsSet(networks[n].pollGroups) + AsSet(topics) && q.Within(g) && q.refresh == g.refresh;
    assert q in topics;
    TopicsMembers(objects, spec.name, q);
    o :| 0 <= o < |objects| && Declaration(spec.name, q) in objects[o];
    d := Declaration(spec.name, q);
  }

  /** Every scheduled group has an entry in the index, so the lookup of its poll data never fails. */
  lemma ScheduledIsIndexed(networks: seq<Network>, objects: seq<MqttObject>, index: map<Ident, seq<nat>>,
                           n: nat, g: Poll)
    requires WellFormed(networks, objects) && IsIndex(index, objects, FinalSpecs(networks, objects))
    requires n < |networks| && g in Scheduled(FinalSpec(networks[n], objects).groups)
    ensures IdentOf(networks[n].name, g) in index
  {
    hide IsIndex, FinalGroups, Scheduled, FinalSpecs;
    var o, d := ScheduledHasDeclaration(networks, objects, n, g);
    FinalSpecIsListed(networks, objects, n);
    DeclarerIsListed(objects, FinalSpecs(networks, objects), index, FinalSpec(networks[n], objects), o, d, g);
  }

  /** A declared register lies in exactly one group of its network, and that group is scheduled. */
  lemma RegisterHome(networks: seq<Network>, objects: seq<MqttObject>, n: nat, o: nat, d: Declaration, r: int)
    returns (g: Poll)
    requires WellFormed(networks, objects) && n < |networks| && o < |objects|
    requires d in objects[o] && d.network == networks[n].name && d.poll.range.Has(r)
    ensures g in FinalSpec(networks[n], objects).groups && d.poll.Within(g) && g.refresh != INVALID_REFRESH
    ensures forall h | h in FinalSpec(networks[n], objects).groups && h.Covers(d.poll.slave, d.poll.range.kind, r) ::
      h == g
  {
    hide Tight, FinalGroups, Topics;
    var spec := FinalSpec(networks[n], objects);
    var polls := AsSet(networks[n].pollGroups) + AsSet(Topics(objects, spec.name));
    FinalSpecIsCanonical(networks, objects, n);
    TopicsMembers(objects, spec.name, d.poll);
    assert d == Declaration(spec.name, d.poll);
    assert d.poll in polls && Housed(d.poll, spec.groups);
    g :| g in spec.groups && d.poll.Within(g);
    assert Summarises(g, polls);
    forall h | h in spec.groups && h.Covers(d.poll.slave, d.poll.range.kind, r) ensures h == g {
      SharedRegister(spec.groups, h, g, r);
    }
  }

  /** Every register an object declares on a configured network lies in a group of that network that is
      scheduled and lists the object, and in no other group. */
  lemma RegisterInOneGroup(networks: seq<Network>, objects: seq<MqttObject>, index: map<Ident, seq<nat>>,
                           n: nat, o: nat, d: Declaration, r: int) returns (g: Poll)
    requires WellFormed(networks, objects) && IsIndex(index, objects, FinalSpecs(networks, objects))
    requires n < |networks| && o < |objects| && d in objects[o] && d.network == networks[n].name
    requires d.poll.range.Has(r)
    ensures g in Scheduled(FinalSpec(networks[n], objects).groups)
    ensures g.Covers(d.poll.slave, d.poll.range.kind, r)
    ensures forall h | h in FinalSpec(networks[n], objects).groups && h.Covers(d.poll.slave, d.poll.range.kind, r) ::
      h == g
    ensures o in Listed(index, IdentOf(d.network, g))
  {
    hide IsIndex, FinalGroups, FinalSpecs;
    g := RegisterHome(networks, objects, n, o, d, r);
    ScheduledMembers(FinalSpec(networks[n], objects).groups, g);
    FinalSpecIsListed(networks, objects, n);
    DeclarerIsListed(objects, FinalSpecs(networks, objects), index, FinalSpec(networks[n], objects), o, d, g);
  }
}
