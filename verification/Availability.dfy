/** The register values behind one MQTT object and the cached flag that says whether its state is valid. */
module Availability {
  import opened ModbusTypes
  import opened ObjectIndex
  import opened Options

  datatype Flag = NotSet | False | True

  datatype Register = Register(ident: Ident, hasValue: bool, readOk: bool, value: nat)

  /** A list of data nodes: the first one, its child nodes and the nodes after it. A node without child
      nodes is a scalar and stands for its register. */
  datatype Nodes = End | Node(reg: Register, converter: Option<nat>, children: Nodes, rest: Nodes)

  /** What the main thread learns from a modbus thread. */
  datatype Message =
    | Values(network: string, slave: int, kind: RegisterType, first: int, values: seq<nat>)
    | Failed(network: string, slave: int, kind: RegisterType, first: int, count: int)
    | NetworkState(network: string, up: bool)

  // ------------------------------------------------------------------ registers

  predicate SameSlave(r: Register, m: Message)
    requires !m.NetworkState?
  {
    m.slave == r.ident.slave && m.kind == r.ident.kind && m.network == r.ident.network
  }

  function Abs(x: int): nat {
    if x < 0 then -x else x
  }

  /** Whether the message is about the register. A failure is also taken to be about as many registers
      before its first one, and distances are cut to 16 bits. */
  predicate Concerns(m: Message, r: Register) {
    match m
    case Values(_, _, _, first, values) => SameSlave(r, m) && first <= r.ident.register <= first + |values| - 1
    case Failed(_, _, _, first, count) => SameSlave(r, m) && Abs(r.ident.register - first) % 0x10000 < count
    case NetworkState(network, _) => network == r.ident.network
  }

  function UpdateRegister(r: Register, m: Message): Register {
    if !Concerns(m, r) then r
    else
      match m
      case Values(_, _, _, first, values) =>
        r.(hasValue := true, value := values[(r.ident.register - first) % 0x10000], readOk := true)
      case Failed(_, _, _, _, _) => r.(readOk := false)
      case NetworkState(_, up) => r.(readOk := up)
  }

  /** What the update of a register reports. A value equal to the known one counts as no change, even if it
      ends a read error; a failure counts as a change, even if it is not the first. */
  predicate ReportsChange(r: Register, m: Message) {
    Concerns(m, r) &&
    match m
    case Values(_, _, _, first, values) => r.value != values[(r.ident.register - first) % 0x10000] || !r.hasValue
    case Failed(_, _, _, _, _) => true
    case NetworkState(_, up) => r.readOk != up
  }

  // ------------------------------------------------------------------ node trees

  function Update(f: Nodes, m: Message): Nodes {
    match f
    case End => End
    case Node(reg, converter, children, rest) =>
      Node(if children.End? then UpdateRegister(reg, m) else reg, converter, Update(children, m), Update(rest, m))
  }

  predicate Changed(f: Nodes, m: Message) {
    match f
    case End => false
    case Node(reg, _, children, rest) =>
      (if children.End? then ReportsChange(reg, m) else Changed(children, m)) || Changed(rest, m)
  }

  predicate HasAllValues(f: Nodes) {
    match f
    case End => true
    case Node(reg, _, children, rest) =>
      (if children.End? then reg.hasValue else HasAllValues(children)) && HasAllValues(rest)
  }

  predicate IsPolling(f: Nodes) {
    match f
    case End => true
    case Node(reg, _, children, rest) =>
      (if children.End? then reg.readOk else IsPolling(children)) && IsPolling(rest)
  }

  function RawValues(f: Nodes): seq<nat> {
    match f
    case End => []
    case Node(reg, _, _, rest) => [reg.value] + RawValues(rest)
  }

  /** Value of the first node. Converters are unknown functions, named by number. */
  function ConvertedValue(f: Nodes, convert: (nat, seq<nat>) -> int): int
    requires f.Node?
  {
    if f.converter.Some? then
      convert(f.converter.value, if f.children.End? then [f.reg.value] else RawValues(f.children))
    else f.reg.value
  }

  // ------------------------------------------------------------------ the flag

  /** An object's data nodes, its availability nodes with the value that means available, and the flag. */
  datatype Object = Object(state: Nodes, avail: Nodes, wanted: int, flag: Flag)

  function AvailableFlag(avail: Nodes, wanted: int, convert: (nat, seq<nat>) -> int): Flag {
    if avail.End? then True
    else if !HasAllValues(avail) || !IsPolling(avail) then NotSet
    else if ConvertedValue(avail, convert) != wanted then False
    else True
  }

  function Recompute(o: Object, convert: (nat, seq<nat>) -> int): Flag {
    if !IsPolling(o.avail) || !IsPolling(o.state) then False
    else if !HasAllValues(o.avail) || !HasAllValues(o.state) then NotSet
    else AvailableFlag(o.avail, o.wanted, convert)
  }

  /** The flag is computed again only if something reported a change or, for values, if it is `False`. */
  function Apply(o: Object, m: Message, convert: (nat, seq<nat>) -> int): Object {
    var o1 := o.(state := Update(o.state, m), avail := Update(o.avail, m));
    if Changed(o.state, m) || Changed(o.avail, m) || (m.Values? && o.flag == False)
    then o1.(flag := Recompute(o1, convert))
    else o1
  }

  class MqttObject {
    const convert: (nat, seq<nat>) -> int
    const wanted: int
    var state: Nodes
    var avail: Nodes
    var flag: Flag

    ghost function Contents(): Object
      reads this
    {
      Object(state, avail, wanted, flag)
    }

    constructor (state: Nodes, avail: Nodes, wanted: int, convert: (nat, seq<nat>) -> int)
      ensures Contents() == Object(state, avail, wanted, NotSet) && this.convert == convert
    {
      this.state, this.avail, this.wanted, this.convert, this.flag := state, avail, wanted, convert, NotSet;
    }

    method UpdateAvailabilityFlag()
      modifies this`flag
      ensures flag == Recompute(old(Contents()), convert)
    {
      if !IsPolling(avail) || !IsPolling(state) {
        flag := False;
      } else if !HasAllValues(avail) || !HasAllValues(state) {
        flag := NotSet;
      } else {
        flag := AvailableFlag(avail, wanted, convert);
      }
    }

    method UpdateRegisterValues(m: Message)
      requires m.Values?
      modifies this
      ensures Contents() == Apply(old(Contents()), m, convert)
    {
      var changed := Changed(state, m) || Changed(avail, m);
      state := Update(state, m);
      avail := Update(avail, m);
      if changed || flag == False {
        UpdateAvailabilityFlag();
      }
    }

    method UpdateRegistersReadFailed(m: Message)
      requires m.Failed?
      modifies this
      ensures Contents() == Apply(old(Contents()), m, convert)
    {
      var changed := Changed(state, m) || Changed(avail, m);
      state := Update(state, m);
      avail := Update(avail, m);
      if changed {
        UpdateAvailabilityFlag();
      }
    }

    method SetModbusNetworkState(m: Message) returns (changed: bool)
      requires m.NetworkState?
      modifies this
      ensures Contents() == Apply(old(Contents()), m, convert)
      ensures !changed ==> Contents() == old(Contents())
    {
      changed := Changed(state, m) || Changed(avail, m);
      if !changed {
        UnchangedMeansSame(state, m);
        UnchangedMeansSame(avail, m);
      }
      state := Update(state, m);
      avail := Update(avail, m);
      if changed {
        UpdateAvailabilityFlag();
      }
    }
  }

  // ------------------------------------------------------------------ the flag is never stale

  /** If no change is reported, the nodes are the same, unless values end a read error. */
  lemma UnchangedMeansSame(f: Nodes, m: Message)
    requires !Changed(f, m) && (IsPolling(f) || !m.Values?)
    ensures Update(f, m) == f
  {
  }

  /** The flag is what would be computed from all registers. */
  ghost predicate UpToDate(o: Object, convert: (nat, seq<nat>) -> int) {
    o.flag == Recompute(o, convert)
  }

  lemma ApplyKeepsUpToDate(o: Object, m: Message, convert: (nat, seq<nat>) -> int)
    requires UpToDate(o, convert)
    ensures UpToDate(Apply(o, m, convert), convert)
  {
    if !Changed(o.state, m) && !Changed(o.avail, m) && (m.Values? ==> o.flag != False) {
      UnchangedMeansSame(o.state, m);
      UnchangedMeansSame(o.avail, m);
    }
  }

  function ApplyAll(o: Object, messages: seq<Message>, convert: (nat, seq<nat>) -> int): Object {
    if messages == [] then o
    else Apply(ApplyAll(o, messages[..|messages| - 1], convert), messages[|messages| - 1], convert)
  }

  // ------------------------------------------------------------------ what the registers say

  /** The registers of a list of nodes, from left to right. */
  function Registers(f: Nodes): seq<Register> {
    match f
    case End => []
    case Node(reg, _, children, rest) => (if children.End? then [reg] else Registers(children)) + Registers(rest)
  }

  predicate Unread(f: Nodes) {
    forall i | 0 <= i < |Registers(f)| :: Registers(f)[i].readOk && !Registers(f)[i].hasValue
  }

  /** A new object with at least one register. */
  predicate IsNew(o: Object) {
    o.flag == NotSet && Unread(o.state) && Unread(o.avail) && Registers(o.state) + Registers(o.avail) != []
  }

  predicate AllOk(regs: seq<Register>) {
    forall i | 0 <= i < |regs| :: regs[i].readOk
  }

  predicate AllKnown(regs: seq<Register>) {
    forall i | 0 <= i < |regs| :: regs[i].hasValue
  }

  lemma AllOfConcat(a: seq<Register>, b: seq<Register>)
    ensures AllOk(a + b) <==> AllOk(a) && AllOk(b)
    ensures AllKnown(a + b) <==> AllKnown(a) && AllKnown(b)
  {
    assert forall i | 0 <= i < |a| :: (a + b)[i] == a[i];
    assert forall i | 0 <= i < |b| :: (a + b)[|a| + i] == b[i];
  }

  lemma {:induction false} FlagsOfRegisters(f: Nodes)
    ensures IsPolling(f) <==> AllOk(Registers(f))
    ensures HasAllValues(f) <==> AllKnown(Registers(f))
  {
    match f
    case End =>
    case Node(reg, _, children, rest) =>
      FlagsOfRegisters(children);
      FlagsOfRegisters(rest);
      AllOfConcat(if children.End? then [reg] else Registers(children), Registers(rest));
      assert [reg][0] == reg;
  }

  lemma NewIsUpToDate(o: Object, convert: (nat, seq<nat>) -> int)
    requires IsNew(o)
    ensures UpToDate(o, convert)
  {
    FlagsOfRegisters(o.state);
    FlagsOfRegisters(o.avail);
    if Registers(o.state) != [] {
      assert !Registers(o.state)[0].hasValue;
    } else {
      assert !Registers(o.avail)[0].hasValue;
    }
  }

  /** The cached flag is right after any messages, although it is often not computed again. */
  lemma {:induction false} FlagIsRecomputed(o: Object, messages: seq<Message>, convert: (nat, seq<nat>) -> int)
    requires IsNew(o)
    ensures UpToDate(ApplyAll(o, messages, convert), convert)
  {
    if messages == [] {
      NewIsUpToDate(o, convert);
    } else {
      FlagIsRecomputed(o, messages[..|messages| - 1], convert);
      ApplyKeepsUpToDate(ApplyAll(o, messages[..|messages| - 1], convert), messages[|messages| - 1], convert);
    }
  }

  /** A register after some messages, whatever tree it is in. */
  function After(r: Register, messages: seq<Message>): Register {
    if messages == [] then r else UpdateRegister(After(r, messages[..|messages| - 1]), messages[|messages| - 1])
  }

  function AllAfter(regs: seq<Register>, messages: seq<Message>): seq<Register> {
    seq(|regs|, i requires 0 <= i < |regs| => After(regs[i], messages))
  }

  function UpdateAll(regs: seq<Register>, m: Message): seq<Register> {
    seq(|regs|, i requires 0 <= i < |regs| => UpdateRegister(regs[i], m))
  }

  lemma {:induction false} UpdateReachesAll(f: Nodes, m: Message)
    ensures Registers(Update(f, m)) == UpdateAll(Registers(f), m)
  {
    if f.Node? {
      UpdateReachesAll(f.children, m);
      UpdateReachesAll(f.rest, m);
    }
  }

  lemma {:induction false} RegistersAfter(o: Object, messages: seq<Message>, convert: (nat, seq<nat>) -> int)
    ensures var r := ApplyAll(o, messages, convert);
      && Registers(r.state) == AllAfter(Registers(o.state), messages)
      && Registers(r.avail) == AllAfter(Registers(o.avail), messages)
      && r.wanted == o.wanted
  {
    if messages != [] {
      var before := ApplyAll(o, messages[..|messages| - 1], convert);
      RegistersAfter(o, messages[..|messages| - 1], convert);
      UpdateReachesAll(before.state, messages[|messages| - 1]);
      UpdateReachesAll(before.avail, messages[|messages| - 1]);
    }
  }

  /** The flag after any messages, told from the registers alone: `False` exactly if some register has a
      read error or the availability value is wrong, `NotSet` exactly if all reads are fine but some value
      is missing. */
  lemma FlagMeaning(o: Object, messages: seq<Message>, convert: (nat, seq<nat>) -> int)
    requires IsNew(o)
    ensures var r := ApplyAll(o, messages, convert);
      var regs := AllAfter(Registers(o.state) + Registers(o.avail), messages);
      r.flag == if !AllOk(regs) then False else if !AllKnown(regs) then NotSet
                else if r.avail.Node? && ConvertedValue(r.avail, convert) != o.wanted then False else True
  {
    var r := ApplyAll(o, messages, convert);
    hide ApplyAll, After, UpToDate, IsNew;
    FlagIsRecomputed(o, messages, convert);
    RegistersAfter(o, messages, convert);
    FlagFromRegisters(r, convert);
    assert AllAfter(Registers(o.state) + Registers(o.avail), messages) == Registers(r.state) + Registers(r.avail);
  }

  lemma FlagFromRegisters(o: Object, convert: (nat, seq<nat>) -> int)
    requires UpToDate(o, convert)
    ensures var regs := Registers(o.state) + Registers(o.avail);
      o.flag == if !AllOk(regs) then False else if !AllKnown(regs) then NotSet
                else if o.avail.Node? && ConvertedValue(o.avail, convert) != o.wanted then False else True
  {
    FlagsOfRegisters(o.state);
    FlagsOfRegisters(o.avail);
    AllOfConcat(Registers(o.state), Registers(o.avail));
    hide Registers, AllOk, AllKnown, IsPolling, HasAllValues, ConvertedValue;
  }

  // ------------------------------------------------------------------ known values stay known

  lemma KnownStaysKnown(f: Nodes, m: Message)
    requires HasAllValues(f)
    ensures HasAllValues(Update(f, m))
  {
  }

  predicate Known(o: Object) {
    HasAllValues(o.state) && HasAllValues(o.avail)
  }

  /** Once all values are known, the flag is not `NotSet` any more; in particular `True` never turns into it. */
  lemma KnownIsSet(o: Object, m: Message, convert: (nat, seq<nat>) -> int)
    requires UpToDate(o, convert)
    ensures Known(o) ==> o.flag != NotSet && Known(Apply(o, m, convert)) && Apply(o, m, convert).flag != NotSet
    ensures o.flag == True ==> Known(o)
  {
    ApplyKeepsUpToDate(o, m, convert);
    if Known(o) {
      KnownStaysKnown(o.state, m);
      KnownStaysKnown(o.avail, m);
    }
  }

  // ------------------------------------------------------------------ which registers a failure marks

  /** A failed read of three registers from 10 on marks register 8. */
  lemma FailureMarksRegisterBefore(network: string, slave: int, kind: RegisterType)
    ensures var m := Failed(network, slave, kind, 10, 3);
      var r := Register(Ident(network, slave, 8, kind), true, true, 0);
      !UpdateRegister(r, m).readOk && r.ident.register < m.first
  {
  }

  /** Addresses are 16 bits wide. */
  predicate InReach(m: Message, r: Register)
    requires m.Failed?
  {
    -0x10000 < r.ident.register - m.first < 0x10000
  }

  /** A failure is about the registers of its range and as many before it. */
  lemma FailureConcerns(m: Message, r: Register)
    requires m.Failed? && InReach(m, r)
    ensures Concerns(m, r) <==> SameSlave(r, m) && m.first - m.count < r.ident.register < m.first + m.count
  {
  }

  /** The register lies in the range that could not be read. */
  predicate InRange(m: Message, r: Register)
    requires m.Failed?
  {
    SameSlave(r, m) && m.first <= r.ident.register < m.first + m.count
  }

  /** The register lies before the range but is marked with it. */
  predicate Before(m: Message, r: Register)
    requires m.Failed?
  {
    SameSlave(r, m) && m.first - m.count < r.ident.register < m.first
  }

  /** Marks the registers of the range and no others. */
  function MarkRange(f: Nodes, m: Message): Nodes
    requires m.Failed?
  {
    match f
    case End => End
    case Node(reg, converter, children, rest) =>
      Node(if children.End? && InRange(m, reg) then reg.(readOk := false) else reg, converter,
           MarkRange(children, m), MarkRange(rest, m))
  }

  function ApplyRange(o: Object, m: Message, convert: (nat, seq<nat>) -> int): Object
    requires m.Failed?
  {
    var o1 := o.(state := MarkRange(o.state, m), avail := MarkRange(o.avail, m));
    o1.(flag := Recompute(o1, convert))
  }

  predicate AllInReach(f: Nodes, m: Message)
    requires m.Failed?
  {
    match f
    case End => true
    case Node(reg, _, children, rest) =>
      (if children.End? then InReach(m, reg) else AllInReach(children, m)) && AllInReach(rest, m)
  }

  predicate NoneBefore(f: Nodes, m: Message)
    requires m.Failed?
  {
    match f
    case End => true
    case Node(reg, _, children, rest) =>
      (if children.End? then !Before(m, reg) else NoneBefore(children, m)) && NoneBefore(rest, m)
  }

  /** The same nodes with other values and read errors. */
  predicate SameNodes(f: Nodes, g: Nodes) {
    match f
    case End => g.End?
    case Node(reg, converter, children, rest) =>
      && g.Node? && g.reg.ident == reg.ident && g.converter == converter
      && SameNodes(children, g.children) && SameNodes(rest, g.rest)
  }

  /** A node list before anything was read. */
  function Unset(f: Nodes): Nodes {
    match f
    case End => End
    case Node(reg, converter, children, rest) =>
      Node(Register(reg.ident, false, true, 0), converter, Unset(children), Unset(rest))
  }

  lemma {:induction false} UnsetIsSame(f: Nodes)
    ensures SameNodes(f, Unset(f))
  {
    if f.Node? {
      UnsetIsSame(f.children);
      UnsetIsSame(f.rest);
    }
  }

  lemma {:induction false} NoneBeforeIsExact(f: Nodes, m: Message)
    requires m.Failed? && AllInReach(f, m) && NoneBefore(f, m)
    ensures Update(f, m) == MarkRange(f, m)
  {
    if f.Node? {
      if f.children.End? {
        FailureConcerns(m, f.reg);
      } else {
        NoneBeforeIsExact(f.children, m);
      }
      NoneBeforeIsExact(f.rest, m);
    }
  }

  lemma {:induction false} SameNodesSameReach(f: Nodes, g: Nodes, m: Message)
    requires m.Failed? && SameNodes(f, g)
    ensures AllInReach(g, m) == AllInReach(f, m) && NoneBefore(g, m) == NoneBefore(f, m)
  {
    if f.Node? {
      SameNodesSameReach(f.children, g.children, m);
      SameNodesSameReach(f.rest, g.rest, m);
    }
  }

  lemma {:induction false} UnsetShowsDifference(f: Nodes, m: Message)
    requires m.Failed? && AllInReach(f, m) && !NoneBefore(f, m)
    ensures Update(Unset(f), m) != MarkRange(Unset(f), m)
  {
    if f.children.End? {
      FailureConcerns(m, f.reg);
      if !Before(m, f.reg) { UnsetShowsDifference(f.rest, m); }
    } else if NoneBefore(f.children, m) {
      UnsetShowsDifference(f.rest, m);
    } else {
      UnsetShowsDifference(f.children, m);
    }
  }

  predicate SameObject(o: Object, p: Object) {
    SameNodes(o.state, p.state) && SameNodes(o.avail, p.avail) && p.wanted == o.wanted
  }

  /** With no register before the range, a failure marks exactly the range, in every state of the object. */
  lemma ExactIfNoneBefore(o: Object, m: Message, convert: (nat, seq<nat>) -> int)
    requires m.Failed? && AllInReach(o.state, m) && AllInReach(o.avail, m) && UpToDate(o, convert)
    requires NoneBefore(o.state, m) && NoneBefore(o.avail, m)
    ensures Apply(o, m, convert) == ApplyRange(o, m, convert)
  {
    NoneBeforeIsExact(o.state, m);
    NoneBeforeIsExact(o.avail, m);
    ApplyKeepsUpToDate(o, m, convert);
    hide Update, MarkRange, Changed, Recompute;
  }

  /** A failure marks exactly the registers of its range, in every state of the object, if and only if the
      object has no register of that network, slave and type just before the range. */
  lemma FailureIsExactExactly(o: Object, m: Message, convert: (nat, seq<nat>) -> int)
    requires m.Failed? && AllInReach(o.state, m) && AllInReach(o.avail, m)
    ensures (forall p | SameObject(o, p) && UpToDate(p, convert) :: Apply(p, m, convert) == ApplyRange(p, m, convert))
      <==> NoneBefore(o.state, m) && NoneBefore(o.avail, m)
  {
    if NoneBefore(o.state, m) && NoneBefore(o.avail, m) {
      forall p | SameObject(o, p) && UpToDate(p, convert) ensures Apply(p, m, convert) == ApplyRange(p, m, convert) {
        SameNodesSameReach(o.state, p.state, m);
        SameNodesSameReach(o.avail, p.avail, m);
        ExactIfNoneBefore(p, m, convert);
      }
    } else {
      var p0 := Object(Unset(o.state), Unset(o.avail), o.wanted, NotSet);
      var p := p0.(flag := Recompute(p0, convert));
      UnsetIsSame(o.state);
      UnsetIsSame(o.avail);
      if !NoneBefore(o.state, m) { UnsetShowsDifference(o.state, m); } else { UnsetShowsDifference(o.avail, m); }
      assert SameObject(o, p) && UpToDate(p, convert);
      hide Update, MarkRange, Unset;
      assert Apply(p, m, convert) != ApplyRange(p, m, convert);
    }
  }
}
