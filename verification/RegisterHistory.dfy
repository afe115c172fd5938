/** What the registers of an object hold after any messages, told from the messages alone. */
module RegisterHistory {
  import opened Options
  import opened ModbusTypes
  import opened ObjectIndex
  import opened Availability

  // ------------------------------------------------------------------ one register

  /** The message brings a value for the register. */
  predicate Brings(m: Message, id: Ident) {
    && m.Values? && m.network == id.network && m.slave == id.slave && m.kind == id.kind
    && m.first <= id.register < m.first + |m.values|
  }

  /** The message reports a failure that is taken to concern the register: the distance from the first failed
      register, cut to 16 bits, is less than their number. */
  predicate Fails(m: Message, id: Ident) {
    && m.Failed? && m.network == id.network && m.slave == id.slave && m.kind == id.kind
    && (if m.first <= id.register then id.register - m.first else m.first - id.register) % 0x10000 < m.count
  }

  predicate Switches(m: Message, id: Ident) {
    m.NetworkState? && m.network == id.network
  }

  predicate About(m: Message, id: Ident) {
    Brings(m, id) || Fails(m, id) || Switches(m, id)
  }

  lemma OneMessage(r: Register, m: Message)
    ensures var r' := UpdateRegister(r, m);
      && r'.ident == r.ident
      && (if Brings(m, r.ident)
          then r'.hasValue && r'.value == m.values[(r.ident.register - m.first) % 0x10000]
          else r'.hasValue == r.hasValue && r'.value == r.value)
      && r'.readOk == (if Brings(m, r.ident) then true else if Fails(m, r.ident) then false
                       else if Switches(m, r.ident) then m.up else r.readOk)
  {
  }

  lemma {:induction false} IdentStays(r: Register, messages: seq<Message>)
    ensures After(r, messages).ident == r.ident
  {
    if messages != [] {
      var n := |messages| - 1;
      IdentStays(r, messages[..n]);
      OneMessage(After(r, messages[..n]), messages[n]);
    }
  }

  /** The last message with a value for the register decides its value. */
  lemma {:induction false} LastValueCounts(r: Register, messages: seq<Message>, k: nat)
    requires k < |messages| && Brings(messages[k], r.ident)
    requires forall j | k < j < |messages| :: !Brings(messages[j], r.ident)
    ensures var m := messages[k]; var offset := r.ident.register - m.first;
      && After(r, messages).hasValue && After(r, messages).value == m.values[offset % 0x10000]
      && (offset < 0x10000 ==> After(r, messages).value == m.values[offset])
  {
    var n := |messages| - 1;
    IdentStays(r, messages[..n]);
    OneMessage(After(r, messages[..n]), messages[n]);
    hide UpdateRegister, Brings;
    if k < n { LastValueCounts(r, messages[..n], k); }
  }

  /** Without such a message the register has the value it had, or none. */
  lemma {:induction false} ValueStays(r: Register, messages: seq<Message>)
    requires forall j | 0 <= j < |messages| :: !Brings(messages[j], r.ident)
    ensures After(r, messages).hasValue == r.hasValue && After(r, messages).value == r.value
  {
    if messages != [] {
      var n := |messages| - 1;
      IdentStays(r, messages[..n]);
      OneMessage(After(r, messages[..n]), messages[n]);
      hide UpdateRegister, Brings;
      ValueStays(r, messages[..n]);
    }
  }

  /** The last message about the register decides whether it has a read error. */
  lemma {:induction false} LastMessageCounts(r: Register, messages: seq<Message>, k: nat)
    requires k < |messages| && About(messages[k], r.ident)
    requires forall j | k < j < |messages| :: !About(messages[j], r.ident)
    ensures After(r, messages).readOk == match messages[k]
      case Values(_, _, _, _, _) => true
      case Failed(_, _, _, _, _) => false
      case NetworkState(_, up) => up
  {
    var n := |messages| - 1;
    IdentStays(r, messages[..n]);
    OneMessage(After(r, messages[..n]), messages[n]);
    hide UpdateRegister;
    if k < n { LastMessageCounts(r, messages[..n], k); }
  }

  lemma {:induction false} ReadOkStays(r: Register, messages: seq<Message>)
    requires forall j | 0 <= j < |messages| :: !About(messages[j], r.ident)
    ensures After(r, messages).readOk == r.readOk
  {
    if messages != [] {
      var n := |messages| - 1;
      IdentStays(r, messages[..n]);
      OneMessage(After(r, messages[..n]), messages[n]);
      hide UpdateRegister;
      ReadOkStays(r, messages[..n]);
    }
  }

  // ------------------------------------------------------------------ all registers of an object

  /** The registers of an object, those of its state before those of its availability. */
  function AllRegisters(o: Object): seq<Register> {
    Registers(o.state) + Registers(o.avail)
  }

  /** The register holds the value of the `k`-th message, which is the last one with a value for it. */
  predicate HoldsValueOf(r: Register, messages: seq<Message>, k: nat) {
    && k < |messages| && Brings(messages[k], r.ident)
    && (forall j | k < j < |messages| :: !Brings(messages[j], r.ident))
    && r.hasValue && r.value == messages[k].values[(r.ident.register - messages[k].first) % 0x10000]
  }

  predicate HoldsNothingNew(r: Register, was: Register, messages: seq<Message>) {
    && (forall j | 0 <= j < |messages| :: !Brings(messages[j], r.ident))
    && r.hasValue == was.hasValue && r.value == was.value
  }

  function LastIndex(messages: seq<Message>, id: Ident): (k: Option<nat>)
    ensures k.Some? ==>
      && k.value < |messages| && Brings(messages[k.value], id)
      && forall j | k.value < j < |messages| :: !Brings(messages[j], id)
    ensures k.None? ==> forall j | 0 <= j < |messages| :: !Brings(messages[j], id)
  {
    if messages == [] then None
    else
      var n := |messages| - 1;
      assert forall j | 0 <= j < n :: messages[..n][j] == messages[j];
      if Brings(messages[n], id) then Some(n) else LastIndex(messages[..n], id)
  }

  /** After any messages every register of an object, in its state and its availability, is the same register
      and holds the value of the last message that brought one, or what it held at first. */
  lemma ObjectHoldsLastValues(o: Object, messages: seq<Message>, convert: (nat, seq<nat>) -> int, i: nat)
    requires i < |AllRegisters(o)|
    ensures var r := ApplyAll(o, messages, convert);
      && |AllRegisters(r)| == |AllRegisters(o)| && AllRegisters(r)[i].ident == AllRegisters(o)[i].ident
      && (HoldsNothingNew(AllRegisters(r)[i], AllRegisters(o)[i], messages) ||
          exists k: nat :: HoldsValueOf(AllRegisters(r)[i], messages, k))
  {
    var was := AllRegisters(o)[i];
    RegisterOfObject(o, messages, convert, i);
    IdentStays(was, messages);
    var k := LastIndex(messages, was.ident);
    hide ApplyAll, After, Brings, Registers;
    if k.Some? {
      LastValueCounts(was, messages, k.value);
      assert HoldsValueOf(After(was, messages), messages, k.value);
    } else {
      ValueStays(was, messages);
    }
  }

  function LastAbout(messages: seq<Message>, id: Ident): (k: Option<nat>)
    ensures k.Some? ==>
      && k.value < |messages| && About(messages[k.value], id)
      && forall j | k.value < j < |messages| :: !About(messages[j], id)
    ensures k.None? ==> forall j | 0 <= j < |messages| :: !About(messages[j], id)
  {
    if messages == [] then None
    else
      var n := |messages| - 1;
      assert forall j | 0 <= j < n :: messages[..n][j] == messages[j];
      if About(messages[n], id) then Some(n) else LastAbout(messages[..n], id)
  }

  /** A message that is not a failure and does not say that the network is down. */
  predicate GoodNews(m: Message) {
    m.Values? || (m.NetworkState? && m.up)
  }

  /** And it has a read error exactly if the last message about it was a failure or a network going down, or
      if it had one at first and no message was about it. */
  lemma ObjectReadErrors(o: Object, messages: seq<Message>, convert: (nat, seq<nat>) -> int, i: nat)
    requires i < |AllRegisters(o)|
    ensures var r := ApplyAll(o, messages, convert); var was := AllRegisters(o)[i];
      && |AllRegisters(r)| == |AllRegisters(o)|
      && var k := LastAbout(messages, was.ident);
         AllRegisters(r)[i].readOk == if k.None? then was.readOk else GoodNews(messages[k.value])
  {
    var was := AllRegisters(o)[i];
    RegisterOfObject(o, messages, convert, i);
    var k := LastAbout(messages, was.ident);
    hide ApplyAll, After, About, Registers, LastAbout;
    if k.Some? { LastMessageCounts(was, messages, k.value); } else { ReadOkStays(was, messages); }
  }

  lemma RegisterOfObject(o: Object, messages: seq<Message>, convert: (nat, seq<nat>) -> int, i: nat)
    requires i < |AllRegisters(o)|
    ensures var r := ApplyAll(o, messages, convert);
      |AllRegisters(r)| == |AllRegisters(o)| && AllRegisters(r)[i] == After(AllRegisters(o)[i], messages)
  {
    RegistersAfter(o, messages, convert);
    hide ApplyAll, After, Registers;
  }

  // ------------------------------------------------------------------ what a converter is given

  /** None of the nodes has child nodes, as the source demands of the children of a converted node. */
  predicate Flat(f: Nodes) {
    f.Node? ==> f.children.End? && Flat(f.rest)
  }

  function ValuesOf(regs: seq<Register>): seq<nat> {
    seq(|regs|, i requires 0 <= i < |regs| => regs[i].value)
  }

  /** The registers of the first node. */
  function FirstRegisters(f: Nodes): seq<Register>
    requires f.Node?
  {
    if f.children.End? then [f.reg] else Registers(f.children)
  }

  lemma {:induction false} RawValuesInOrder(f: Nodes)
    requires Flat(f)
    ensures RawValues(f) == ValuesOf(Registers(f))
  {
    if f.Node? {
      RawValuesInOrder(f.rest);
      assert Registers(f) == [f.reg] + Registers(f.rest);
      assert ValuesOf(Registers(f)) == [f.reg.value] + ValuesOf(Registers(f.rest));
    }
  }

  /** A converter is given the values of the registers of its node, from left to right. */
  lemma ConverterGetsValues(f: Nodes, convert: (nat, seq<nat>) -> int)
    requires f.Node? && f.converter.Some? && Flat(f.children)
    ensures ConvertedValue(f, convert) == convert(f.converter.value, ValuesOf(FirstRegisters(f)))
  {
    RawValuesInOrder(f.children);
    assert ValuesOf([f.reg]) == [f.reg.value];
  }

  lemma {:induction false} FlatStays(f: Nodes, m: Message)
    ensures Flat(Update(f, m)) == Flat(f) && Update(f, m).Node? == f.Node?
  {
    if f.Node? {
      FlatStays(f.children, m);
      FlatStays(f.rest, m);
    }
  }

  lemma FirstRegistersUpdated(f: Nodes, m: Message)
    requires f.Node?
    ensures Update(f, m).Node? && Update(f, m).converter == f.converter
    ensures FirstRegisters(Update(f, m)) == UpdateAll(FirstRegisters(f), m)
    ensures Flat(Update(f, m).children) == Flat(f.children)
  {
    UpdateReachesAll(f.children, m);
    FlatStays(f.children, m);
  }

  lemma {:induction false} FirstRegistersAfter(o: Object, messages: seq<Message>, convert: (nat, seq<nat>) -> int)
    requires o.avail.Node?
    ensures var r := ApplyAll(o, messages, convert).avail;
      && r.Node? && r.converter == o.avail.converter && Flat(r.children) == Flat(o.avail.children)
      && FirstRegisters(r) == AllAfter(FirstRegisters(o.avail), messages)
  {
    hide FirstRegisters, Flat;
    if messages != [] {
      var n := |messages| - 1;
      FirstRegistersAfter(o, messages[..n], convert);
      FirstRegistersUpdated(ApplyAll(o, messages[..n], convert).avail, messages[n]);
    }
  }

  /** So the value that decides whether an object is available is what its converter makes of the values its
      registers hold after the messages. */
  lemma AvailabilityValue(o: Object, messages: seq<Message>, convert: (nat, seq<nat>) -> int)
    requires o.avail.Node? && o.avail.converter.Some? && Flat(o.avail.children)
    ensures var r := ApplyAll(o, messages, convert).avail;
      && r.Node?
      && ConvertedValue(r, convert) ==
         convert(o.avail.converter.value, ValuesOf(AllAfter(FirstRegisters(o.avail), messages)))
  {
    FirstRegistersAfter(o, messages, convert);
    hide ApplyAll, FirstRegisters, Flat;
    ConverterGetsValues(ApplyAll(o, messages, convert).avail, convert);
  }
}
