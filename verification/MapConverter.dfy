/** Reading and writing registers through a map. */
module MapConverter {
  import opened Options
  import opened MapParser
  import opened MapPrinter

  /** An MQTT value: a number, or bytes. */
  datatype MqttValue = MqttInt(i: int) | MqttBytes(s: string)

  /** How a string is read as a number is left open: everything here holds for any way of doing it. */
  function GetInt(v: MqttValue, parseInt: string -> Option<int>): Option<int> {
    match v case MqttInt(i) => Some(i) case MqttBytes(s) => parseInt(s)
  }

  function GetString(v: MqttValue): string {
    match v case MqttInt(i) => PrintInt(i) case MqttBytes(s) => s
  }

  /** The first mapping from index `i` on that fits the value; the size of the map if none does. It fails
      if the value is compared with a number and is none. */
  function Variant(ms: seq<Mapping>, v: MqttValue, parseInt: string -> Option<int>, i: nat): Option<nat>
    requires i <= |ms|
    decreases |ms| - i
  {
    if i == |ms| then Some(i)
    else match ms[i].value
      case IntValue(n) =>
        var x := GetInt(v, parseInt);
        if x.None? then None else if x.value == n then Some(i) else Variant(ms, v, parseInt, i + 1)
      case StrValue(s) => if GetString(v) == s then Some(i) else Variant(ms, v, parseInt, i + 1)
  }

  method FindVariant(ms: seq<Mapping>, v: MqttValue, parseInt: string -> Option<int>) returns (r: Option<nat>)
    ensures r == Variant(ms, v, parseInt, 0)
  {
    var i := 0;
    while i < |ms|
      invariant 0 <= i <= |ms| && Variant(ms, v, parseInt, i) == Variant(ms, v, parseInt, 0)
    {
      if ms[i].value.IntValue? {
        var x := GetInt(v, parseInt);
        if x.None? {
          return None;
        }
        if x.value == ms[i].value.i {
          return Some(i);
        }
      } else if GetString(v) == ms[i].value.s {
        return Some(i);
      }
      i := i + 1;
    }
    r := Some(i);
  }

  /** The first mapping of the register value; the size of the map if there is none. */
  function FindRegister(ms: seq<Mapping>, reg: nat): (i: nat)
    ensures i <= |ms| && (i < |ms| ==> ms[i].reg == reg) && forall k | 0 <= k < i :: ms[k].reg != reg
  {
    if ms == [] || ms[0].reg == reg then 0 else 1 + FindRegister(ms[1..], reg)
  }

  function ToMqtt(ms: seq<Mapping>, reg: nat): MqttValue {
    var i := FindRegister(ms, reg);
    if i == |ms| then MqttInt(reg)
    else match ms[i].value case IntValue(n) => MqttInt(n) case StrValue(s) => MqttBytes(s)
  }

  /** Values that are not mapped are written as signed 16-bit numbers. */
  function ToModbus(ms: seq<Mapping>, v: MqttValue, parseInt: string -> Option<int>): Option<nat> {
    match Variant(ms, v, parseInt, 0)
    case None => None
    case Some(i) =>
      if i < |ms| then Some(ms[i].reg)
      else
        var x := GetInt(v, parseInt);
        if x.None? || x.value < -0x8000 || 0x7fff < x.value then None else Some(x.value % 0x10000)
  }

  /** A mapped register is read as its value, any other as its number. */
  lemma ReadMeans(ms: seq<Mapping>, reg: nat)
    requires Distinct(ms)
    ensures !HasRegister(ms, reg) ==> ToMqtt(ms, reg) == MqttInt(reg)
    ensures forall i | 0 <= i < |ms| && ms[i].reg == reg ::
      ToMqtt(ms, reg) == match ms[i].value case IntValue(n) => MqttInt(n) case StrValue(s) => MqttBytes(s)
  {
    forall i | 0 <= i < |ms| && ms[i].reg == reg ensures FindRegister(ms, reg) == i {}
  }

  /** A number that stands for no register is written as a signed 16-bit number, and refused if it is none. */
  lemma PlainNumberIsWritten(ms: seq<Mapping>, n: int, parseInt: string -> Option<int>)
    requires !HasValue(ms, IntValue(n)) && !HasValue(ms, StrValue(PrintInt(n)))
    ensures ToModbus(ms, MqttInt(n), parseInt) ==
      if 0 <= n <= 0x7fff then Some(n) else if -0x8000 <= n < 0 then Some(n + 0x1_0000) else None
  {
    var v := MqttInt(n);
    assert forall j | 0 <= j < |ms| :: !Stops(ms[j], v, parseInt);
    VariantStops(ms, v, parseInt, 0, |ms|);
    hide Variant, PrintInt, Stops;
  }

  // ------------------------------------------------------------------ writing back what was read

  /** The search ends here: the mapping fits the value, or the value is to be compared with a number and is
      none. */
  predicate Stops(m: Mapping, v: MqttValue, parseInt: string -> Option<int>) {
    match m.value
    case IntValue(n) => GetInt(v, parseInt).None? || GetInt(v, parseInt).value == n
    case StrValue(s) => s == GetString(v)
  }

  /** The first mapping from `i` on at which the search ends. */
  function FirstStop(ms: seq<Mapping>, v: MqttValue, parseInt: string -> Option<int>, i: nat): (k: nat)
    requires i <= |ms|
    ensures i <= k <= |ms| && (k < |ms| ==> Stops(ms[k], v, parseInt))
    ensures forall j | i <= j < k :: !Stops(ms[j], v, parseInt)
    decreases |ms| - i
  {
    if i == |ms| || Stops(ms[i], v, parseInt) then i else FirstStop(ms, v, parseInt, i + 1)
  }

  lemma {:induction false} VariantStops(ms: seq<Mapping>, v: MqttValue, parseInt: string -> Option<int>,
                                        i: nat, k: nat)
    requires i <= k <= |ms| && (forall j | i <= j < k :: !Stops(ms[j], v, parseInt))
    requires k < |ms| ==> Stops(ms[k], v, parseInt)
    ensures Variant(ms, v, parseInt, i) ==
      if k < |ms| && ms[k].value.IntValue? && GetInt(v, parseInt).None? then None else Some(k)
    decreases k - i
  {
    hide GetString;
    if i < k { VariantStops(ms, v, parseInt, i + 1, k); }
  }

  /** The value is not found behind the other one: a number whose digits are that string, or a string that is
      no number or is that number. */
  predicate Hides(other: Value, value: Value, parseInt: string -> Option<int>) {
    match value
    case IntValue(n) => other == StrValue(PrintInt(n))
    case StrValue(s) => other.IntValue? && (parseInt(s).None? || parseInt(s).value == other.i)
  }

  predicate Hidden(ms: seq<Mapping>, i: nat, parseInt: string -> Option<int>)
    requires i < |ms|
  {
    exists j | 0 <= j < i :: Hides(ms[j].value, ms[i].value, parseInt)
  }

  lemma StopsOrHides(ms: seq<Mapping>, i: nat, j: nat, parseInt: string -> Option<int>)
    requires Distinct(ms) && j < i < |ms| && FindRegister(ms, ms[i].reg) == i
    ensures Stops(ms[j], ToMqtt(ms, ms[i].reg), parseInt) <==> Hides(ms[j].value, ms[i].value, parseInt)
  {
    hide PrintInt;
  }

  lemma FoundIs(ms: seq<Mapping>, i: nat, parseInt: string -> Option<int>)
    requires i < |ms| && FindRegister(ms, ms[i].reg) == i
    ensures Stops(ms[i], ToMqtt(ms, ms[i].reg), parseInt)
    ensures ms[i].value.IntValue? ==> GetInt(ToMqtt(ms, ms[i].reg), parseInt).Some?
  {
    hide PrintInt;
  }

  /** Writing back the value read from a mapped register restores it exactly if no earlier mapping hides it. */
  lemma WriteUndoesMappedRead(ms: seq<Mapping>, i: nat, parseInt: string -> Option<int>)
    requires Distinct(ms) && i < |ms| && FindRegister(ms, ms[i].reg) == i
    ensures ToModbus(ms, ToMqtt(ms, ms[i].reg), parseInt) == Some(ms[i].reg) <==> !Hidden(ms, i, parseInt)
  {
    var v := ToMqtt(ms, ms[i].reg);
    var k := FirstStop(ms, v, parseInt, 0);
    VariantStops(ms, v, parseInt, 0, k);
    FoundIs(ms, i, parseInt);
    forall j: nat | j < i ensures Stops(ms[j], v, parseInt) <==> Hides(ms[j].value, ms[i].value, parseInt) {
      StopsOrHides(ms, i, j, parseInt);
    }
    hide Variant, Stops, Hides, ToMqtt, GetInt, FirstStop;
  }

  /** That of a register that is not mapped, exactly if it fits 15 bits and its number stands for no other. */
  lemma WriteUndoesPlainRead(ms: seq<Mapping>, reg: nat, parseInt: string -> Option<int>)
    requires !HasRegister(ms, reg) && reg <= 0xffff
    ensures ToModbus(ms, ToMqtt(ms, reg), parseInt) == Some(reg) <==>
      reg <= 0x7fff && !HasValue(ms, IntValue(reg)) && !HasValue(ms, StrValue(PrintInt(reg)))
  {
    var v := MqttInt(reg);
    assert ToMqtt(ms, reg) == v;
    var k := FirstStop(ms, v, parseInt, 0);
    VariantStops(ms, v, parseInt, 0, k);
    hide Variant, PrintInt, FirstStop;
    if k < |ms| {
      assert ms[k].value == IntValue(reg) || ms[k].value == StrValue(PrintInt(reg));
    } else {
      assert forall j | 0 <= j < |ms| :: !Stops(ms[j], v, parseInt);
    }
  }

  /** In any map, writing back the value read from a register restores it exactly if it is mapped and not
      hidden, or is not mapped, fits 15 bits and its number stands for no other register. */
  lemma WriteUndoesRead(ms: seq<Mapping>, reg: nat, parseInt: string -> Option<int>)
    requires Distinct(ms) && reg <= 0xffff
    ensures ToModbus(ms, ToMqtt(ms, reg), parseInt) == Some(reg) <==>
      if HasRegister(ms, reg) then !Hidden(ms, FindRegister(ms, reg), parseInt)
      else reg <= 0x7fff && !HasValue(ms, IntValue(reg)) && !HasValue(ms, StrValue(PrintInt(reg)))
  {
    hide ToModbus, ToMqtt, Hidden, PrintInt;
    if HasRegister(ms, reg) {
      WriteUndoesMappedRead(ms, FindRegister(ms, reg), parseInt);
    } else {
      WriteUndoesPlainRead(ms, reg, parseInt);
    }
  }

  lemma {:induction false} VariantOfText(ms: seq<Mapping>, n: int, parseInt: string -> Option<int>, i: nat)
    requires parseInt(PrintInt(n)) == Some(n) && i <= |ms|
    ensures Variant(ms, MqttBytes(PrintInt(n)), parseInt, i) == Variant(ms, MqttInt(n), parseInt, i)
    decreases |ms| - i
  {
    hide PrintInt;
    if i < |ms| { VariantOfText(ms, n, parseInt, i + 1); }
  }

  /** A value that comes back as the text that was published is written as the value itself, as long as
      numbers are read as they are printed. */
  lemma TextIsAsGood(ms: seq<Mapping>, v: MqttValue, parseInt: string -> Option<int>)
    requires v.MqttInt? ==> parseInt(PrintInt(v.i)) == Some(v.i)
    ensures ToModbus(ms, MqttBytes(GetString(v)), parseInt) == ToModbus(ms, v, parseInt)
  {
    hide PrintInt, Variant;
    if v.MqttInt? { VariantOfText(ms, v.i, parseInt, 0); }
  }

  /** The documented map that mixes a number with strings: the strings behind the number cannot be written. */
  lemma StringBehindNumber(parseInt: string -> Option<int>)
    requires parseInt("two").None?
    ensures var ms := [Mapping(1, IntValue(11)), Mapping(2, StrValue("two")), Mapping(3, StrValue("escaped: \""))];
      && ToMqtt(ms, 2) == MqttBytes("two")
      && ToModbus(ms, MqttBytes("two"), parseInt) == None
      && ToModbus(ms, ToMqtt(ms, 1), parseInt) == Some(1)
  {
  }
}
