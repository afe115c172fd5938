/** Value maps such as `{1:"on",0:"off"}`: the parser. */
module MapParser {
  import opened Options

  datatype Value = IntValue(i: int) | StrValue(s: string)

  /** A register value and the MQTT value it stands for. */
  datatype Mapping = Mapping(reg: nat, value: Value)

  datatype Error =
    | NotAllowed(c: char) | UnknownType | EmptyKey | BadKey | RegisterTwice | ValueTwice | BadEscape
    | Undefined  // the source reads the top of an empty stack

  datatype Result<+T> = Ok(value: T) | Err(error: Error)

  datatype Mode = Scan | Key | Escape | InValue

  datatype Kind = NoKind | IntKind | StrKind

  datatype Parser = Parser(stack: seq<Mode>, key: string, kind: Kind, value: string, mappings: seq<Mapping>)

  const START := Parser([Scan], "", NoKind, "", [])

  // ------------------------------------------------------------------ numbers

  predicate IsDigit(c: char) {
    '0' <= c <= '9'
  }

  function DigitOf(c: char): nat
    requires IsDigit(c)
  {
    (c - '0') as int
  }

  /** The longest prefix of digits below the base, read as a number after `acc`. */
  function ReadDigits(s: string, base: nat, acc: nat): nat {
    if s == "" || !IsDigit(s[0]) || base <= DigitOf(s[0]) then acc
    else ReadDigits(s[1..], base, acc * base + DigitOf(s[0]))
  }

  predicate AllDigits(s: string, base: nat) {
    s != "" && forall i | 0 <= i < |s| :: IsDigit(s[i]) && DigitOf(s[i]) < base
  }

  function Number(s: string, base: nat): Option<nat> {
    if AllDigits(s, base) then Some(ReadDigits(s, base, 0)) else None
  }

  /** A key as `strtol` reads it, which takes leading zeros for octal. Keys hold digits and `x` only. */
  function KeyNumber(key: string): Option<nat> {
    if |key| >= 2 && key[0] == '0' && key[1] == 'x' then Number(key[2..], 16)
    else if |key| >= 2 && key[0] == '0' then Number(key[1..], 8)
    else Number(key, 10)
  }

  const LONG_MAX: nat := 0x7fff_ffff_ffff_ffff

  /** The number, saturated to a long and cut to 32 bits, if it is a register value. */
  function RegisterOf(key: string): Option<nat> {
    match KeyNumber(key)
    case None => None
    case Some(n) =>
      var low := (if n < LONG_MAX then n else LONG_MAX) % 0x1_0000_0000;
      if low <= 0xffff then Some(low) else None
  }

  predicate IsSpace(c: char) {
    c in {' ', '\t', '\n', '\r', 11 as char, 12 as char}
  }

  function SkipSpaces(s: string): string {
    if s != "" && IsSpace(s[0]) then SkipSpaces(s[1..]) else s
  }

  /** `atoi`, without its overflow. */
  function Atoi(s: string): int {
    var t := SkipSpaces(s);
    if t != "" && t[0] == '-' then 0 - ReadDigits(t[1..], 10, 0)
    else if t != "" && t[0] == '+' then ReadDigits(t[1..], 10, 0)
    else ReadDigits(t, 10, 0)
  }

  /** Strings are stored up to their first NUL. */
  function CString(s: string): string {
    if s == "" || s[0] == 0 as char then "" else [s[0]] + CString(s[1..])
  }

  // ------------------------------------------------------------------ the parser

  function Top(p: Parser): Mode
    requires p.stack != []
  {
    p.stack[|p.stack| - 1]
  }

  function Push(p: Parser, m: Mode): Parser {
    p.(stack := p.stack + [m])
  }

  function Pop(p: Parser): Parser
    requires p.stack != []
  {
    p.(stack := p.stack[..|p.stack| - 1])
  }

  function Append(p: Parser, c: char): Parser {
    p.(value := p.value + [c])
  }

  function AddEscapedChar(p: Parser, c: char): Result<Parser>
    requires p.stack != []
  {
    var q := Pop(p);
    if q.stack == [] then Err(Undefined)
    else match Top(q)
      case Key => Ok(q.(key := q.key + [c]))
      case InValue => Ok(Append(q, c))
      case _ => Err(BadEscape)
  }

  predicate HasRegister(ms: seq<Mapping>, reg: nat) {
    exists i | 0 <= i < |ms| :: ms[i].reg == reg
  }

  predicate HasValue(ms: seq<Mapping>, v: Value) {
    exists i | 0 <= i < |ms| :: ms[i].value == v
  }

  function AddMapping(p: Parser): Result<Parser>
    requires p.stack != []
  {
    if p.key == "" then Err(EmptyKey)
    else match RegisterOf(p.key)
      case None => Err(BadKey)
      case Some(reg) =>
        var value := if p.kind == IntKind then IntValue(Atoi(p.value)) else StrValue(CString(p.value));
        if HasRegister(p.mappings, reg) then Err(RegisterTwice)
        else if HasValue(p.mappings, value) then Err(ValueTwice)
        else Ok(Pop(p).(mappings := p.mappings + [Mapping(reg, value)], kind := NoKind, key := "", value := ""))
  }

  function StepScan(p: Parser, c: char): Result<Parser>
    requires p.stack != []
  {
    if c == '{' || c == ' ' || c == ',' then Ok(p)
    else if c == '}' then (if p.kind == IntKind then AddMapping(p) else Ok(p))
    else if c == '\\' then Err(NotAllowed(c))
    else if c == '"' then
      if p.key == "" then Ok(Push(p, Key)) else Ok(Push(p, InValue).(kind := StrKind))
    else if c == ':' then (if p.key == "" then Err(EmptyKey) else Ok(p))
    else if p.key == "" then
      if IsDigit(c) then Ok(Push(p, Key).(key := [c])) else Err(NotAllowed(c))
    else Ok(Push(Append(p, c), InValue).(kind := if p.kind == NoKind && IsDigit(c) then IntKind else p.kind))
  }

  function StepKey(p: Parser, c: char): Result<Parser>
    requires p.stack != []
  {
    if c == ' ' || c == ':' then Ok(Pop(p))
    else if IsDigit(c) || c == 'x' then Ok(p.(key := p.key + [c]))
    else Err(NotAllowed(c))
  }

  /** In a string, a closing brace is an error unless escaped. */
  function StepValue(p: Parser, c: char): Result<Parser>
    requires p.stack != []
  {
    if c == '}' then (if p.kind == IntKind then AddMapping(p) else Err(UnknownType))
    else if c == '\\' then Ok(Push(p, Escape))
    else if c == '"' then
      match p.kind
      case NoKind => Ok(p.(kind := StrKind))
      case StrKind => AddMapping(p)
      case IntKind => Err(NotAllowed(c))
    else if c == ' ' then
      match p.kind
      case IntKind => Ok(Pop(p))
      case StrKind => Ok(Append(p, c))
      case NoKind => Ok(p)
    else if c == ',' && p.kind == IntKind then AddMapping(p)
    else if c == '{' || c == ':' || c == ',' then Ok(Append(p, c))
    else Ok(Append(p, c).(kind := if p.kind == NoKind && IsDigit(c) then IntKind else p.kind))
  }

  function Step(p: Parser, c: char): Result<Parser>
    requires p.stack != []
  {
    match Top(p)
    case Scan => StepScan(p, c)
    case Key => StepKey(p, c)
    case InValue => StepValue(p, c)
    case Escape => AddEscapedChar(p, c)
  }

  function Feed(p: Parser, s: string): Result<Parser>
    decreases |s|
  {
    if s == [] then Ok(p)
    else if p.stack == [] then Err(Undefined)
    else match Step(p, s[0])
      case Err(e) => Err(e)
      case Ok(q) => Feed(q, s[1..])
  }

  function Parsed(s: string): Result<seq<Mapping>> {
    match Feed(START, s)
    case Err(e) => Err(e)
    case Ok(p) => Ok(p.mappings)
  }

  method Parse(s: string) returns (r: Result<seq<Mapping>>)
    ensures r == Parsed(s)
  {
    var p := START;
    var i := 0;
    while i < |s|
      invariant 0 <= i <= |s|
      invariant Feed(p, s[i..]) == Feed(START, s)
    {
      assert s[i..][0] == s[i] && s[i..][1..] == s[i + 1..];
      if p.stack == [] {
        return Err(Undefined);
      }
      var next := Step(p, s[i]);
      if next.Err? {
        return Err(next.error);
      }
      p := next.value;
      i := i + 1;
    }
    r := Ok(p.mappings);
  }

  // ------------------------------------------------------------------ the stack, and what maps hold

  predicate StackOk(stack: seq<Mode>) {
    stack == [Scan] || stack == [Scan, Key] || stack == [Scan, InValue] || stack == [Scan, InValue, Escape]
  }

  /** No register value and no MQTT value is mapped twice. */
  predicate Distinct(ms: seq<Mapping>) {
    forall i, j | 0 <= i < j < |ms| :: ms[i].reg != ms[j].reg && ms[i].value != ms[j].value
  }

  /** The stack is sound until a closing brace follows an integer and a space, which empties it. */
  lemma StepKeepsStack(p: Parser, c: char)
    requires StackOk(p.stack) && Step(p, c).Ok?
    ensures var q := Step(p, c).value;
      if c == '}' && p.stack == [Scan] && p.kind == IntKind then q.stack == [] else StackOk(q.stack)
  {
    assert forall m: Mode :: [Scan, m][..1] == [Scan] && [Scan] + [m] == [Scan, m];
    assert [Scan, InValue, Escape][..2] == [Scan, InValue] && [Scan, InValue] + [Escape] == [Scan, InValue, Escape];
    hide RegisterOf, Atoi, CString, HasRegister, HasValue;
  }

  lemma StepKeepsDistinct(p: Parser, c: char)
    requires p.stack != [] && Distinct(p.mappings) && Step(p, c).Ok?
    ensures Distinct(Step(p, c).value.mappings)
  {
    hide RegisterOf, Atoi, CString;
  }

  lemma {:induction false} FeedKeepsDistinct(p: Parser, s: string)
    requires Distinct(p.mappings) && Feed(p, s).Ok?
    ensures Distinct(Feed(p, s).value.mappings)
    decreases |s|
  {
    if s != [] {
      StepKeepsDistinct(p, s[0]);
      FeedKeepsDistinct(Step(p, s[0]).value, s[1..]);
    }
  }

  /** Whatever is parsed maps no register value and no MQTT value twice. */
  lemma ParsedIsDistinct(s: string)
    requires Parsed(s).Ok?
    ensures Distinct(Parsed(s).value)
  {
    FeedKeepsDistinct(START, s);
  }

  // ------------------------------------------------------------------ feeding piece by piece

  function FeedAfter(r: Result<Parser>, s: string): Result<Parser> {
    if r.Err? then r else Feed(r.value, s)
  }

  lemma {:induction false} FeedConcat(p: Parser, a: string, b: string)
    ensures Feed(p, a + b) == FeedAfter(Feed(p, a), b)
    decreases |a|
  {
    if a == [] {
      assert a + b == b;
    } else {
      assert (a + b)[0] == a[0] && (a + b)[1..] == a[1..] + b;
      if p.stack != [] && Step(p, a[0]).Ok? { FeedConcat(Step(p, a[0]).value, a[1..], b); }
    }
  }

  lemma FeedOne(p: Parser, c: char)
    requires p.stack != []
    ensures Feed(p, [c]) == Step(p, c)
  {
    assert [c][1..] == [];
    hide Step;
  }

  // ------------------------------------------------------------------ the stack over whole inputs

  /** The stack is sound, or was emptied by the last character: a closing brace right after a number that a
      space had ended. */
  ghost predicate Emptied(s: string) {
    s != "" && s[|s| - 1] == '}' &&
    var before := Feed(START, s[..|s| - 1]);
    before.Ok? && before.value.stack == [Scan] && before.value.kind == IntKind
  }

  lemma FeedLast(s: string)
    requires s != ""
    ensures var p := Feed(START, s[..|s| - 1]);
      Feed(START, s) == if p.Err? then p else if p.value.stack == [] then Err(Undefined) else Step(p.value, s[|s| - 1])
  {
    var n := |s| - 1;
    assert s == s[..n] + [s[n]];
    FeedConcat(START, s[..n], [s[n]]);
    var p := Feed(START, s[..n]);
    if p.Ok? && p.value.stack != [] { FeedOne(p.value, s[n]); }
  }

  /** On every input the stack stays sound, except that it is empty exactly after such a brace. */
  lemma {:induction false} FeedKeepsStack(s: string)
    requires Feed(START, s).Ok?
    ensures var stack := Feed(START, s).value.stack; if Emptied(s) then stack == [] else StackOk(stack)
    decreases |s|
  {
    if s != "" {
      var n := |s| - 1;
      FeedLast(s);
      hide Feed, Step;
      FeedKeepsStack(s[..n]);
      StepKeepsStack(Feed(START, s[..n]).value, s[n]);
    }
  }

  lemma StepIsDefined(p: Parser, c: char)
    requires StackOk(p.stack)
    ensures Step(p, c) != Err(Undefined)
  {
    hide RegisterOf, Atoi, CString, HasRegister, HasValue;
  }

  /** The source reads the top of an empty stack exactly if something follows such a brace. */
  lemma {:induction false} UndefinedExactly(s: string)
    ensures Feed(START, s) == Err(Undefined) <==> exists k | 0 <= k < |s| :: Emptied(s[..k]) && Feed(START, s[..k]).Ok?
    decreases |s|
  {
    hide Emptied, Step;
    if s != "" {
      var n := |s| - 1;
      FeedLast(s);
      hide Feed;
      UndefinedExactly(s[..n]);
      assert forall k | 0 <= k <= n :: s[..n][..k] == s[..k];
      if Feed(START, s[..n]).Ok? {
        FeedKeepsStack(s[..n]);
        if Emptied(s[..n]) {
        } else {
          StepIsDefined(Feed(START, s[..n]).value, s[n]);
        }
      }
    }
  }
}
