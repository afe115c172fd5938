/** Printing maps in every layout the documentation shows, and parsing what was printed. */
module MapPrinter {
  import opened Options
  import opened MapParser

  // ------------------------------------------------------------------ printing numbers

  function Digit(d: nat): char
    requires d < 10
  {
    '0' + d as char
  }

  function PrintNat(n: nat): string {
    if n < 10 then [Digit(n)] else PrintNat(n / 10) + [Digit(n % 10)]
  }

  function PrintInt(i: int): string {
    if i < 0 then ['-'] + PrintNat(-i) else PrintNat(i)
  }

  lemma {:induction false} PrintNatIsDigits(n: nat)
    ensures AllDigits(PrintNat(n), 10) && (PrintNat(n)[0] == '0' <==> n == 0) && (|PrintNat(n)| == 1 <==> n < 10)
  {
    if 10 <= n { PrintNatIsDigits(n / 10); }
  }

  lemma {:induction false} ReadDigitsAppend(s: string, c: char, acc: nat)
    requires (s != "" ==> AllDigits(s, 10)) && IsDigit(c)
    ensures ReadDigits(s + [c], 10, acc) == ReadDigits(s, 10, acc) * 10 + DigitOf(c)
    decreases |s|
  {
    if s == "" {
      assert s + [c] == [c];
      assert ReadDigits([c][1..], 10, acc * 10 + DigitOf(c)) == acc * 10 + DigitOf(c);
    } else {
      assert (s + [c])[1..] == s[1..] + [c];
      ReadDigitsAppend(s[1..], c, acc * 10 + DigitOf(s[0]));
    }
  }

  lemma {:induction false} ReadUndoesPrint(n: nat)
    ensures ReadDigits(PrintNat(n), 10, 0) == n
  {
    if n < 10 {
      ReadDigitsAppend("", Digit(n), 0);
      assert "" + [Digit(n)] == [Digit(n)];
    } else {
      ReadUndoesPrint(n / 10);
      PrintNatIsDigits(n / 10);
      ReadDigitsAppend(PrintNat(n / 10), Digit(n % 10), 0);
    }
  }

  lemma RegisterOfPrinted(reg: nat)
    requires reg <= 0xffff
    ensures RegisterOf(PrintNat(reg)) == Some(reg)
  {
    PrintNatIsDigits(reg);
    ReadUndoesPrint(reg);
    hide PrintNat, ReadDigits;
    assert KeyNumber(PrintNat(reg)) == Some(reg);
    hide KeyNumber;
  }

  /** The octal value of two or more digits is less than their decimal value. */
  lemma {:induction false} OctalIsLess(s: string, octal: nat, decimal: nat)
    requires (s != "" ==> AllDigits(s, 8)) && octal <= decimal && (octal < decimal || (0 < octal && s != ""))
    ensures ReadDigits(s, 8, octal) < ReadDigits(s, 10, decimal)
    decreases |s|
  {
    if s != "" { OctalIsLess(s[1..], octal * 8 + DigitOf(s[0]), decimal * 10 + DigitOf(s[0])); }
  }

  predicate HasDecimalDigit(s: string) {
    exists i | 0 <= i < |s| :: s[i] == '8' || s[i] == '9'
  }

  lemma OctalOrNot(s: string)
    requires AllDigits(s, 10)
    ensures AllDigits(s, 8) <==> !HasDecimalDigit(s)
  {
  }

  lemma ReadOneDigit(s: string, base: nat)
    requires AllDigits(s, base) && |s| == 1
    ensures ReadDigits(s, base, 0) == DigitOf(s[0])
  {
    assert ReadDigits(s, base, 0) == ReadDigits(s[1..], base, 0 * base + DigitOf(s[0]));
  }

  lemma ReadAsOctal(s: string)
    requires AllDigits(s, 8) && (s[0] == '0' ==> |s| == 1)
    ensures if |s| == 1 then ReadDigits(s, 8, 0) == ReadDigits(s, 10, 0) < 8
            else ReadDigits(s, 8, 0) < ReadDigits(s, 10, 0)
  {
    if |s| == 1 {
      ReadOneDigit(s, 8);
      ReadOneDigit(s, 10);
    } else {
      var d := DigitOf(s[0]);
      OctalIsLess(s[1..], d, d);
      assert ReadDigits(s, 8, 0) == ReadDigits(s[1..], 8, 0 * 8 + d);
      assert ReadDigits(s, 10, 0) == ReadDigits(s[1..], 10, 0 * 10 + d);
    }
  }

  lemma NumberAsOctal(s: string)
    requires AllDigits(s, 10) && (s[0] == '0' ==> |s| == 1)
    ensures var reg, r := ReadDigits(s, 10, 0), Number(s, 8);
      (r == Some(reg) <==> reg < 8) && (8 <= reg && r.Some? ==> r.value < reg) && (r.None? <==> HasDecimalDigit(s))
  {
    OctalOrNot(s);
    if |s| == 1 {
      ReadOneDigit(s, 10);
    } else {
      ReadGrows(s[1..], 1, DigitOf(s[0]));
      assert ReadDigits(s, 10, 0) == ReadDigits(s[1..], 10, 0 * 10 + DigitOf(s[0]));
    }
    hide ReadDigits, HasDecimalDigit;
    if AllDigits(s, 8) { ReadAsOctal(s); }
  }

  lemma {:induction false} ReadGrows(s: string, least: nat, acc: nat)
    requires AllDigits(s, 10) && least <= acc
    ensures 10 * least <= ReadDigits(s, 10, acc)
    decreases |s|
  {
    if |s| == 1 {
      assert ReadDigits(s, 10, acc) == ReadDigits(s[1..], 10, acc * 10 + DigitOf(s[0])) == acc * 10 + DigitOf(s[0]);
    } else {
      ReadGrows(s[1..], least, acc * 10 + DigitOf(s[0]));
    }
  }

  lemma KeyAfterZero(s: string)
    requires AllDigits(s, 10)
    ensures KeyNumber(['0'] + s) == Number(s, 8)
  {
    var key := ['0'] + s;
    assert key[1..] == s && key[1] == s[0];
    hide Number;
  }

  lemma SmallKey(key: string)
    requires KeyNumber(key).Some? ==> KeyNumber(key).value <= 0xffff
    ensures RegisterOf(key) == KeyNumber(key)
  {
    hide KeyNumber;
  }

  /** A leading zero makes a key octal: it names the register value written after it only below eight, and
      otherwise a smaller one or, if a digit is not octal, none. */
  lemma LeadingZero(reg: nat)
    requires reg <= 0xffff
    ensures var r := RegisterOf(['0'] + PrintNat(reg));
      (r == Some(reg) <==> reg < 8) && (8 <= reg && r.Some? ==> r.value < reg) &&
      (r.None? <==> HasDecimalDigit(PrintNat(reg)))
  {
    PrintNatIsDigits(reg);
    ReadUndoesPrint(reg);
    hide PrintNat, ReadDigits, KeyNumber, Number, HasDecimalDigit, RegisterOf, AllDigits;
    NumberAsOctal(PrintNat(reg));
    KeyAfterZero(PrintNat(reg));
    SmallKey(['0'] + PrintNat(reg));
  }

  lemma AtoiOfPrinted(i: int)
    ensures Atoi(PrintInt(i)) == i
  {
    var n := if i < 0 then -i else i;
    PrintNatIsDigits(n);
    ReadUndoesPrint(n);
    if i < 0 { assert PrintInt(i)[1..] == PrintNat(n); }
  }

  lemma {:induction false} CStringOfClean(s: string)
    requires (0 as char) !in s
    ensures CString(s) == s
  {
    if s != "" { CStringOfClean(s[1..]); }
  }

  // ------------------------------------------------------------------ printing maps

  /** Quotes and backslashes are escaped, which keeps a printed string in one piece. */
  predicate KeepsStrings(escape: char -> bool) {
    escape('"') && escape('\\')
  }

  /** The text holds a closing brace that is not escaped. */
  predicate OpenBrace(text: string, escape: char -> bool) {
    !escape('}') && '}' in text
  }

  predicate OpenBraceIn(m: Mapping, escape: char -> bool) {
    m.value.StrValue? && OpenBrace(m.value.s, escape)
  }

  function EscapeText(text: string, escape: char -> bool): string {
    if text == [] then []
    else (if escape(text[0]) then ['\\', text[0]] else [text[0]]) + EscapeText(text[1..], escape)
  }

  /** A mapping with its key as written, and the spaces around key and value. */
  datatype Item = Item(key: string, m: Mapping, before: nat, afterKey: nat, beforeValue: nat, afterValue: nat)

  function Spaces(n: nat): string {
    if n == 0 then [] else [' '] + Spaces(n - 1)
  }

  function ValueText(v: Value, escape: char -> bool): string {
    match v
    case IntValue(i) => PrintInt(i)
    case StrValue(s) => ['"'] + EscapeText(s, escape) + ['"']
  }

  function Head(i: Item): string {
    Spaces(i.before) + i.key + Spaces(i.afterKey) + [':'] + Spaces(i.beforeValue)
  }

  function Text(i: Item, escape: char -> bool): string {
    Head(i) + ValueText(i.m.value, escape) + Spaces(i.afterValue)
  }

  function Texts(items: seq<Item>, escape: char -> bool): string
    requires items != []
  {
    if |items| == 1 then Text(items[0], escape)
    else Text(items[0], escape) + [','] + Texts(items[1..], escape)
  }

  function End(braces: bool, spaces: nat): string {
    (if braces then ['}'] else []) + Spaces(spaces)
  }

  /** A map with or without braces, and with spaces behind it. */
  function Print(items: seq<Item>, escape: char -> bool, braces: bool, spaces: nat): string {
    (if braces then ['{'] else []) + (if items == [] then [] else Texts(items, escape)) + End(braces, spaces)
  }

  predicate KeyChar(c: char) {
    IsDigit(c) || c == 'x'
  }

  predicate KeyText(key: string) {
    key != "" && IsDigit(key[0]) && forall i | 0 <= i < |key| :: KeyChar(key[i])
  }

  /** The key is that of the register, in decimal or in any other form; the value is an `int` or a string
      without NUL. */
  predicate Printable(i: Item) {
    KeyText(i.key) && RegisterOf(i.key) == Some(i.m.reg) &&
    match i.m.value
    case IntValue(n) => -0x8000_0000 <= n < 0x8000_0000
    case StrValue(s) => (0 as char) !in s
  }

  /** A number followed by a space. */
  predicate Spaced(i: Item) {
    i.m.value.IntValue? && 0 < i.afterValue
  }

  /** The mappings that can be read: without braces nothing ends a number at the end. */
  function Read(items: seq<Item>, braces: bool): seq<Mapping> {
    if items == [] then []
    else if |items| == 1 && !braces && items[0].m.value.IntValue? then []
    else [items[0].m] + Read(items[1..], braces)
  }

  /** No closing brace in a string is left without its escape, no number but the last is followed by a
      space, and if the last is, the brace comes after it and nothing more. */
  predicate Clean(items: seq<Item>, escape: char -> bool, braces: bool, spaces: nat) {
    && (forall k | 0 <= k < |items| :: !OpenBraceIn(items[k].m, escape))
    && (forall k | 0 <= k < |items| - 1 :: !Spaced(items[k]))
    && (items != [] && braces && Spaced(items[|items| - 1]) ==> spaces == 0)
  }

  // ------------------------------------------------------------------ feeding one mapping

  /** Between mappings. */
  predicate Ready(p: Parser) {
    p.stack == [Scan] && p.key == "" && p.value == "" && p.kind == NoKind
  }

  /** After a key and its colon. */
  predicate Keyed(p: Parser) {
    p.stack == [Scan] && p.key != "" && p.value == "" && p.kind == NoKind
  }

  lemma {:induction false} FeedSpaces(p: Parser, n: nat)
    requires p.stack == [Scan]
    ensures Feed(p, Spaces(n)) == Ok(p)
  {
    if n != 0 {
      FeedConcat(p, [' '], Spaces(n - 1));
      FeedOne(p, ' ');
      hide Feed;
      FeedSpaces(p, n - 1);
    }
  }

  lemma {:induction false} FeedKeyChars(p: Parser, s: string)
    requires p.stack == [Scan, Key] && forall i | 0 <= i < |s| :: KeyChar(s[i])
    ensures Feed(p, s) == Ok(p.(key := p.key + s))
    decreases |s|
  {
    if s == [] {
      assert p.key + s == p.key;
    } else {
      FeedKeyChars(p.(key := p.key + [s[0]]), s[1..]);
      HeadAndTail(p.key, s);
    }
  }

  lemma FeedKey(p: Parser, key: string)
    requires Ready(p) && KeyText(key)
    ensures Feed(p, key) == Ok(p.(stack := [Scan, Key], key := key))
  {
    var p1 := p.(stack := [Scan, Key], key := [key[0]]);
    assert Step(p, key[0]) == Ok(p1) by { assert [Scan] + [Key] == [Scan, Key]; }
    hide Step;
    FeedKeyChars(p1, key[1..]);
    HeadAndTail("", key);
  }

  /** The colon ends the key, or the first space before it does. */
  lemma FeedColon(p: Parser, n: nat)
    requires p.stack == [Scan, Key] && p.key != ""
    ensures Feed(p, Spaces(n) + [':']) == Ok(p.(stack := [Scan]))
  {
    var p1 := p.(stack := [Scan]);
    assert [Scan, Key][..1] == [Scan];
    assert Step(p, ':') == Ok(p1) && Step(p, ' ') == Ok(p1) && Step(p1, ':') == Ok(p1);
    hide Step, Feed;
    FeedOne(p1, ':');
    if n == 0 {
      FeedOne(p, ':');
      assert Spaces(0) + [':'] == [':'];
    } else {
      FeedOne(p, ' ');
      FeedSpaces(p1, n - 1);
      FeedConcat(p, [' '], Spaces(n - 1));
      FeedConcat(p, Spaces(n), [':']);
    }
  }

  lemma FeedHead(p: Parser, i: Item)
    requires Ready(p) && KeyText(i.key)
    ensures Feed(p, Head(i)) == Ok(p.(key := i.key))
  {
    var p1, p2 := p.(stack := [Scan, Key], key := i.key), p.(key := i.key);
    FeedSpaces(p, i.before);
    FeedKey(p, i.key);
    FeedColon(p1, i.afterKey);
    FeedSpaces(p2, i.beforeValue);
    hide Feed, Spaces;
    var a, b, c, d := Spaces(i.before), i.key, Spaces(i.afterKey) + [':'], Spaces(i.beforeValue);
    FeedConcat(p, a, b);
    FeedConcat(p, a + b, c);
    FeedConcat(p, a + b + c, d);
    assert a + b + c == a + b + Spaces(i.afterKey) + [':'];
  }

  lemma {:induction false} FeedIntDigits(p: Parser, s: string)
    requires p.stack == [Scan, InValue] && p.kind == IntKind && forall i | 0 <= i < |s| :: IsDigit(s[i])
    ensures Feed(p, s) == Ok(p.(value := p.value + s))
    decreases |s|
  {
    if s == [] {
      assert p.value + s == p.value;
    } else {
      FeedIntDigits(Append(p, s[0]), s[1..]);
      assert p.value + [s[0]] + s[1..] == p.value + s;
    }
  }

  lemma HeadAndTail(a: string, s: string)
    requires s != ""
    ensures [s[0]] + s[1..] == s && a + [s[0]] + s[1..] == a + s
  {
  }

  lemma StepDigit(p: Parser, c: char)
    requires IsDigit(c) && p.key != "" && p.kind == NoKind && (p.stack == [Scan] || p.stack == [Scan, InValue])
    ensures Step(p, c) == Ok(p.(stack := [Scan, InValue], kind := IntKind, value := p.value + [c]))
  {
    if p.stack == [Scan] {
      assert [Scan] + [InValue] == [Scan, InValue];
      assert StepScan(p, c) == Ok(Push(Append(p, c), InValue).(kind := IntKind));
    } else {
      assert StepValue(p, c) == Ok(Append(p, c).(kind := IntKind));
    }
  }

  lemma FeedNat(p: Parser, n: nat)
    requires p.key != "" && p.kind == NoKind && (p.stack == [Scan] || p.stack == [Scan, InValue])
    ensures Feed(p, PrintNat(n)) == Ok(p.(stack := [Scan, InValue], kind := IntKind, value := p.value + PrintNat(n)))
  {
    var s := PrintNat(n);
    PrintNatIsDigits(n);
    hide PrintNat;
    var p1 := p.(stack := [Scan, InValue], kind := IntKind, value := p.value + [s[0]]);
    StepDigit(p, s[0]);
    hide Step, Feed;
    FeedOne(p, s[0]);
    FeedIntDigits(p1, s[1..]);
    FeedConcat(p, [s[0]], s[1..]);
    HeadAndTail(p.value, s);
  }

  lemma FeedNegative(p: Parser, n: nat)
    requires Keyed(p)
    ensures Feed(p, ['-'] + PrintNat(n)) ==
      Ok(p.(stack := [Scan, InValue], kind := IntKind, value := ['-'] + PrintNat(n)))
  {
    var p1 := p.(stack := [Scan, InValue], value := ['-']);
    assert Step(p, '-') == Ok(p1) by { assert [Scan] + [InValue] == [Scan, InValue] && "" + ['-'] == ['-']; }
    hide Step, Feed, PrintNat;
    FeedOne(p, '-');
    FeedConcat(p, ['-'], PrintNat(n));
    FeedNat(p1, n);
  }

  lemma FeedInt(p: Parser, i: int)
    requires Keyed(p)
    ensures Feed(p, PrintInt(i)) == Ok(p.(stack := [Scan, InValue], kind := IntKind, value := PrintInt(i)))
  {
    hide Step, Feed, PrintNat;
    if i < 0 {
      FeedNegative(p, -i);
    } else {
      FeedNat(p, i);
      assert "" + PrintNat(i) == PrintNat(i);
    }
  }

  lemma FeedEscapedChar(p: Parser, c: char)
    requires p.stack == [Scan, InValue]
    ensures Feed(p, ['\\', c]) == Ok(Append(p, c))
  {
    var p1 := p.(stack := [Scan, InValue, Escape]);
    assert Step(p, '\\') == Ok(p1) by { assert [Scan, InValue] + [Escape] == [Scan, InValue, Escape]; }
    assert Step(p1, c) == Ok(Append(p, c)) by { assert p1.stack[..2] == [Scan, InValue]; }
    FeedOne(p, '\\');
    FeedOne(p1, c);
    FeedConcat(p, ['\\'], [c]);
    assert ['\\'] + [c] == ['\\', c];
  }

  lemma FeedChar(p: Parser, c: char, escape: char -> bool)
    requires p.stack == [Scan, InValue] && p.kind == StrKind && KeepsStrings(escape) && !escape(c)
    ensures if c == '}' then Feed(p, [c]).Err? else Feed(p, [c]) == Ok(Append(p, c))
  {
    FeedOne(p, c);
    hide Feed;
  }

  /** A string is read back, unless it holds a closing brace that is not escaped. */
  lemma {:induction false} FeedEscaped(p: Parser, text: string, escape: char -> bool)
    requires p.stack == [Scan, InValue] && p.kind == StrKind && KeepsStrings(escape)
    ensures var r := Feed(p, EscapeText(text, escape));
      if OpenBrace(text, escape) then r.Err? else r == Ok(p.(value := p.value + text))
    decreases |text|
  {
    if text == [] {
      assert p.value + text == p.value;
    } else {
      var c := text[0];
      var first := if escape(c) then ['\\', c] else [c];
      if escape(c) { FeedEscapedChar(p, c); } else { FeedChar(p, c, escape); }
      FeedConcat(p, first, EscapeText(text[1..], escape));
      hide Feed;
      FeedEscaped(Append(p, c), text[1..], escape);
      HeadAndTail(p.value, text);
    }
  }

  /** Appends a mapping, if it is new. */
  function Add(p: Parser, m: Mapping): Result<Parser> {
    if HasRegister(p.mappings, m.reg) then Err(RegisterTwice)
    else if HasValue(p.mappings, m.value) then Err(ValueTwice)
    else Ok(p.(mappings := p.mappings + [m]))
  }

  lemma StepClosingQuote(p: Parser, i: Item)
    requires Ready(p) && Printable(i) && i.m.value.StrValue?
    ensures Step(p.(stack := [Scan, InValue], key := i.key, kind := StrKind, value := i.m.value.s), '"') == Add(p, i.m)
  {
    var q := p.(stack := [Scan, InValue], key := i.key, kind := StrKind, value := i.m.value.s);
    CStringOfClean(i.m.value.s);
    hide RegisterOf, CString, HasRegister, HasValue;
    assert q.stack[..1] == [Scan];
    assert StepValue(q, '"') == AddMapping(q);
  }

  lemma FeedString(p: Parser, i: Item, escape: char -> bool)
    requires Ready(p) && Printable(i) && i.m.value.StrValue? && KeepsStrings(escape)
    ensures var r := Feed(p.(key := i.key), ValueText(i.m.value, escape));
      if OpenBraceIn(i.m, escape) then r.Err? else r == Add(p, i.m)
  {
    var p1, text := p.(key := i.key), EscapeText(i.m.value.s, escape);
    var p2 := p1.(stack := [Scan, InValue], kind := StrKind);
    var p3 := p2.(value := i.m.value.s);
    assert Step(p1, '"') == Ok(p2) by { assert [Scan] + [InValue] == [Scan, InValue]; }
    hide Step, Feed, EscapeText, Add, RegisterOf;
    FeedEscaped(p2, i.m.value.s, escape);
    assert p2.value + i.m.value.s == i.m.value.s;
    StepClosingQuote(p, i);
    FeedOne(p1, '"');
    FeedOne(p3, '"');
    FeedConcat(p1, ['"'], text);
    FeedConcat(p1, ['"'] + text, ['"']);
  }

  /** The parser after a number: a space behind it ends it, but does not add it. */
  function Numbered(p: Parser, i: Item): Parser
    requires i.m.value.IntValue?
  {
    p.(stack := if i.afterValue == 0 then [Scan, InValue] else [Scan], key := i.key, kind := IntKind,
       value := PrintInt(i.m.value.i))
  }

  lemma FeedNumber(p: Parser, i: Item)
    requires Ready(p) && KeyText(i.key) && i.m.value.IntValue?
    ensures Feed(p.(key := i.key), PrintInt(i.m.value.i) + Spaces(i.afterValue)) == Ok(Numbered(p, i))
  {
    var p1 := p.(key := i.key);
    var text := PrintInt(i.m.value.i);
    var p2 := p1.(stack := [Scan, InValue], kind := IntKind, value := text);
    var p3 := p2.(stack := [Scan]);
    FeedInt(p1, i.m.value.i);
    assert Step(p2, ' ') == Ok(p3) by { assert [Scan, InValue][..1] == [Scan]; }
    hide Step, Feed, PrintInt;
    if i.afterValue == 0 {
      assert text + Spaces(0) == text;
    } else {
      FeedOne(p2, ' ');
      FeedSpaces(p3, i.afterValue - 1);
      FeedConcat(p2, [' '], Spaces(i.afterValue - 1));
      FeedConcat(p1, text, Spaces(i.afterValue));
    }
  }

  /** A mapping without what ends it, from a clean start. */
  lemma FeedText(p: Parser, i: Item, escape: char -> bool)
    requires Ready(p) && Printable(i) && KeepsStrings(escape)
    ensures var r := Feed(p, Text(i, escape));
      if i.m.value.IntValue? then r == Ok(Numbered(p, i))
      else if OpenBraceIn(i.m, escape) then r.Err?
      else r == Add(p, i.m)
  {
    var head, value, spaces := Head(i), ValueText(i.m.value, escape), Spaces(i.afterValue);
    FeedHead(p, i);
    if i.m.value.IntValue? { FeedNumber(p, i); } else { FeedString(p, i, escape); }
    if Add(p, i.m).Ok? { FeedSpaces(Add(p, i.m).value, i.afterValue); }
    hide Feed, Head, Spaces, Add, OpenBraceIn, RegisterOf, EscapeText, PrintInt;
    FeedConcat(p, head, value + spaces);
    FeedConcat(p.(key := i.key), value, spaces);
    assert head + (value + spaces) == head + value + spaces;
  }

  function WithoutStack(r: Result<Parser>): Result<Parser> {
    if r.Err? then r else Ok(r.value.(stack := []))
  }

  /** A comma or a closing brace adds the number, unless a space has ended it: then the comma does nothing,
      and the brace adds it and leaves the stack empty. */
  lemma EndNumber(p: Parser, i: Item)
    requires Ready(p) && Printable(i) && i.m.value.IntValue?
    ensures Step(Numbered(p, i), ',') == if i.afterValue == 0 then Add(p, i.m) else Ok(Numbered(p, i))
    ensures Step(Numbered(p, i), '}') == if i.afterValue == 0 then Add(p, i.m) else WithoutStack(Add(p, i.m))
  {
    AtoiOfPrinted(i.m.value.i);
    assert [Scan, InValue][..1] == [Scan] && [Scan][..0] == [];
    hide RegisterOf, Atoi, HasRegister, HasValue, PrintInt;
  }

  lemma ReadyIgnores(p: Parser)
    requires Ready(p)
    ensures Step(p, ',') == Ok(p) && Step(p, '}') == Ok(p) && Step(p, '{') == Ok(p)
  {
  }

  /** A mapping and its comma, from a clean start. */
  lemma FeedItem(p: Parser, i: Item, escape: char -> bool)
    requires Ready(p) && Printable(i) && KeepsStrings(escape)
    ensures var r := Feed(p, Text(i, escape) + [',']);
      if OpenBraceIn(i.m, escape) then r.Err? else if Spaced(i) then r == Ok(Numbered(p, i)) else r == Add(p, i.m)
  {
    FeedText(p, i, escape);
    if i.m.value.IntValue? {
      EndNumber(p, i);
      FeedOne(Numbered(p, i), ',');
    } else if Add(p, i.m).Ok? {
      ReadyIgnores(Add(p, i.m).value);
      FeedOne(Add(p, i.m).value, ',');
    }
    hide Feed, Step, Text, Add, RegisterOf, OpenBrace;
    FeedConcat(p, Text(i, escape), [',']);
  }

  function Mappings(r: Result<Parser>): Result<seq<Mapping>> {
    match r case Err(e) => Err(e) case Ok(p) => Ok(p.mappings)
  }

  lemma FeedEnd(p: Parser, braces: bool, spaces: nat)
    requires Ready(p)
    ensures Feed(p, End(braces, spaces)) == Ok(p)
  {
    FeedSpaces(p, spaces);
    ReadyIgnores(p);
    FeedOne(p, '}');
    hide Feed, Step, Spaces;
    FeedConcat(p, ['}'], Spaces(spaces));
    assert [] + Spaces(spaces) == Spaces(spaces);
  }

  /** Spaces after a number that nothing has ended. */
  lemma {:induction false} FeedSpacesAfter(p: Parser, n: nat)
    requires p.kind == IntKind && (p.stack == [Scan] || p.stack == [Scan, InValue])
    ensures Mappings(Feed(p, Spaces(n))) == Ok(p.mappings)
  {
    if n != 0 {
      var q := p.(stack := [Scan]);
      assert Step(p, ' ') == Ok(q) by { assert [Scan, InValue][..1] == [Scan]; }
      hide Step;
      FeedOne(p, ' ');
      FeedConcat(p, [' '], Spaces(n - 1));
      FeedSpaces(q, n - 1);
    }
  }

  lemma FeedSpacesEmpty(p: Parser, n: nat)
    requires p.stack == []
    ensures Feed(p, Spaces(n)) == if n == 0 then Ok(p) else Err(Undefined)
  {
  }

  /** The end of a map whose last value is a number. */
  lemma FeedEndNumber(p: Parser, i: Item, braces: bool, spaces: nat)
    requires Ready(p) && Printable(i) && i.m.value.IntValue?
    ensures var r := Mappings(Feed(Numbered(p, i), End(braces, spaces)));
      if !braces then r == Ok(p.mappings)
      else if i.afterValue == 0 || spaces == 0 then r == Mappings(Add(p, i.m))
      else r.Err?
  {
    var q := Numbered(p, i);
    if !braces {
      FeedSpacesAfter(q, spaces);
      assert [] + Spaces(spaces) == Spaces(spaces);
    } else {
      EndNumber(p, i);
      FeedOne(q, '}');
      if Add(p, i.m).Ok? {
        FeedSpaces(Add(p, i.m).value, spaces);
        FeedSpacesEmpty(Add(p, i.m).value.(stack := []), spaces);
      }
      hide Feed, Step, Add, Spaces, RegisterOf, PrintInt;
      FeedConcat(q, ['}'], Spaces(spaces));
    }
  }

  // ------------------------------------------------------------------ feeding a list

  function AddAll(p: Parser, ms: seq<Mapping>): Result<Parser>
    decreases |ms|
  {
    if ms == [] then Ok(p)
    else match Add(p, ms[0]) case Err(e) => Err(e) case Ok(q) => AddAll(q, ms[1..])
  }

  lemma {:induction false} AddAllIsDistinct(p: Parser, ms: seq<Mapping>)
    requires Distinct(p.mappings)
    ensures AddAll(p, ms).Ok? <==> Distinct(p.mappings + ms)
    ensures AddAll(p, ms).Ok? ==> AddAll(p, ms).value.mappings == p.mappings + ms
    decreases |ms|
  {
    var all := p.mappings + ms;
    if ms == [] {
      assert all == p.mappings;
    } else {
      assert all[|p.mappings|] == ms[0] && forall i | 0 <= i < |p.mappings| :: all[i] == p.mappings[i];
      if Add(p, ms[0]).Ok? {
        assert p.mappings + [ms[0]] + ms[1..] == all;
        AddAllIsDistinct(Add(p, ms[0]).value, ms[1..]);
      } else if HasRegister(p.mappings, ms[0].reg) {
        var i :| 0 <= i < |p.mappings| && p.mappings[i].reg == ms[0].reg;
        assert all[i].reg == all[|p.mappings|].reg;
      } else {
        var i :| 0 <= i < |p.mappings| && p.mappings[i].value == ms[0].value;
        assert all[i].value == all[|p.mappings|].value;
      }
    }
  }

  lemma FeedTexts(p: Parser, items: seq<Item>, escape: char -> bool, end: string)
    requires items != []
    ensures |items| == 1 ==> Feed(p, Texts(items, escape) + end) == FeedAfter(Feed(p, Text(items[0], escape)), end)
    ensures 1 < |items| ==>
      Feed(p, Texts(items, escape) + end) ==
      FeedAfter(Feed(p, Text(items[0], escape) + [',']), Texts(items[1..], escape) + end)
  {
    var text := Text(items[0], escape);
    hide Feed, Text;
    if |items| == 1 {
      FeedConcat(p, text, end);
    } else {
      var rest := Texts(items[1..], escape);
      hide Texts;
      FeedConcat(p, text + [','], rest + end);
      assert text + [','] + rest + end == text + [','] + (rest + end);
    }
  }

  predicate AllPrintable(items: seq<Item>) {
    forall k | 0 <= k < |items| :: Printable(items[k])
  }

  lemma ReadNext(items: seq<Item>, braces: bool)
    requires 1 < |items|
    ensures Read(items, braces) == [items[0].m] + Read(items[1..], braces)
  {
  }

  lemma AddAllNext(p: Parser, m: Mapping, rest: seq<Mapping>)
    ensures AddAll(p, [m] + rest) == if Add(p, m).Err? then Add(p, m) else AddAll(Add(p, m).value, rest)
  {
    assert ([m] + rest)[1..] == rest;
    hide Add;
  }

  lemma FeedLastItem(p: Parser, i: Item, escape: char -> bool, braces: bool, spaces: nat)
    requires Ready(p) && Printable(i) && KeepsStrings(escape)
    ensures var r := Mappings(Feed(p, Texts([i], escape) + End(braces, spaces)));
      if Clean([i], escape, braces, spaces) then r == Mappings(AddAll(p, Read([i], braces))) else r.Err?
  {
    FeedTexts(p, [i], escape, End(braces, spaces));
    FeedText(p, i, escape);
    if i.m.value.IntValue? {
      FeedEndNumber(p, i, braces, spaces);
    } else if Add(p, i.m).Ok? {
      FeedEnd(Add(p, i.m).value, braces, spaces);
    }
    assert Read([i], braces) == (if !braces && i.m.value.IntValue? then [] else [i.m]) by { assert [i][1..] == []; }
    assert AddAll(p, [i.m]) == Add(p, i.m) by { AddAllNext(p, i.m, []); assert [i.m] + [] == [i.m]; }
    hide Feed, Texts, End, Add, AddAll, Read, RegisterOf, Text, OpenBrace;
    assert Clean([i], escape, braces, spaces) <==>
      !OpenBraceIn(i.m, escape) && (braces && Spaced(i) ==> spaces == 0);
  }

  /** A list that is read back. */
  lemma {:induction false} CleanIsRead(p: Parser, items: seq<Item>, escape: char -> bool, braces: bool, spaces: nat)
    requires Ready(p) && items != [] && AllPrintable(items) && KeepsStrings(escape)
    requires Clean(items, escape, braces, spaces)
    ensures Mappings(Feed(p, Texts(items, escape) + End(braces, spaces))) == Mappings(AddAll(p, Read(items, braces)))
    decreases |items|
  {
    if |items| == 1 {
      assert items == [items[0]];
      FeedLastItem(p, items[0], escape, braces, spaces);
    } else {
      FeedTexts(p, items, escape, End(braces, spaces));
      FeedItem(p, items[0], escape);
      ReadNext(items, braces);
      AddAllNext(p, items[0].m, Read(items[1..], braces));
      assert Clean(items[1..], escape, braces, spaces) && AllPrintable(items[1..]);
      assert Add(p, items[0].m).Ok? ==> Ready(Add(p, items[0].m).value);
      hide Feed, Texts, End, Add, AddAll, Read, Printable, Clean, Text, OpenBrace;
      if Add(p, items[0].m).Ok? { CleanIsRead(Add(p, items[0].m).value, items[1..], escape, braces, spaces); }
    }
  }

  // ------------------------------------------------------------------ a number that a space has ended

  /** Inside or after a number that was not added. */
  predicate Open(p: Parser) {
    p.key != "" && p.kind == IntKind && (p.stack == [Scan] || p.stack == [Scan, InValue])
  }

  predicate Plain(c: char) {
    KeyChar(c) || c == '-' || c == ' ' || c == ':'
  }

  lemma StepOpen(p: Parser, c: char)
    requires Open(p) && Plain(c)
    ensures Step(p, c).Ok? && Open(Step(p, c).value) && Step(p, c).value.mappings == p.mappings
  {
    assert [Scan, InValue][..1] == [Scan] && [Scan] + [InValue] == [Scan, InValue];
  }

  lemma {:induction false} FeedOpen(p: Parser, s: string)
    requires Open(p) && forall i | 0 <= i < |s| :: Plain(s[i])
    ensures Feed(p, s).Ok? && Open(Feed(p, s).value) && Feed(p, s).value.mappings == p.mappings
    decreases |s|
  {
    if s != [] {
      StepOpen(p, s[0]);
      hide Step, Open, Plain;
      FeedOpen(Step(p, s[0]).value, s[1..]);
    }
  }

  lemma {:induction false} SpacesArePlain(n: nat)
    ensures forall i | 0 <= i < |Spaces(n)| :: Plain(Spaces(n)[i])
  {
    if n != 0 { SpacesArePlain(n - 1); }
  }

  lemma HeadIsPlain(i: Item)
    requires KeyText(i.key)
    ensures forall k | 0 <= k < |Head(i)| :: Plain(Head(i)[k])
  {
    SpacesArePlain(i.before);
    SpacesArePlain(i.afterKey);
    SpacesArePlain(i.beforeValue);
    hide Spaces;
  }

  lemma IntIsPlain(n: int)
    ensures forall k | 0 <= k < |PrintInt(n)| :: Plain(PrintInt(n)[k])
  {
    PrintNatIsDigits(if n < 0 then -n else n);
    hide PrintNat;
  }

  /** After a mapping or at the end: at most one more mapping, and a clean start or an open number. */
  predicate AtMostOneMore(p: Parser, r: Result<Parser>) {
    r.Ok? ==>
      || (Open(r.value) && r.value.mappings == p.mappings)
      || (Ready(r.value) && |r.value.mappings| == |p.mappings| + 1)
  }

  lemma AddMappingAdds(p: Parser)
    requires p.stack == [Scan, InValue]
    ensures AtMostOneMore(p, AddMapping(p))
  {
    assert [Scan, InValue][..1] == [Scan];
    hide RegisterOf, Atoi, CString, HasRegister, HasValue;
  }

  lemma FeedOpenText(p: Parser, i: Item, escape: char -> bool)
    requires Open(p) && Printable(i) && KeepsStrings(escape)
    ensures var r := Feed(p, Text(i, escape));
      AtMostOneMore(p, r) && (i.m.value.IntValue? ==> r.Ok? && Open(r.value))
  {
    var head, value, spaces := Head(i), ValueText(i.m.value, escape), Spaces(i.afterValue);
    HeadIsPlain(i);
    FeedOpen(p, head);
    var p1 := Feed(p, head).value;
    SpacesArePlain(i.afterValue);
    if i.m.value.IntValue? {
      IntIsPlain(i.m.value.i);
      FeedOpen(p1, value);
      FeedOpen(Feed(p1, value).value, spaces);
    } else {
      FeedOpenString(p1, i.m.value.s, escape);
      if Feed(p1, value).Ok? { FeedSpaces(Feed(p1, value).value, i.afterValue); }
    }
    hide Feed, Head, Spaces, RegisterOf, EscapeText, PrintInt, Open;
    FeedConcat(p, head, value);
    FeedConcat(p, head + value, spaces);
  }

  /** A string after an open number is an error, or a space before it makes it part of that mapping. */
  lemma FeedOpenString(p: Parser, s: string, escape: char -> bool)
    requires Open(p) && KeepsStrings(escape)
    ensures var r := Feed(p, ValueText(StrValue(s), escape));
      r.Ok? ==> Ready(r.value) && |r.value.mappings| == |p.mappings| + 1
  {
    var text := EscapeText(s, escape);
    FeedConcat(p, ['"'], text + ['"']);
    FeedOne(p, '"');
    assert ['"'] + (text + ['"']) == ['"'] + text + ['"'];
    if p.stack == [Scan] {
      var p1 := p.(stack := [Scan, InValue], kind := StrKind);
      assert Step(p, '"') == Ok(p1) by { assert [Scan] + [InValue] == [Scan, InValue]; }
      var p2 := p1.(value := p1.value + s);
      FeedEscaped(p1, s, escape);
      FeedConcat(p1, text, ['"']);
      FeedOne(p2, '"');
      assert Step(p2, '"') == AddMapping(p2);
      AddMappingAdds(p2);
      hide Feed, EscapeText, Step, AddMapping;
    } else {
      assert Step(p, '"').Err?;
    }
  }

  lemma StepOpenComma(p: Parser)
    requires Open(p)
    ensures AtMostOneMore(p, Step(p, ','))
  {
    if p.stack == [Scan, InValue] { AddMappingAdds(p); }
    hide AddMapping;
  }

  predicate ReadyOrOpen(p: Parser) {
    Ready(p) || Open(p)
  }

  /** From a clean start or an open number, a mapping and its comma add at most one mapping. */
  lemma ItemAddsAtMostOne(p: Parser, i: Item, escape: char -> bool)
    requires ReadyOrOpen(p) && Printable(i) && KeepsStrings(escape)
    ensures var r := Feed(p, Text(i, escape) + [',']);
      r.Ok? ==> ReadyOrOpen(r.value) && |r.value.mappings| <= |p.mappings| + 1
  {
    if Ready(p) {
      FeedItem(p, i, escape);
      hide Feed, Text, RegisterOf, PrintInt;
    } else {
      FeedOpenText(p, i, escape);
      var r := Feed(p, Text(i, escape));
      FeedConcat(p, Text(i, escape), [',']);
      hide Feed, Text, Step, RegisterOf;
      if r.Ok? {
        FeedOne(r.value, ',');
        if Open(r.value) { StepOpenComma(r.value); } else { ReadyIgnores(r.value); }
      }
    }
  }

  lemma StepOpenBrace(p: Parser)
    requires Open(p)
    ensures var r := Step(p, '}');
      r.Ok? ==> |r.value.mappings| == |p.mappings| + 1 && (Ready(r.value) || r.value.stack == [])
  {
    assert [Scan, InValue][..1] == [Scan] && [Scan][..0] == [];
    hide RegisterOf, Atoi, CString, HasRegister, HasValue;
  }

  lemma EndAddsAtMostOne(p: Parser, braces: bool, spaces: nat)
    requires Open(p)
    ensures var r := Mappings(Feed(p, End(braces, spaces)));
      r.Ok? ==> |r.value| == |p.mappings| + if braces then 1 else 0
  {
    if braces {
      StepOpenBrace(p);
      hide Step;
      FeedOne(p, '}');
      FeedConcat(p, ['}'], Spaces(spaces));
      if Step(p, '}').Ok? {
        var q := Step(p, '}').value;
        if q.stack == [] { FeedSpacesEmpty(q, spaces); } else { FeedSpaces(q, spaces); }
      }
    } else {
      FeedSpacesAfter(p, spaces);
      assert [] + Spaces(spaces) == Spaces(spaces);
    }
  }

  lemma LastAddsAtMost(p: Parser, i: Item, escape: char -> bool, braces: bool, spaces: nat)
    requires Open(p) && Printable(i) && KeepsStrings(escape)
    ensures var r := Mappings(Feed(p, Texts([i], escape) + End(braces, spaces)));
      r.Ok? ==> |r.value| <= |p.mappings| + |Read([i], braces)|
  {
    FeedOpenText(p, i, escape);
    FeedTexts(p, [i], escape, End(braces, spaces));
    var r := Feed(p, Text(i, escape));
    if r.Ok? {
      if Open(r.value) { EndAddsAtMostOne(r.value, braces, spaces); } else { FeedEnd(r.value, braces, spaces); }
    }
    assert |Read([i], braces)| == (if !braces && i.m.value.IntValue? then 0 else 1) by { assert [i][1..] == []; }
    hide Feed, Texts, Text, End, Read, RegisterOf;
  }

  lemma {:induction false} TextsAddAtMost(p: Parser, items: seq<Item>, escape: char -> bool, braces: bool, spaces: nat)
    requires ReadyOrOpen(p) && items != [] && AllPrintable(items) && KeepsStrings(escape)
    ensures var r := Mappings(Feed(p, Texts(items, escape) + End(braces, spaces)));
      r.Ok? ==> |r.value| <= |p.mappings| + |Read(items, braces)|
    decreases |items|
  {
    if |items| == 1 {
      assert items == [items[0]];
      if Open(p) {
        LastAddsAtMost(p, items[0], escape, braces, spaces);
      } else {
        FeedLastItem(p, items[0], escape, braces, spaces);
        AddAllAdds(p, Read(items, braces));
      }
    } else {
      ItemAddsAtMostOne(p, items[0], escape);
      FeedTexts(p, items, escape, End(braces, spaces));
      ReadNext(items, braces);
      var r := Feed(p, Text(items[0], escape) + [',']);
      assert AllPrintable(items[1..]);
      hide Feed, Texts, Text, End, Read, Printable, ReadyOrOpen;
      if r.Ok? { TextsAddAtMost(r.value, items[1..], escape, braces, spaces); }
    }
  }

  lemma {:induction false} AddAllAdds(p: Parser, ms: seq<Mapping>)
    ensures AddAll(p, ms).Ok? ==> |AddAll(p, ms).value.mappings| == |p.mappings| + |ms|
    decreases |ms|
  {
    if ms != [] && Add(p, ms[0]).Ok? { AddAllAdds(Add(p, ms[0]).value, ms[1..]); }
  }

  /** The first of several mappings: an error, or one mapping more, or an open number. */
  lemma FirstOfMany(p: Parser, i: Item, escape: char -> bool)
    requires Ready(p) && Printable(i) && KeepsStrings(escape)
    ensures var r := Feed(p, Text(i, escape) + [',']);
      if OpenBraceIn(i.m, escape) then r.Err?
      else if Spaced(i) then r.Ok? && ReadyOrOpen(r.value) && |r.value.mappings| == |p.mappings|
      else r.Ok? ==> Ready(r.value) && |r.value.mappings| == |p.mappings| + 1
  {
    FeedItem(p, i, escape);
    hide Feed, Text, RegisterOf, PrintInt, OpenBrace, HasRegister, HasValue;
  }

  /** A list that is not read back: a number that a space has ended swallows the mapping after it. */
  lemma {:induction false} NotCleanIsShorter(p: Parser, items: seq<Item>, escape: char -> bool, braces: bool,
                                             spaces: nat)
    requires Ready(p) && items != [] && AllPrintable(items) && KeepsStrings(escape)
    requires !Clean(items, escape, braces, spaces)
    ensures var r := Mappings(Feed(p, Texts(items, escape) + End(braces, spaces)));
      r.Ok? ==> |r.value| < |p.mappings| + |Read(items, braces)|
    decreases |items|
  {
    assert Printable(items[0]) && AllPrintable(items[1..]);
    hide Feed, Texts, Text, End, Read, Printable, Clean, OpenBraceIn, Ready, ReadyOrOpen, AllPrintable, Spaced;
    if |items| == 1 {
      assert items == [items[0]];
      FeedLastItem(p, items[0], escape, braces, spaces);
    } else {
      FirstOfMany(p, items[0], escape);
      FeedTexts(p, items, escape, End(braces, spaces));
      ReadNext(items, braces);
      CleanNext(items, escape, braces, spaces);
      var r := Feed(p, Text(items[0], escape) + [',']);
      if r.Ok? {
        if Spaced(items[0]) {
          TextsAddAtMost(r.value, items[1..], escape, braces, spaces);
        } else {
          NotCleanIsShorter(r.value, items[1..], escape, braces, spaces);
        }
      }
    }
  }

  lemma CleanNext(items: seq<Item>, escape: char -> bool, braces: bool, spaces: nat)
    requires 1 < |items|
    ensures Clean(items, escape, braces, spaces) <==>
      !OpenBraceIn(items[0].m, escape) && !Spaced(items[0]) && Clean(items[1..], escape, braces, spaces)
  {
    hide OpenBraceIn, Spaced;
  }

  // ------------------------------------------------------------------ the round trip

  lemma FeedBrace(s: string)
    ensures Feed(START, ['{'] + s) == Feed(START, s)
  {
    ReadyIgnores(START);
    FeedOne(START, '{');
    hide Feed, Step;
    FeedConcat(START, ['{'], s);
  }

  lemma ThreeParts(a: string, b: string, c: string)
    ensures a + b + c == a + (b + c) && [] + b + c == b + c
  {
  }

  lemma FeedPrinted(items: seq<Item>, escape: char -> bool, braces: bool, spaces: nat)
    ensures Feed(START, Print(items, escape, braces, spaces)) ==
      Feed(START, (if items == [] then [] else Texts(items, escape)) + End(braces, spaces))
  {
    var body := if items == [] then [] else Texts(items, escape);
    hide Feed, Texts, End;
    ThreeParts(['{'], body, End(braces, spaces));
    FeedBrace(body + End(braces, spaces));
  }

  /** Parsing a printed map gives back what can be read of it if the layout is clean and maps nothing twice.
      A list that maps something twice is an error. In any other layout the result is an error or shorter. */
  lemma RoundTrip(items: seq<Item>, escape: char -> bool, braces: bool, spaces: nat)
    requires AllPrintable(items) && KeepsStrings(escape)
    ensures var r, ms := Parsed(Print(items, escape, braces, spaces)), Read(items, braces);
      if !Clean(items, escape, braces, spaces) then r.Err? || |r.value| < |ms|
      else if Distinct(ms) then r == Ok(ms)
      else r.Err?
  {
    FeedPrinted(items, escape, braces, spaces);
    var ms := Read(items, braces);
    if items == [] {
      FeedEnd(START, braces, spaces);
      assert [] + End(braces, spaces) == End(braces, spaces);
      hide Feed, Print, End;
    } else if Clean(items, escape, braces, spaces) {
      CleanIsRead(START, items, escape, braces, spaces);
      AddAllIsDistinct(START, ms);
      assert START.mappings + ms == ms;
      hide Feed, Print, End, Read, AddAll, Clean, AllPrintable;
    } else {
      NotCleanIsShorter(START, items, escape, braces, spaces);
      hide Feed, Print, End, Read, Clean, AllPrintable;
    }
  }

  /** All mappings can be read if there are braces or the last value is a string, all but the last otherwise. */
  lemma {:induction false} ReadIsAll(items: seq<Item>, braces: bool)
    ensures var n := if braces || items == [] || items[|items| - 1].m.value.StrValue? then |items| else |items| - 1;
      |Read(items, braces)| == n && forall k | 0 <= k < n :: Read(items, braces)[k] == items[k].m
  {
    if 1 < |items| { ReadIsAll(items[1..], braces); }
  }

  /** So a map is read back exactly if it is clean, maps nothing twice and, without braces, ends in a string. */
  lemma ReadBackExactly(items: seq<Item>, escape: char -> bool, braces: bool, spaces: nat, ms: seq<Mapping>)
    requires AllPrintable(items) && KeepsStrings(escape)
    requires |ms| == |items| && forall k | 0 <= k < |ms| :: ms[k] == items[k].m
    ensures Parsed(Print(items, escape, braces, spaces)) == Ok(ms) <==>
      && Clean(items, escape, braces, spaces) && Distinct(ms)
      && (braces || items == [] || items[|items| - 1].m.value.StrValue?)
  {
    RoundTrip(items, escape, braces, spaces);
    ReadIsAll(items, braces);
    hide Parsed, Print, Read, Clean, AllPrintable;
    if braces || items == [] || items[|items| - 1].m.value.StrValue? { assert Read(items, braces) == ms; }
  }

  // ------------------------------------------------------------------ a space after a number

  lemma FeedNext(s: string, p: Parser, c: char, r: Result<Parser>)
    requires Feed(START, s) == Ok(p) && p.stack != [] && Step(p, c) == r
    ensures Feed(START, s + [c]) == r
  {
    FeedConcat(START, s, [c]);
    FeedOne(p, c);
    hide Feed, Step;
  }

  /** The parser after `{1:2` and a space. */
  const ENDED := Parser([Scan], "1", IntKind, "2", [])

  lemma FeedEnded()
    ensures Feed(START, "{1:2 ") == Ok(ENDED)
  {
    var p1 := START.(stack := [Scan, Key], key := "1");
    var p2 := START.(key := "1");
    var p3 := ENDED.(stack := [Scan, InValue]);
    assert [Scan] + [Key] == [Scan, Key] && [Scan] + [InValue] == [Scan, InValue] && "" + ['2'] == "2";
    assert [Scan, Key][..1] == [Scan] && [Scan, InValue][..1] == [Scan];
    assert Step(START, '{') == Ok(START) && Step(START, '1') == Ok(p1) && Step(p1, ':') == Ok(p2);
    assert Step(p2, '2') == Ok(p3) && Step(p3, ' ') == Ok(ENDED);
    FeedOne(START, '{');
    hide Feed, Step;
    FeedNext("{", START, '1', Ok(p1));
    FeedNext("{" + ['1'], p1, ':', Ok(p2));
    FeedNext("{" + ['1'] + [':'], p2, '2', Ok(p3));
    FeedNext("{" + ['1'] + [':'] + ['2'], p3, ' ', Ok(ENDED));
    assert "{" + ['1'] + [':'] + ['2'] + [' '] == "{1:2 ";
  }

  lemma SmallNumbers()
    ensures RegisterOf("1") == Some(1) && Atoi("2") == 2 && Atoi("23") == 23
  {
    RegisterOfPrinted(1);
    AtoiOfPrinted(2);
    AtoiOfPrinted(23);
    assert PrintNat(23) == PrintNat(2) + [Digit(3)];
    hide RegisterOf, Atoi;
  }

  /** A brace after a number and a space adds it and leaves the stack empty; the source reads the top of that
      stack if a space follows. */
  lemma BraceAfterSpace()
    ensures Feed(START, "{1:2 }") == Ok(Parser([], "", NoKind, "", [Mapping(1, IntValue(2))]))
    ensures Parsed("{1:2 } ") == Err(Undefined)
  {
    FeedEnded();
    SmallNumbers();
    var r := Parser([], "", NoKind, "", [Mapping(1, IntValue(2))]);
    hide Feed, RegisterOf, Atoi;
    assert Step(ENDED, '}') == Ok(r) by { assert [Scan][..0] == [] && [] + r.mappings == r.mappings; }
    FeedNext("{1:2 ", ENDED, '}', Ok(r));
    assert "{1:2 " + ['}'] == "{1:2 }" && "{1:2 }" + [' '] == "{1:2 } ";
    FeedConcat(START, "{1:2 }", [' ']);
    FeedSpacesEmpty(r, 1);
    assert Spaces(1) == [' '];
  }

  lemma CommaSteps(p: Parser, r: Parser)
    requires p == ENDED.(stack := [Scan, InValue], value := "23")
    requires r == Parser([Scan], "", NoKind, "", [Mapping(1, IntValue(23))])
    ensures Step(ENDED, ',') == Ok(ENDED) && Step(ENDED, '3') == Ok(p) && Step(p, '}') == Ok(r)
  {
    SmallNumbers();
    hide RegisterOf, Atoi;
    assert [Scan] + [InValue] == [Scan, InValue] && "2" + ['3'] == "23";
    assert [Scan, InValue][..1] == [Scan] && [] + r.mappings == r.mappings;
  }

  /** A comma after a number and a space is ignored, and what follows becomes part of the number. */
  lemma CommaAfterSpace()
    ensures Parsed("{1:2 ,3}") == Ok([Mapping(1, IntValue(23))])
  {
    var p := ENDED.(stack := [Scan, InValue], value := "23");
    var r := Parser([Scan], "", NoKind, "", [Mapping(1, IntValue(23))]);
    FeedEnded();
    CommaSteps(p, r);
    hide Feed, Step;
    FeedNext("{1:2 ", ENDED, ',', Ok(ENDED));
    FeedNext("{1:2 " + [','], ENDED, '3', Ok(p));
    FeedNext("{1:2 " + [','] + ['3'], p, '}', Ok(r));
    assert "{1:2 " + [','] + ['3'] + ['}'] == "{1:2 ,3}";
  }
}
