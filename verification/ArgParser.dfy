/** The parser for converter arguments, such as `1, low_first=true, name='a, b'`. */
module ArgParser {
  import opened Options

  datatype Result<+T> = Ok(value: T) | Err(error: Error)

  datatype Error =
    | MissingName | NameTwice | QuotedName | EmptyArgument | Unterminated | InvalidEscape
    | PositionalAfterNamed | TooManyArguments | AlreadySet | UnknownName

  /** A declared argument. */
  datatype Arg = Arg(name: string, default: string)

  datatype Mode = Scan | ArgValue | Escape

  datatype Parser = Parser(args: seq<Arg>, stack: seq<Mode>, delimiter: Option<char>, name: string, value: string,
                           useOrder: bool, position: nat, processed: seq<string>, values: map<string, string>)

  // ------------------------------------------------------------------ setting arguments

  /** Of two declared arguments with one name the first counts. */
  function Defaults(args: seq<Arg>): map<string, string> {
    if args == [] then map[]
    else
      var before := Defaults(args[..|args| - 1]);
      var a := args[|args| - 1];
      if a.name in before then before else before[a.name := a.default]
  }

  function Start(args: seq<Arg>): Parser {
    Parser(args, [Scan], None, "", "", true, 0, [], Defaults(args))
  }

  /** Stores the value under the name, or under the name of the next positional argument. */
  function SetArgValue(p: Parser): Result<Parser> {
    if p.name == "" && !p.useOrder then Err(PositionalAfterNamed)
    else if p.name == "" && |p.args| <= p.position then Err(TooManyArguments)
    else
      var name := if p.name != "" then p.name else p.args[p.position].name;
      if name in p.processed then Err(AlreadySet)
      else if name !in p.values then Err(UnknownName)
      else Ok(p.(useOrder := p.useOrder && p.name == "",
                 position := if p.name == "" then p.position + 1 else p.position,
                 processed := p.processed + [name], values := p.values[name := p.value], name := "", value := ""))
  }

  // ------------------------------------------------------------------ characters

  function Top(p: Parser): Mode
    requires p.stack != []
  {
    p.stack[|p.stack| - 1]
  }

  function Push(p: Parser, m: Mode): Parser {
    p.(stack := p.stack + [m])
  }

  function Pop(p: Parser): Parser
    requires p.stack != []
  {
    p.(stack := p.stack[..|p.stack| - 1])
  }

  function Append(p: Parser, c: char): Parser {
    p.(value := p.value + [c])
  }

  function Step(p: Parser, c: char): Result<Parser>
    requires p.stack != []
  {
    match Top(p)
    case Escape => Ok(Pop(Append(p, c)))
    case ArgValue =>
      if c == '=' && p.delimiter.None? then Err(QuotedName)
      else if (c == '"' || c == '\'') && p.delimiter == Some(c) then Ok(Pop(p).(delimiter := None))
      else Ok(Append(p, c))
    case Scan =>
      if c == '\\' then Ok(Push(p, Escape))
      else if c == '=' then
        if p.value == "" then Err(MissingName)
        else if p.name != "" then Err(NameTwice)
        else Ok(p.(name := p.value, value := ""))
      else if c == ',' then (if p.value == "" then Err(EmptyArgument) else SetArgValue(p))
      else if c == '"' || c == '\'' then Ok(Push(p, ArgValue).(delimiter := Some(c)))
      else if c == ' ' then Ok(p)
      else Ok(Append(p, c))
  }

  function Finish(p: Parser): Result<map<string, string>>
    requires p.stack != []
  {
    match Top(p)
    case ArgValue => Err(Unterminated)
    case Escape => Err(InvalidEscape)
    case Scan =>
      if p.value == "" then Ok(p.values)
      else match SetArgValue(p) case Ok(q) => Ok(q.values) case Err(e) => Err(e)
  }

  /** The stack is `Scan` alone or with one mode above, and a delimiter is set exactly inside a quoted value. */
  predicate StackOk(p: Parser) {
    && (p.stack == [Scan] || p.stack == [Scan, ArgValue] || p.stack == [Scan, Escape])
    && (p.delimiter.Some? <==> p.stack == [Scan, ArgValue])
  }

  lemma SetKeepsStack(p: Parser)
    ensures SetArgValue(p).Ok? ==>
      SetArgValue(p).value.stack == p.stack && SetArgValue(p).value.delimiter == p.delimiter
  {
  }

  lemma StepKeepsStack(p: Parser, c: char)
    requires StackOk(p)
    ensures Step(p, c).Ok? ==> StackOk(Step(p, c).value)
  {
    if p.stack == [Scan] {
      SetKeepsStack(p);
      assert [Scan] + [ArgValue] == [Scan, ArgValue] && [Scan] + [Escape] == [Scan, Escape];
    } else {
      assert p.stack[..1] == [Scan];
    }
    hide SetArgValue;
  }

  function Feed(p: Parser, s: string): (r: Result<Parser>)
    requires StackOk(p)
    ensures r.Ok? ==> StackOk(r.value)
    decreases |s|
  {
    if s == [] then Ok(p)
    else
      StepKeepsStack(p, s[0]);
      match Step(p, s[0])
      case Err(e) => Err(e)
      case Ok(q) => Feed(q, s[1..])
  }

  function Parsed(args: seq<Arg>, s: string): Result<map<string, string>> {
    match Feed(Start(args), s)
    case Err(e) => Err(e)
    case Ok(p) => Finish(p)
  }

  /** `parse`: on every input the stack stays sound, so its top can always be read. */
  method Parse(args: seq<Arg>, s: string) returns (r: Result<map<string, string>>)
    ensures r == Parsed(args, s)
  {
    var p := Start(args);
    var i := 0;
    while i < |s|
      invariant 0 <= i <= |s| && StackOk(p)
      invariant Feed(p, s[i..]) == Feed(Start(args), s)
    {
      assert s[i..][0] == s[i] && s[i..][1..] == s[i + 1..];
      StepKeepsStack(p, s[i]);
      var next := Step(p, s[i]);
      if next.Err? {
        return Err(next.error);
      }
      p := next.value;
      i := i + 1;
    }
    r := Finish(p);
  }

  // ------------------------------------------------------------------ each argument is set at most once

  predicate NoRepeats(names: seq<string>) {
    forall i, j | 0 <= i < j < |names| :: names[i] != names[j]
  }

  /** Every declared argument has a value: the default, unless it was set, which happens at most once. */
  ghost predicate SetOnce(p: Parser) {
    && NoRepeats(p.processed) && p.values.Keys == Defaults(p.args).Keys
    && (forall i | 0 <= i < |p.processed| :: p.processed[i] in p.values)
    && (forall n | n in p.values && n !in p.processed :: p.values[n] == Defaults(p.args)[n])
  }

  lemma SetKeepsSetOnce(p: Parser)
    requires SetOnce(p)
    ensures SetArgValue(p).Ok? ==> SetOnce(SetArgValue(p).value)
  {
    hide Defaults;
  }

  lemma StepSets(p: Parser, c: char)
    requires StackOk(p) && Step(p, c).Ok?
    ensures var q := Step(p, c).value;
      (q.args == p.args && q.processed == p.processed && q.values == p.values) || SetArgValue(p) == Ok(q)
  {
    hide SetArgValue;
  }

  lemma StepKeepsSetOnce(p: Parser, c: char)
    requires StackOk(p) && SetOnce(p)
    ensures Step(p, c).Ok? ==> SetOnce(Step(p, c).value)
  {
    if Step(p, c).Ok? {
      StepSets(p, c);
      SetKeepsSetOnce(p);
      hide Step, SetArgValue, Defaults;
    }
  }

  lemma {:induction false} FeedKeepsSetOnce(p: Parser, s: string)
    requires StackOk(p) && SetOnce(p)
    ensures Feed(p, s).Ok? ==> SetOnce(Feed(p, s).value)
    decreases |s|
  {
    if s != [] {
      StepKeepsStack(p, s[0]);
      StepKeepsSetOnce(p, s[0]);
      if Step(p, s[0]).Ok? { FeedKeepsSetOnce(Step(p, s[0]).value, s[1..]); }
    }
  }

  // ------------------------------------------------------------------ printing

  /** How a value is written: plain, with the characters that `escape` picks escaped, or in quotes. */
  datatype Style = Escaped(escape: char -> bool) | Quoted(quote: char)

  predicate Special(c: char) {
    c in {'\\', '=', ',', '"', '\'', ' '}
  }

  /** The style fits the text: special characters are escaped, quotes do not occur inside quotes. */
  ghost predicate Fits(style: Style, text: string) {
    match style
    case Escaped(escape) => forall c | Special(c) :: escape(c)
    case Quoted(quote) => quote in {'"', '\''} && quote !in text
  }

  function EscapeText(text: string, escape: char -> bool): string {
    if text == [] then []
    else (if escape(text[0]) then ['\\', text[0]] else [text[0]]) + EscapeText(text[1..], escape)
  }

  function PrintText(text: string, style: Style): string {
    match style
    case Escaped(escape) => EscapeText(text, escape)
    case Quoted(quote) => [quote] + text + [quote]
  }

  /** An argument as it is written: spaces, the name if it is named, and the value. */
  datatype Item = Item(spaces: nat, name: Option<string>, nameStyle: Style, value: string, style: Style)

  ghost predicate Printable(item: Item) {
    && Fits(item.style, item.value)
    && (item.name.Some? ==> item.name.value != "" && Fits(item.nameStyle, item.name.value))
  }

  function Spaces(n: nat): string {
    if n == 0 then [] else [' '] + Spaces(n - 1)
  }

  function PrintItem(item: Item): string {
    Spaces(item.spaces) + (if item.name.Some? then PrintText(item.name.value, item.nameStyle) + ['='] else [])
    + PrintText(item.value, item.style)
  }

  function Print(items: seq<Item>): string {
    if items == [] then []
    else if |items| == 1 then PrintItem(items[0])
    else PrintItem(items[0]) + [','] + Print(items[1..])
  }

  // ------------------------------------------------------------------ parsing what was printed

  function FeedAfter(r: Result<Parser>, s: string): Result<Parser>
    requires r.Ok? ==> StackOk(r.value)
  {
    if r.Err? then r else Feed(r.value, s)
  }

  lemma {:induction false} FeedConcat(p: Parser, a: string, b: string)
    requires StackOk(p)
    ensures Feed(p, a + b) == FeedAfter(Feed(p, a), b)
    decreases |a|
  {
    if a == [] {
      assert a + b == b;
    } else {
      StepKeepsStack(p, a[0]);
      assert (a + b)[0] == a[0] && (a + b)[1..] == a[1..] + b;
      if Step(p, a[0]).Ok? { FeedConcat(Step(p, a[0]).value, a[1..], b); }
    }
  }

  lemma FeedOne(p: Parser, c: char)
    requires StackOk(p)
    ensures Feed(p, [c]) == Step(p, c)
  {
    StepKeepsStack(p, c);
    if Step(p, c).Ok? { assert Feed(Step(p, c).value, [c][1..]) == Step(p, c); }
  }

  predicate Scanning(p: Parser) {
    p.stack == [Scan] && p.delimiter.None?
  }

  lemma {:induction false} FeedSpaces(p: Parser, n: nat)
    requires Scanning(p)
    ensures Feed(p, Spaces(n)) == Ok(p)
  {
    if n != 0 {
      FeedSpaces(p, n - 1);
      assert Spaces(n)[1..] == Spaces(n - 1);
    }
  }

  lemma FeedEscapedChar(p: Parser, c: char)
    requires Scanning(p)
    ensures Feed(p, ['\\', c]) == Ok(Append(p, c))
  {
    FeedConcat(p, ['\\'], [c]);
    assert ['\\'] + [c] == ['\\', c];
    FeedOne(p, '\\');
    FeedOne(Push(p, Escape), c);
    assert Pop(Append(Push(p, Escape), c)) == Append(p, c);
  }

  lemma FeedChar(p: Parser, c: char)
    requires Scanning(p) && !Special(c)
    ensures Feed(p, [c]) == Ok(Append(p, c))
  {
    FeedOne(p, c);
    hide Feed;
  }

  lemma HeadAndTail(a: string, s: string)
    requires s != ""
    ensures a + [s[0]] + s[1..] == a + s
  {
  }

  lemma {:induction false} FeedEscaped(p: Parser, text: string, escape: char -> bool)
    requires Scanning(p) && forall c | Special(c) :: escape(c)
    ensures Feed(p, EscapeText(text, escape)) == Ok(p.(value := p.value + text))
    decreases |text|
  {
    if text == [] {
      assert p.value + text == p.value;
    } else {
      hide Feed;
      var c := text[0];
      var first := if escape(c) then ['\\', c] else [c];
      if escape(c) { FeedEscapedChar(p, c); } else { FeedChar(p, c); }
      FeedConcat(p, first, EscapeText(text[1..], escape));
      FeedEscaped(Append(p, c), text[1..], escape);
      HeadAndTail(p.value, text);
    }
  }

  lemma {:induction false} FeedInQuotes(p: Parser, text: string, quote: char)
    requires p.stack == [Scan, ArgValue] && p.delimiter == Some(quote) && quote !in text
    ensures Feed(p, text) == Ok(p.(value := p.value + text))
    decreases |text|
  {
    if text == [] {
      assert p.value + text == p.value;
    } else {
      assert text[0] in text && forall c | c in text[1..] :: c in text;
      FeedInQuotes(Append(p, text[0]), text[1..], quote);
      assert p.value + [text[0]] + text[1..] == p.value + text;
    }
  }

  lemma FeedQuoted(p: Parser, text: string, quote: char)
    requires Scanning(p) && quote in {'"', '\''} && quote !in text
    ensures Feed(p, [quote] + text + [quote]) == Ok(p.(value := p.value + text))
  {
    var p1 := Push(p, ArgValue).(delimiter := Some(quote));
    var p2 := p1.(value := p.value + text);
    FeedOne(p, quote);
    assert Step(p, quote) == Ok(p1) && p1.stack == [Scan, ArgValue];
    assert Step(p2, quote) == Ok(p.(value := p.value + text)) by { assert Pop(p2).stack == [Scan]; }
    hide Step, Feed;
    FeedConcat(p, [quote], text);
    FeedInQuotes(p1, text, quote);
    FeedConcat(p, [quote] + text, [quote]);
    FeedOne(p2, quote);
  }

  lemma FeedText(p: Parser, text: string, style: Style)
    requires Scanning(p) && Fits(style, text)
    ensures Feed(p, PrintText(text, style)) == Ok(p.(value := p.value + text))
  {
    match style
    case Escaped(escape) => FeedEscaped(p, text, escape);
    case Quoted(quote) => FeedQuoted(p, text, quote);
  }

  predicate Ready(p: Parser) {
    Scanning(p) && p.name == "" && p.value == ""
  }

  function Loaded(p: Parser, item: Item): Parser {
    p.(name := if item.name.Some? then item.name.value else "", value := item.value)
  }

  lemma FeedItem(p: Parser, item: Item)
    requires Ready(p) && Printable(item)
    ensures Feed(p, PrintItem(item)) == Ok(Loaded(p, item))
  {
    var spaces, value := Spaces(item.spaces), PrintText(item.value, item.style);
    FeedSpaces(p, item.spaces);
    if item.name.None? {
      FeedConcat(p, spaces + [], value);
      assert spaces + [] == spaces;
      FeedText(p, item.value, item.style);
      assert "" + item.value == item.value;
    } else {
      var name := PrintText(item.name.value, item.nameStyle);
      FeedText(p, item.name.value, item.nameStyle);
      var p1 := p.(value := p.value + item.name.value);
      assert p1.value == item.name.value;
      FeedConcat(p, name, ['=']);
      FeedOne(p1, '=');
      var p2 := p1.(name := item.name.value, value := "");
      FeedConcat(p, spaces, name + ['=']);
      FeedConcat(p, spaces + (name + ['=']), value);
      FeedText(p2, item.value, item.style);
      assert "" + item.value == item.value;
    }
  }

  /** Sets the arguments one after the other. An empty value is an error, but ignored at the end. */
  function SetAll(p: Parser, items: seq<Item>): Result<Parser>
    decreases |items|
  {
    if items == [] then Ok(p)
    else if items[0].value == "" then (if |items| == 1 then Ok(p) else Err(EmptyArgument))
    else match SetArgValue(Loaded(p, items[0])) case Err(e) => Err(e) case Ok(q) => SetAll(q, items[1..])
  }

  function Finished(r: Result<Parser>): Result<map<string, string>>
    requires r.Ok? ==> StackOk(r.value)
  {
    match r case Err(e) => Err(e) case Ok(q) => Finish(q)
  }

  function ValuesOf(r: Result<Parser>): Result<map<string, string>> {
    match r case Err(e) => Err(e) case Ok(q) => Ok(q.values)
  }

  lemma FeedLast(p: Parser, item: Item)
    requires Ready(p) && Printable(item)
    ensures Finished(Feed(p, Print([item]))) == ValuesOf(SetAll(p, [item]))
  {
    FeedItem(p, item);
    hide Feed, PrintItem, Printable;
    assert [item][1..] == [];
  }

  lemma FeedFirst(p: Parser, items: seq<Item>)
    requires Ready(p) && 1 < |items| && Printable(items[0])
    ensures Feed(p, Print(items)) ==
      if items[0].value == "" then Err(EmptyArgument)
      else FeedAfter(SetArgValue(Loaded(p, items[0])), Print(items[1..]))
  {
    var p1, text := Loaded(p, items[0]), PrintItem(items[0]);
    FeedItem(p, items[0]);
    assert Step(p1, ',') == if p1.value == "" then Err(EmptyArgument) else SetArgValue(p1);
    hide Feed, Step, PrintItem, Printable, SetArgValue;
    FeedConcat(p, text, [',']);
    FeedOne(p1, ',');
    FeedConcat(p, text + [','], Print(items[1..]));
    SetKeepsStack(p1);
  }

  lemma {:induction false} FeedItems(p: Parser, items: seq<Item>)
    requires Ready(p) && forall i | 0 <= i < |items| :: Printable(items[i])
    ensures Finished(Feed(p, Print(items))) == ValuesOf(SetAll(p, items))
    decreases |items|
  {
    if |items| == 1 {
      assert items == [items[0]];
      FeedLast(p, items[0]);
    } else if items != [] {
      FeedFirst(p, items);
      var r := SetArgValue(Loaded(p, items[0]));
      assert r.Ok? ==> Ready(r.value);
      hide Feed, Print, Printable, SetArgValue;
      if items[0].value != "" && r.Ok? { FeedItems(r.value, items[1..]); }
    }
  }

  /** Parsing printed arguments is setting them in order, errors included. */
  lemma ParseUndoesPrint(args: seq<Arg>, items: seq<Item>)
    requires forall i | 0 <= i < |items| :: Printable(items[i])
    ensures Parsed(args, Print(items)) == ValuesOf(SetAll(Start(args), items))
  {
    FeedItems(Start(args), items);
    hide Feed, Finish, SetAll, Print;
  }

  // ------------------------------------------------------------------ which arguments are accepted

  /** The name the `i`-th argument is for. */
  function Target(args: seq<Arg>, items: seq<Item>, i: nat): string
    requires i < |items|
  {
    if items[i].name.Some? then items[i].name.value else if i < |args| then args[i].name else ""
  }

  predicate OnlyPositional(items: seq<Item>, k: nat)
    requires k <= |items|
  {
    forall i | 0 <= i < k :: items[i].name.None?
  }

  /** The `i`-th argument is in place: a positional one has no named one before it and is declared, and its
      name is declared and not used before. */
  predicate InPlace(args: seq<Arg>, items: seq<Item>, i: nat)
    requires i < |items|
  {
    && (items[i].name.None? ==> OnlyPositional(items, i) && i < |args|)
    && Target(args, items, i) in Defaults(args)
    && forall j | 0 <= j < i :: Target(args, items, j) != Target(args, items, i)
  }

  /** The number of arguments given: an empty value at the end does not count, whatever its name. */
  function Given(items: seq<Item>): (n: nat)
    ensures n <= |items|
  {
    if items != [] && items[|items| - 1].value == "" then |items| - 1 else |items|
  }

  /** The `i`-th argument is accepted: it is in place and not empty. */
  predicate Accepted(args: seq<Arg>, items: seq<Item>, i: nat)
    requires i < |items|
  {
    InPlace(args, items, i) && items[i].value != ""
  }

  /** The declared defaults, overridden by the first `k` arguments. */
  function Overridden(args: seq<Arg>, items: seq<Item>, k: nat): map<string, string>
    requires k <= |items|
  {
    if k == 0 then Defaults(args)
    else Overridden(args, items, k - 1)[Target(args, items, k - 1) := items[k - 1].value]
  }

  /** The state after the first `k` arguments, all in place. */
  ghost predicate Reached(p: Parser, args: seq<Arg>, items: seq<Item>, k: nat)
    requires k <= |items|
  {
    && p.args == args && p.useOrder == OnlyPositional(items, k) && (p.useOrder ==> p.position == k)
    && |p.processed| == k && (forall i | 0 <= i < k :: p.processed[i] == Target(args, items, i))
    && p.values == Overridden(args, items, k) && p.values.Keys == Defaults(args).Keys
  }

  lemma SetOneInPlace(p: Parser, args: seq<Arg>, items: seq<Item>, k: nat)
    requires k < |items| && Reached(p, args, items, k) && (items[k].name.Some? ==> items[k].name.value != "")
    ensures var r := SetArgValue(Loaded(p, items[k]));
      (r.Ok? <==> InPlace(args, items, k)) && (r.Ok? ==> Reached(r.value, args, items, k + 1))
  {
    var r := SetArgValue(Loaded(p, items[k]));
    assert OnlyPositional(items, k + 1) <==> OnlyPositional(items, k) && items[k].name.None?;
    hide Defaults, OnlyPositional;
    if items[k].name.None? && !(p.useOrder && k < |args|) {
    } else {
      var n := Target(args, items, k);
      assert n in p.processed <==> exists j | 0 <= j < k :: Target(args, items, j) == n;
    }
  }

  predicate AllAccepted(args: seq<Arg>, items: seq<Item>, k: nat) {
    forall i | k <= i < Given(items) :: Accepted(args, items, i)
  }

  lemma AcceptedMeans(args: seq<Arg>, items: seq<Item>, k: nat)
    requires k < |items|
    ensures Accepted(args, items, k) <==> InPlace(args, items, k) && items[k].value != ""
  {
    hide InPlace;
  }

  lemma AcceptedNext(args: seq<Arg>, items: seq<Item>, k: nat)
    requires k < Given(items)
    ensures AllAccepted(args, items, k) <==> Accepted(args, items, k) && AllAccepted(args, items, k + 1)
  {
    hide Accepted;
  }

  lemma SetNext(p: Parser, items: seq<Item>, k: nat)
    requires k <= Given(items)
    ensures k == Given(items) ==> SetAll(p, items[k..]) == Ok(p)
    ensures k < Given(items) ==>
      var r := SetArgValue(Loaded(p, items[k]));
      SetAll(p, items[k..]) ==
      if items[k].value == "" then Err(EmptyArgument) else if r.Err? then r else SetAll(r.value, items[k + 1..])
  {
    if k < |items| { assert items[k..][0] == items[k] && items[k..][1..] == items[k + 1..]; }
    hide SetArgValue;
  }

  lemma AtTheEnd(p: Parser, args: seq<Arg>, items: seq<Item>, k: nat)
    requires k <= Given(items) && Reached(p, args, items, k)
    ensures p.values == Overridden(args, items, k) && (k == Given(items) ==> AllAccepted(args, items, k))
  {
    hide Overridden;
  }

  lemma {:induction false} SetAllInPlace(p: Parser, args: seq<Arg>, items: seq<Item>, k: nat)
    requires k <= Given(items) && Reached(p, args, items, k)
    requires forall i | 0 <= i < |items| :: items[i].name.Some? ==> items[i].name.value != ""
    ensures var r := SetAll(p, items[k..]);
      && (r.Ok? <==> AllAccepted(args, items, k))
      && (r.Ok? ==> r.value.values == Overridden(args, items, Given(items)))
    decreases |items| - k
  {
    hide SetArgValue, InPlace, Accepted, Overridden, Reached, SetAll, AllAccepted, Given, Loaded;
    AtTheEnd(p, args, items, k);
    SetNext(p, items, k);
    if k < Given(items) {
      SetOneInPlace(p, args, items, k);
      AcceptedNext(args, items, k);
      AcceptedMeans(args, items, k);
      var r := SetArgValue(Loaded(p, items[k]));
      if items[k].value != "" && r.Ok? { SetAllInPlace(r.value, args, items, k + 1); }
    }
  }

  /** Printed arguments are accepted exactly if all that are given are in place and not empty, and then parsing
      gives back their values, and the defaults for the rest. */
  lemma RoundTrip(args: seq<Arg>, items: seq<Item>)
    requires forall i | 0 <= i < |items| :: Printable(items[i])
    ensures var r := Parsed(args, Print(items));
      && (r.Ok? <==> AllAccepted(args, items, 0))
      && (r.Ok? ==> r.value == Overridden(args, items, Given(items)))
  {
    ParseUndoesPrint(args, items);
    forall i | 0 <= i < |items| ensures items[i].name.Some? ==> items[i].name.value != "" {
      assert Printable(items[i]);
    }
    assert Reached(Start(args), args, items, 0);
    assert items[0..] == items;
    hide Parsed, Print, Printable, SetAll, Reached;
    SetAllInPlace(Start(args), args, items, 0);
  }

  /** An empty value is ignored if it is the only one, even under a name that is not declared, and is an error
      if others follow. */
  lemma EmptyValue(args: seq<Arg>, item: Item, others: seq<Item>)
    requires Printable(item) && item.value == "" && forall i | 0 <= i < |others| :: Printable(others[i])
    ensures Parsed(args, Print([item])) == Ok(Defaults(args))
    ensures others != [] ==> Parsed(args, Print([item] + others)).Err?
  {
    RoundTrip(args, [item]);
    if others != [] {
      var items := [item] + others;
      forall i | 0 <= i < |items| ensures Printable(items[i]) {}
      RoundTrip(args, items);
      assert 0 < Given(items) && !Accepted(args, items, 0);
    }
  }

  /** Each value is found under its name, and the defaults under the names not given. */
  lemma {:induction false} OverriddenHas(args: seq<Arg>, items: seq<Item>, k: nat, n: string)
    requires k <= |items| && forall i | 0 <= i < k :: InPlace(args, items, i)
    ensures Overridden(args, items, k).Keys == Defaults(args).Keys
    ensures forall i | 0 <= i < k ::
      var t, r := Target(args, items, i), Overridden(args, items, k); t in r && r[t] == items[i].value
    ensures n in Defaults(args) && (forall i | 0 <= i < k :: Target(args, items, i) != n) ==>
      Overridden(args, items, k)[n] == Defaults(args)[n]
  {
    if 0 < k {
      OverriddenHas(args, items, k - 1, n);
      assert InPlace(args, items, k - 1);
    }
  }
}
