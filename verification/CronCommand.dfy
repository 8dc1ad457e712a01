/**
 Printing a scheduled function call as a command, and parsing commands back.
 */
module CronCommand {
  import opened Wrappers

  /** Floating-point values are kept as the library returns them. */
  datatype Value = Int(i: int) | Bool(b: bool) | Str(s: string) | Float(text: string)

  // ---------------------------------------------------------------- text

  /** White space, U+0009 to U+000D and the Unicode spaces. */
  predicate IsSpace(c: char) {
    var n := c as int;
    || 9 <= n <= 13 || n == 0x20 || n == 0x85 || n == 0xA0 || n == 0x1680 || 0x2000 <= n <= 0x200A
    || n == 0x2028 || n == 0x2029 || n == 0x202F || n == 0x205F || n == 0x3000
  }

  function TrimLeft(s: string): string {
    if s != [] && IsSpace(s[0]) then TrimLeft(s[1..]) else s
  }

  function TrimRight(s: string): string {
    if s != [] && IsSpace(s[|s| - 1]) then TrimRight(s[..|s| - 1]) else s
  }

  function Trim(s: string): string {
    TrimRight(TrimLeft(s))
  }

  /** Nothing to trim at either end. */
  predicate Tight(s: string) {
    s != [] && !IsSpace(s[0]) && !IsSpace(s[|s| - 1])
  }

  lemma TrimTight(s: string)
    requires Tight(s)
    ensures Trim(s) == s && Trim([' '] + s) == s
  {
    assert ([' '] + s)[1..] == s;
  }

  function Index(s: string, c: char): (n: nat)
    ensures n <= |s|
    ensures n < |s| ==> s[n] == c && c !in s[..n]
    ensures n == |s| ==> c !in s
  {
    if s == [] || s[0] == c then 0 else
      var n := Index(s[1..], c);
      assert s == [s[0]] + s[1..] && s[..n + 1] == [s[0]] + s[1..][..n];
      n + 1
  }

  // ---------------------------------------------------------------- numbers

  function DigitChar(d: nat): char
    requires d < 10
  {
    ('0' as int + d) as char
  }

  predicate IsDigit(c: char) {
    '0' <= c <= '9'
  }

  function DecimalNat(n: nat): string {
    if n < 10 then [DigitChar(n)] else DecimalNat(n / 10) + [DigitChar(n % 10)]
  }

  function Decimal(i: int): string {
    if i < 0 then "-" + DecimalNat(-i) else DecimalNat(i)
  }

  predicate AllDigits(s: string) {
    forall k :: 0 <= k < |s| ==> IsDigit(s[k])
  }

  function NatValue(s: string): nat
    requires AllDigits(s)
  {
    if s == [] then 0 else 10 * NatValue(s[..|s| - 1]) + (s[|s| - 1] as int - '0' as int)
  }

  const MAX_INT := 0x7FFF_FFFF_FFFF_FFFF
  const MIN_INT := -0x8000_0000_0000_0000

  /** Decimal integer with an optional sign, within 64 bits. */
  function Atoi(s: string): Option<int> {
    var negative := s != [] && s[0] == '-';
    var digits := if s != [] && (s[0] == '-' || s[0] == '+') then s[1..] else s;
    if digits == [] || !AllDigits(digits) then None
    else
      var value: int := if negative then 0 - NatValue(digits) else NatValue(digits);
      if MIN_INT <= value <= MAX_INT then Some(value) else None
  }

  lemma {:induction false} DecimalRoundTrip(n: nat)
    ensures DecimalNat(n) != [] && AllDigits(DecimalNat(n)) && NatValue(DecimalNat(n)) == n
  {
    if n >= 10 {
      DecimalRoundTrip(n / 10);
      assert DecimalNat(n)[..|DecimalNat(n)| - 1] == DecimalNat(n / 10);
    }
  }

  lemma DigitsArePlain(s: string)
    requires s != [] && AllDigits(s)
    ensures Tight(s) && ',' !in s && '"' !in s && s[0] != '-' && s[0] != '+'
  {
    assert IsDigit(s[0]) && IsDigit(s[|s| - 1]);
    forall c | c in s ensures IsDigit(c) {
    }
  }

  lemma AtoiUnsigned(digits: string)
    requires digits != [] && AllDigits(digits) && digits[0] != '-' && digits[0] != '+' && NatValue(digits) <= MAX_INT
    ensures Atoi(digits) == Some(NatValue(digits))
  {
  }

  lemma AtoiNegative(digits: string)
    requires digits != [] && AllDigits(digits) && NatValue(digits) <= -MIN_INT
    ensures Atoi("-" + digits) == Some(0 - NatValue(digits))
  {
    assert ("-" + digits)[1..] == digits;
  }

  lemma AtoiReadsDecimal(i: int)
    requires MIN_INT <= i <= MAX_INT
    ensures Atoi(Decimal(i)) == Some(i) && Tight(Decimal(i))
    ensures ',' !in Decimal(i) && '"' !in Decimal(i)
  {
    hide DecimalNat, AllDigits, NatValue, Atoi;
    var n: nat := if i < 0 then -i else i;
    DecimalRoundTrip(n);
    DigitsArePlain(DecimalNat(n));
    if i < 0 {
      AtoiNegative(DecimalNat(n));
    } else {
      AtoiUnsigned(DecimalNat(n));
    }
  }

  // ---------------------------------------------------------------- printing

  function PrintValue(v: Value): string {
    match v
    case Str(s) => "\"" + s + "\""
    case Int(i) => Decimal(i)
    case Bool(b) => if b then "true" else "false"
    case Float(text) => text
  }

  function PrintArgs(args: seq<Value>): string {
    if args == [] then ""
    else
      var n := |args| - 1;
      PrintArgs(args[..n]) + (if n > 0 then ", " else "") + PrintValue(args[n])
  }

  function Print(name: string, args: seq<Value>): string {
    name + "(" + PrintArgs(args) + ")"
  }

  /** The printer at the head of CallCronFunction. */
  method PrintCommand(name: string, args: seq<Value>) returns (command: string)
    ensures command == Print(name, args)
  {
    command := name + "(";
    for i := 0 to |args|
      invariant command == name + "(" + PrintArgs(args[..i])
    {
      assert args[..i + 1][..i] == args[..i];
      if i > 0 {
        command := command + ", ";
      }
      command := command + PrintValue(args[i]);
    }
    assert args[..|args|] == args;
    command := command + ")";
  }

  // ---------------------------------------------------------------- parsing

  /** Fields finished so far, the one being read, and whether a quote is open. */
  datatype Scan = Scan(fields: seq<string>, current: string, inQuotes: bool)

  const EMPTY_SCAN := Scan([], "", false)

  function ScanChar(st: Scan, c: char): Scan {
    if c == '"' then st.(current := st.current + [c], inQuotes := !st.inQuotes)
    else if c == ',' && !st.inQuotes then Scan(st.fields + [st.current], "", false)
    else st.(current := st.current + [c])
  }

  function ScanFrom(st: Scan, s: string): Scan
    decreases s
  {
    if s == [] then st else ScanFrom(ScanChar(st, s[0]), s[1..])
  }

  lemma {:induction false} ScanJoins(st: Scan, a: string, b: string)
    ensures ScanFrom(st, a + b) == ScanFrom(ScanFrom(st, a), b)
    decreases a
  {
    if a == [] {
      assert a + b == b;
    } else {
      ScanJoins(ScanChar(st, a[0]), a[1..], b);
      assert (a + b)[1..] == a[1..] + b;
    }
  }

  type FloatParser = string -> Option<string>

  /** None: the slice arg[1:len(arg)-1] of a lone quote is out of range and panics. */
  function ParseArgValue(arg: string, parseFloat: FloatParser): Option<Value> {
    if arg == "\"" then None
    else if arg != [] && arg[0] == '"' && arg[|arg| - 1] == '"' then Some(Str(arg[1..|arg| - 1]))
    else if Atoi(arg).Some? then Some(Int(Atoi(arg).value))
    else if parseFloat(arg).Some? then Some(Float(parseFloat(arg).value))
    else if arg == "true" then Some(Bool(true))
    else if arg == "false" then Some(Bool(false))
    else Some(Str(arg))
  }

  /** The values of the fields that are not blank. */
  function Values(fields: seq<string>, parseFloat: FloatParser): Option<seq<Value>> {
    if fields == [] then Some([])
    else
      var n := |fields| - 1;
      var before := Values(fields[..n], parseFloat);
      var arg := Trim(fields[n]);
      if before.None? || arg == "" then before
      else
        var v := ParseArgValue(arg, parseFloat);
        if v.None? then None else Some(before.value + [v.value])
  }

  datatype ParseResult =
    | Parsed(name: string, args: seq<Value>)
    | NoParenthesis
    | EmptyName
    | UnknownFunction
    | BadEnd
    | Panics

  function Fields(argsText: string): seq<string> {
    var st := ScanFrom(EMPTY_SCAN, argsText);
    st.fields + [st.current]
  }

  function Name(command: string): string {
    Trim(command[..Index(command, '(')])
  }

  function ArgsText(command: string): string
    requires Index(command, '(') + 1 < |command|
  {
    Trim(command[Index(command, '(') + 1..|command| - 1])
  }

  /** The checks made before the arguments are read. */
  function Precheck(command: string, registered: set<string>): Option<ParseResult> {
    var p := Index(command, '(');
    if p == |command| then Some(NoParenthesis)
    else if Name(command) == "" then Some(EmptyName)
    else if Name(command) !in registered then Some(UnknownFunction)
    else if p + 1 >= |command| || command[|command| - 1] != ')' then Some(BadEnd)
    else None
  }

  function Parse(command: string, registered: set<string>, parseFloat: FloatParser): ParseResult {
    var refused := Precheck(command, registered);
    if refused.Some? then refused.value
    else if ArgsText(command) == "" then Parsed(Name(command), [])
    else
      var values := Values(Fields(ArgsText(command)), parseFloat);
      if values.None? then Panics else Parsed(Name(command), values.value)
  }

  lemma {:induction false} PanicStays(fields: seq<string>, more: seq<string>, parseFloat: FloatParser)
    requires Values(fields, parseFloat).None?
    ensures Values(fields + more, parseFloat).None?
  {
    if more == [] {
      assert fields + more == fields;
    } else {
      var n := |more| - 1;
      PanicStays(fields, more[..n], parseFloat);
      assert (fields + more)[..|fields + more| - 1] == fields + more[..n];
    }
  }

  lemma {:induction false} FieldsGrow(st: Scan, s: string)
    ensures st.fields <= ScanFrom(st, s).fields
    decreases s
  {
    if s != [] {
      FieldsGrow(ScanChar(st, s[0]), s[1..]);
    }
  }

  /** A panic on a finished field is a panic on the whole text. */
  lemma PanicInside(text: string, i: nat, fields: seq<string>, parseFloat: FloatParser)
    requires i <= |text| && ScanFrom(EMPTY_SCAN, text[..i]) == Scan(fields, "", false)
    requires Values(fields, parseFloat).None?
    ensures Values(Fields(text), parseFloat).None?
  {
    hide Values;
    assert text == text[..i] + text[i..];
    ScanJoins(EMPTY_SCAN, text[..i], text[i..]);
    FieldsGrow(Scan(fields, "", false), text[i..]);
    var all := Fields(text);
    assert all == fields + all[|fields|..];
    PanicStays(fields, all[|fields|..], parseFloat);
  }

  lemma ScanNext(text: string, i: nat)
    requires i < |text|
    ensures ScanFrom(EMPTY_SCAN, text[..i + 1]) == ScanChar(ScanFrom(EMPTY_SCAN, text[..i]), text[i])
  {
    assert text[..i + 1] == text[..i] + [text[i]];
    ScanJoins(EMPTY_SCAN, text[..i], [text[i]]);
    ScanNothing(ScanChar(ScanFrom(EMPTY_SCAN, text[..i]), text[i]));
  }

  lemma ScanNothing(st: Scan)
    ensures ScanFrom(st, "") == st
  {
  }

  /** The end of an argument: a blank one is skipped. */
  method FinishArg(ghost fields: seq<string>, current: string, args: seq<Value>, parseFloat: FloatParser)
    returns (ok: bool, args': seq<Value>)
    requires Values(fields, parseFloat) == Some(args)
    ensures Values(fields + [current], parseFloat) == if ok then Some(args') else None
  {
    hide Trim, ParseArgValue;
    assert (fields + [current])[..|fields|] == fields;
    ok, args' := true, args;
    var arg := Trim(current);
    if arg != "" {
      var parsed := ParseArgValue(arg, parseFloat);
      if parsed.None? {
        return false, args;
      }
      args' := args + [parsed.value];
    }
  }

  /** parseCommand, reading its arguments character by character. */
  method ParseCommand(command: string, registered: set<string>, parseFloat: FloatParser) returns (r: ParseResult)
    ensures r == Parse(command, registered, parseFloat)
  {
    hide Values, ScanFrom, ParseArgValue, Trim, ArgsText, Name, Index;
    var refused := Precheck(command, registered);
    if refused.Some? {
      return refused.value;
    }
    var argsStr := ArgsText(command);
    if argsStr == "" {
      return Parsed(Name(command), []);
    }
    var args: seq<Value> := [];
    var currentArg := "";
    var inQuotes := false;
    ghost var fields: seq<string> := [];
    ScanNothing(EMPTY_SCAN);
    NoValues(parseFloat);
    for i := 0 to |argsStr|
      invariant ScanFrom(EMPTY_SCAN, argsStr[..i]) == Scan(fields, currentArg, inQuotes)
      invariant Values(fields, parseFloat) == Some(args)
    {
      var ch := argsStr[i];
      ScanNext(argsStr, i);
      if ch == '"' {
        inQuotes := !inQuotes;
        currentArg := currentArg + [ch];
      } else if ch == ',' && !inQuotes {
        var ok;
        ok, args := FinishArg(fields, currentArg, args, parseFloat);
        fields := fields + [currentArg];
        currentArg := "";
        if !ok {
          PanicInside(argsStr, i + 1, fields, parseFloat);
          return Panics;
        }
      } else {
        currentArg := currentArg + [ch];
      }
    }
    assert argsStr[..|argsStr|] == argsStr;
    var ok;
    ok, args := FinishArg(fields, currentArg, args, parseFloat);
    r := if ok then Parsed(Name(command), args) else Panics;
  }

  lemma NoValues(parseFloat: FloatParser)
    ensures Values([], parseFloat) == Some([])
  {
  }

  // ---------------------------------------------------------------- round trip

  /** 64-bit integers, booleans, and strings without double quotes. */
  predicate Printable(v: Value) {
    match v
    case Int(i) => MIN_INT <= i <= MAX_INT
    case Bool(_) => true
    case Str(s) => '"' !in s
    case Float(_) => false
  }

  /** Neither word is a floating-point number. */
  predicate RejectsWords(parseFloat: FloatParser) {
    parseFloat("true").None? && parseFloat("false").None?
  }

  lemma ValueRoundTrip(v: Value, parseFloat: FloatParser)
    requires Printable(v) && RejectsWords(parseFloat)
    ensures Tight(PrintValue(v)) && ParseArgValue(PrintValue(v), parseFloat) == Some(v)
  {
    if v.Int? {
      AtoiReadsDecimal(v.i);
    } else if v.Str? {
      var p := PrintValue(v);
      assert p[0] == '"' && p[|p| - 1] == '"' && p[1..|p| - 1] == v.s;
    } else {
      assert PrintValue(v)[0] == if v.b then 't' else 'f';
    }
  }

  lemma {:induction false} ScanPlain(st: Scan, s: string)
    requires '"' !in s && (st.inQuotes || ',' !in s)
    ensures ScanFrom(st, s) == st.(current := st.current + s)
    decreases s
  {
    if s == [] {
      assert st.current + s == st.current;
    } else {
      ScanPlain(ScanChar(st, s[0]), s[1..]);
      assert st.current + [s[0]] + s[1..] == st.current + s;
    }
  }

  lemma ScanQuote(st: Scan)
    ensures ScanFrom(st, ['"']) == st.(current := st.current + ['"'], inQuotes := !st.inQuotes)
  {
    assert ['"'][1..] == [];
  }

  lemma ScanQuoted(st: Scan, s: string)
    requires '"' !in s && !st.inQuotes
    ensures ScanFrom(st, ['"'] + s + ['"']) == st.(current := st.current + (['"'] + s + ['"']))
  {
    hide ScanFrom, ScanChar;
    var inside := st.(current := st.current + ['"'], inQuotes := true);
    ScanQuote(st);
    ScanPlain(inside, s);
    ScanQuote(inside.(current := inside.current + s));
    ScanJoins(st, ['"'], s);
    ScanJoins(st, ['"'] + s, ['"']);
    assert st.current + ['"'] + s + ['"'] == st.current + (['"'] + s + ['"']);
  }

  /** A printed value is read into the current field whole. */
  lemma ScanValue(st: Scan, v: Value)
    requires Printable(v) && !st.inQuotes
    ensures ScanFrom(st, PrintValue(v)) == st.(current := st.current + PrintValue(v))
  {
    hide ScanFrom, ScanChar, Decimal;
    match v
    case Int(i) => AtoiReadsDecimal(i); ScanPlain(st, PrintValue(v));
    case Bool(_) => ScanPlain(st, PrintValue(v));
    case Str(s) => ScanQuoted(st, s);
  }

  /** The field that a printed argument is read into. */
  function FieldOf(args: seq<Value>, i: nat): string
    requires i < |args|
  {
    (if i == 0 then "" else " ") + PrintValue(args[i])
  }

  ghost predicate AllPrintable(args: seq<Value>) {
    forall i :: 0 <= i < |args| ==> Printable(args[i])
  }

  function PrintedFields(args: seq<Value>, k: nat): seq<string>
    requires k <= |args|
  {
    if k == 0 then [] else PrintedFields(args, k - 1) + [FieldOf(args, k - 1)]
  }

  lemma {:induction false} ScanPrinted(args: seq<Value>, k: nat)
    requires 0 < k <= |args| && AllPrintable(args)
    ensures ScanFrom(EMPTY_SCAN, PrintArgs(args[..k])) == Scan(PrintedFields(args, k - 1), FieldOf(args, k - 1), false)
  {
    hide PrintValue, Printable, Decimal, ScanChar;
    var n := k - 1;
    assert args[..k][..n] == args[..n];
    var value := PrintValue(args[n]);
    if n == 0 {
      ScanValue(EMPTY_SCAN, args[0]);
      assert PrintArgs(args[..k]) == value && "" + value == value;
    } else {
      ScanPrinted(args, n);
      ScanJoins(EMPTY_SCAN, PrintArgs(args[..n]), ", " + value);
      assert PrintArgs(args[..k]) == PrintArgs(args[..n]) + (", " + value);
      ScanSeparator(Scan(PrintedFields(args, n - 1), FieldOf(args, n - 1), false), args[n]);
    }
  }

  lemma ScanSeparator(st: Scan, v: Value)
    requires Printable(v) && !st.inQuotes
    ensures ScanFrom(st, ", " + PrintValue(v)) == Scan(st.fields + [st.current], " " + PrintValue(v), false)
  {
    ScanJoins(st, ", ", PrintValue(v));
    var closed := Scan(st.fields + [st.current], "", false);
    assert ScanFrom(st, ", ") == ScanFrom(closed, " ") by {
      assert ", "[1..] == " " && ScanChar(st, ',') == closed;
    }
    assert ScanFrom(closed, " ") == closed.(current := " ");
    ScanValue(closed.(current := " "), v);
  }

  lemma FieldRoundTrip(args: seq<Value>, i: nat, parseFloat: FloatParser)
    requires i < |args| && AllPrintable(args) && RejectsWords(parseFloat)
    ensures Trim(FieldOf(args, i)) != "" && ParseArgValue(Trim(FieldOf(args, i)), parseFloat) == Some(args[i])
  {
    var p := PrintValue(args[i]);
    ValueRoundTrip(args[i], parseFloat);
    TrimTight(p);
    assert FieldOf(args, i) == p || FieldOf(args, i) == [' '] + p;
  }

  lemma ValuesAddOne(fields: seq<string>, f: string, v: Value, before: seq<Value>, parseFloat: FloatParser)
    requires Values(fields, parseFloat) == Some(before)
    requires Trim(f) != "" && ParseArgValue(Trim(f), parseFloat) == Some(v)
    ensures Values(fields + [f], parseFloat) == Some(before + [v])
  {
    assert (fields + [f])[..|fields|] == fields;
  }

  lemma TakeOneMore<T>(s: seq<T>, k: nat)
    requires 0 < k <= |s|
    ensures s[..k] == s[..k - 1] + [s[k - 1]]
  {
  }

  lemma {:induction false} ValuesOfPrinted(args: seq<Value>, k: nat, parseFloat: FloatParser)
    requires k <= |args| && AllPrintable(args) && RejectsWords(parseFloat)
    ensures Values(PrintedFields(args, k), parseFloat) == Some(args[..k])
  {
    hide PrintValue, Printable, ParseArgValue, Trim, FieldOf;
    if k > 0 {
      var n := k - 1;
      TakeOneMore(args, k);
      FieldRoundTrip(args, n, parseFloat);
      ValuesOfPrinted(args, n, parseFloat);
      ValuesAddOne(PrintedFields(args, n), FieldOf(args, n), args[n], args[..n], parseFloat);
    }
  }

  lemma {:induction false} PrintedIsTight(args: seq<Value>, parseFloat: FloatParser)
    requires args != [] && AllPrintable(args) && RejectsWords(parseFloat)
    ensures Tight(PrintArgs(args))
  {
    var n := |args| - 1;
    ValueRoundTrip(args[n], parseFloat);
    if n > 0 {
      PrintedIsTight(args[..n], parseFloat);
    }
  }

  lemma IndexAfter(name: string, text: string)
    requires '(' !in name
    ensures Index(name + "(" + text + ")", '(') == |name|
  {
    var command := name + "(" + text + ")";
    assert command[|name|] == '(';
    assert forall i :: 0 <= i < |name| ==> command[i] == name[i] && name[i] in name;
  }

  /** The frame of a printed command is taken apart again. */
  lemma PrintedFrame(name: string, text: string, registered: set<string>)
    requires name in registered && Tight(name) && '(' !in name && (text == "" || Tight(text))
    ensures var command := name + "(" + text + ")";
            Precheck(command, registered) == None && Name(command) == name && ArgsText(command) == text
  {
    hide Index, Trim;
    var command := name + "(" + text + ")";
    IndexAfter(name, text);
    TrimTight(name);
    assert command[..|name|] == name && command[|name| + 1..|command| - 1] == text;
    if text == "" {
      TrimNothing();
    } else {
      TrimTight(text);
    }
  }

  lemma TrimNothing()
    ensures Trim("") == ""
  {
  }

  /** The arguments of a printed command are read back. */
  lemma PrintedArguments(args: seq<Value>, parseFloat: FloatParser)
    requires args != [] && AllPrintable(args) && RejectsWords(parseFloat)
    ensures Values(Fields(PrintArgs(args)), parseFloat) == Some(args)
  {
    hide PrintValue, Printable, ParseArgValue, Values, ScanFrom, PrintArgs;
    var k := |args|;
    assert args[..k] == args;
    ScanPrinted(args, k);
    ValuesOfPrinted(args, k, parseFloat);
  }

  /** Print then parse gives back the function and its arguments. */
  lemma PrintThenParse(name: string, args: seq<Value>, registered: set<string>, parseFloat: FloatParser)
    requires name in registered && Tight(name) && '(' !in name
    requires AllPrintable(args) && RejectsWords(parseFloat)
    ensures Parse(Print(name, args), registered, parseFloat) == Parsed(name, args)
  {
    hide PrintValue, Printable, ParseArgValue, Values, ScanFrom, Precheck, Name, ArgsText, Trim;
    if args == [] {
      PrintedFrame(name, "", registered);
    } else {
      PrintedIsTight(args, parseFloat);
      PrintedFrame(name, PrintArgs(args), registered);
      PrintedArguments(args, parseFloat);
    }
  }

  // ---------------------------------------------------------------- the panic

  function Quotes(s: string): nat {
    if s == [] then 0 else Quotes(s[..|s| - 1]) + (if s[|s| - 1] == '"' then 1 else 0)
  }

  lemma {:induction false} QuotesJoin(a: string, b: string)
    ensures Quotes(a + b) == Quotes(a) + Quotes(b)
  {
    if b == [] {
      assert a + b == a;
    } else {
      QuotesJoin(a, b[..|b| - 1]);
      assert (a + b)[..|a + b| - 1] == a + b[..|b| - 1];
    }
  }

  lemma {:induction false} TrimLeftKeepsQuotes(s: string)
    ensures Quotes(TrimLeft(s)) == Quotes(s)
  {
    if s != [] && IsSpace(s[0]) {
      TrimLeftKeepsQuotes(s[1..]);
      QuotesJoin([s[0]], s[1..]);
      assert s == [s[0]] + s[1..];
    }
  }

  lemma {:induction false} TrimRightKeepsQuotes(s: string)
    ensures Quotes(TrimRight(s)) == Quotes(s)
  {
    if s != [] && IsSpace(s[|s| - 1]) {
      TrimRightKeepsQuotes(s[..|s| - 1]);
    }
  }

  lemma TrimKeepsQuotes(s: string)
    ensures Quotes(Trim(s)) == Quotes(s)
  {
    TrimLeftKeepsQuotes(s);
    TrimRightKeepsQuotes(TrimLeft(s));
  }

  /** A finished field has an even number of quotes; the current one an odd number exactly
      while a quote is open. */
  predicate Balanced(st: Scan) {
    && (forall i :: 0 <= i < |st.fields| ==> Quotes(st.fields[i]) % 2 == 0)
    && (st.inQuotes <==> Quotes(st.current) % 2 == 1)
  }

  lemma CharKeepsBalance(st: Scan, c: char)
    requires Balanced(st)
    ensures Balanced(ScanChar(st, c))
  {
    assert (st.current + [c])[..|st.current|] == st.current;
  }

  lemma {:induction false} ScanKeepsBalance(st: Scan, s: string)
    requires Balanced(st)
    ensures Balanced(ScanFrom(st, s))
    decreases s
  {
    if s != [] {
      CharKeepsBalance(st, s[0]);
      ScanKeepsBalance(ScanChar(st, s[0]), s[1..]);
    }
  }

  lemma {:induction false} ValuesPanic(fields: seq<string>, parseFloat: FloatParser)
    ensures Values(fields, parseFloat).None? <==> exists i :: 0 <= i < |fields| && Trim(fields[i]) == "\""
  {
    hide Trim, Atoi;
    if fields != [] {
      var n := |fields| - 1;
      ValuesPanic(fields[..n], parseFloat);
      if i :| 0 <= i < n && Trim(fields[i]) == "\"" {
        assert fields[..n][i] == fields[i];
      }
    }
  }

  /** The parser panics exactly on a command that passes the checks and whose last argument,
      trimmed, is a lone quote. */
  lemma PanicsExactly(command: string, registered: set<string>, parseFloat: FloatParser)
    ensures Parse(command, registered, parseFloat) == Panics <==>
            && Precheck(command, registered).None?
            && Trim(ScanFrom(EMPTY_SCAN, ArgsText(command)).current) == "\""
  {
    hide Values, ScanFrom, ParseArgValue, ArgsText, Name, Trim, TrimLeft, TrimRight;
    if Precheck(command, registered).None? {
      var text := ArgsText(command);
      var st := ScanFrom(EMPTY_SCAN, text);
      TrimNothing();
      ScanNothing(EMPTY_SCAN);
      ScanKeepsBalance(EMPTY_SCAN, text);
      ValuesPanic(Fields(text), parseFloat);
      forall i | 0 <= i < |st.fields| ensures Trim(st.fields[i]) != "\"" {
        TrimKeepsQuotes(st.fields[i]);
        assert Quotes("\"") == 1;
      }
      assert Fields(text)[|st.fields|] == st.current;
    }
  }

  lemma LoneQuotePanics(parseFloat: FloatParser)
    ensures Parse("f" + "(" + "\"" + ")", {"f"}, parseFloat) == Panics
  {
    hide Parse, Precheck, Name, ArgsText, Trim, ScanFrom, Tight;
    TightText("f");
    TightText("\"");
    PrintedFrame("f", "\"", {"f"});
    ScanQuote(EMPTY_SCAN);
    assert EMPTY_SCAN.current + ['"'] == "\"";
    TrimTight("\"");
    PanicsExactly("f" + "(" + "\"" + ")", {"f"}, parseFloat);
  }

  lemma TightText(s: string)
    requires |s| == 1 && !IsSpace(s[0])
    ensures Tight(s)
  {
  }
}
