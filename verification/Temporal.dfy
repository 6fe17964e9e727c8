/** Temporal clauses, src/cypher/parser_temporal.cc: their text and the parser that reads it. */
module Temporal {
  import opened Decimal
  import opened Scanners
  import opened Wrappers

  datatype Function = Now | CurrentTimestamp | TransactionTime | ValidTime

  datatype Time =
    | Literal(value: nat)
    | Text(text: string)
    | Call(function_: Function)
    | Name(name: string)
    | Shift(left: Time, op: char, micros: int)
    | Unknown

  datatype Dimension = NoDimension | System | Valid

  /** An absent time is None. */
  datatype Clause =
    | AsOf(dimension: Dimension, time: Option<Time>)
    | AtTime(time: Option<Time>)
    | Between(dimension: Dimension, start: Time, end: Time)
    | FromTo(start: Time, end: Time)
    | ContainedIn(start: Time, end: Time)
    | During(start: Time, end: Time)
    | AllVersions
    | Version(number: Option<int>)

  // ---------------------------------------------------------------- text

  function FunctionText(f: Function): string {
    match f
    case Now => "now"
    case CurrentTimestamp => "current_timestamp"
    case TransactionTime => "transaction_time"
    case ValidTime => "valid_time"
  }

  function TimeText(t: Time): string {
    match t
    case Literal(n) => Numeral(n)
    case Text(s) => "'" + s + "'"
    case Call(f) => FunctionText(f) + "()"
    case Name(x) => x
    case Shift(left, op, n) => TimeText(left) + " " + [op] + " " + Signed(n) + "us"
    case Unknown => "null"
  }

  function OptionalText(t: Option<Time>): string { if t.Some? then TimeText(t.value) else "null" }

  function DimensionText(d: Dimension): string {
    match d
    case NoDimension => ""
    case System => "SYSTEM "
    case Valid => "VALID "
  }

  /** `CONTAINED IN` has a parser and no text of its own. */
  function ClauseText(c: Clause): string {
    match c
    case AsOf(d, t) => DimensionText(d) + "AS OF " + OptionalText(t)
    case AtTime(t) => "AT TIME " + OptionalText(t)
    case Between(d, a, b) => DimensionText(d) + "BETWEEN " + TimeText(a) + " AND " + TimeText(b)
    case FromTo(a, b) => "FROM " + TimeText(a) + " TO " + TimeText(b)
    case ContainedIn(_, _) => "(no temporal modifier)"
    case During(a, b) => "DURING PERIOD(" + TimeText(a) + ", " + TimeText(b) + ")"
    case AllVersions => "ALL VERSIONS"
    case Version(k) => "VERSION " + if k.Some? then Signed(k.value) else "null"
  }

  // ---------------------------------------------------------------- times

  function Unit(unit: string): int {
    if unit in {"d", "day", "days"} then 24 * 3600 * 1000000
    else if unit in {"h", "hour", "hours"} then 3600 * 1000000
    else if unit in {"m", "min", "minute", "minutes"} then 60 * 1000000
    else if unit in {"s", "sec", "second", "seconds"} then 1000000
    else if unit in {"ms", "millisecond", "milliseconds"} then 1000
    else 1
  }

  /** `now` and its like, with or without parentheses. */
  function Parens(c: Cursor): Cursor {
    if IsSymbol(c, '(') then Expect(Symbol(c, '('), ')') else Symbol(c, '(')
  }

  /** The argument of `timestamp`. */
  function Argument(c: Cursor): (Time, Cursor) {
    var p := Peek(c.rest);
    if p == '\'' || p == '"' then var (s, d) := StringLiteral(c); (Text(s), Expect(d, ')'))
    else if IsDigit(p) then var (n, d) := Integer(c); (Literal(Unsigned(n)), Expect(d, ')'))
    else var (x, d) := Identifier(c); (Name(x), Expect(d, ')'))
  }

  function QuotedArgument(c: Cursor): (Time, Cursor) {
    var (s, d) := StringLiteral(Expect(c, '('));
    (Text(s), Expect(d, ')'))
  }

  function Blank(c: Cursor): Cursor { c.(rest := Skip(c.rest)) }

  /** A number and its unit. The product wraps around like a 64-bit multiplication. */
  function Micros(c: Cursor): (int, Cursor) {
    var (n, e) := Integer(c);
    var (unit, g) := Identifier(Blank(e));
    (Wrapped(n * Unit(Lower(unit))), g)
  }

  /** A name, or a name and a duration. */
  function Arithmetic(x: string, c: Cursor): (Time, Cursor) {
    var b := Blank(c);
    var op := Peek(b.rest);
    if op != '-' && op != '+' then (Name(x), b)
    else
      var d := Blank(Advanced(b));
      if !IsDigit(Peek(d.rest)) then (Name(x), d)
      else var (n, e) := Micros(d); (Shift(Name(x), op, n), e)
  }

  /** Two's complement on 64 bits. */
  function Wrapped(n: int): int { (n + 0x8000_0000_0000_0000) % 0x1_0000_0000_0000_0000 - 0x8000_0000_0000_0000 }

  /** A timestamp is an unsigned word. */
  function Unsigned(n: int): nat { n % 0x1_0000_0000_0000_0000 }

  function Named(x: string, c: Cursor): (Time, Cursor) {
    var l := Lower(x);
    if l == "now" || l == "current_timestamp" then (Call(Now), Parens(Blank(c)))
    else if l == "transaction_time" then (Call(TransactionTime), Parens(Blank(c)))
    else if l == "valid_time" then (Call(ValidTime), Parens(Blank(c)))
    else if l == "timestamp" then Argument(Blank(Expect(Blank(c), '(')))
    else if l == "date" || l == "datetime" then QuotedArgument(Blank(c))
    else Arithmetic(x, c)
  }

  function ParseTime(c: Cursor): (Time, Cursor) {
    var b := Blank(c);
    var p := Peek(b.rest);
    if IsAlpha(p) then var (x, d) := Identifier(b); Named(x, d)
    else if p == '\'' || p == '"' then var (s, d) := StringLiteral(b); (Text(s), d)
    else if IsDigit(p) || p == '-' || p == '+' then var (n, d) := Integer(b); (Literal(Unsigned(n)), d)
    else (Unknown, b.(error := "Unknown timestamp expression type"))
  }

  // ---------------------------------------------------------------- clauses

  /** One keyword behind the other; a failure behind the first goes back to the start. */
  function Pair(c: Cursor, first: string, second: string): (bool, Cursor) {
    if !IsKeyword(c, first) then (false, Keyword(c, first))
    else
      var d := Blank(Keyword(c, first));
      if IsKeyword(d, second) then (true, Blank(Keyword(d, second))) else (false, c)
  }

  type Attempt = (Option<Clause>, Cursor)

  function AsOfClause(c: Cursor): Attempt {
    var (found, d) := Pair(c, "as", "of");
    if !found then (None, d) else var (t, e) := ParseTime(d); (Some(AsOf(NoDimension, Some(t))), e)
  }

  function AtTimeClause(c: Cursor): Attempt {
    var (found, d) := Pair(c, "at", "time");
    if !found then (None, d) else var (t, e) := ParseTime(d); (Some(AtTime(Some(t))), e)
  }

  function BetweenClause(c: Cursor): Attempt {
    if !IsKeyword(c, "between") then (None, Keyword(c, "between"))
    else
      var (a, d) := ParseTime(Blank(Keyword(c, "between")));
      if !IsKeyword(d, "and") then (None, Keyword(d, "and").(error := "Expected AND after BETWEEN start time"))
      else var (b, e) := ParseTime(Blank(Keyword(d, "and"))); (Some(Between(NoDimension, a, b)), e)
  }

  function FromToClause(c: Cursor): Attempt {
    if !IsKeyword(c, "from") then (None, Keyword(c, "from"))
    else
      var (a, d) := ParseTime(Blank(Keyword(c, "from")));
      if !IsKeyword(d, "to") then (None, Keyword(d, "to").(error := "Expected TO after FROM start time"))
      else var (b, e) := ParseTime(Blank(Keyword(d, "to"))); (Some(FromTo(a, b)), e)
  }

  /** Two times in parentheses; `what` is named in the errors. */
  function Period(c: Cursor, what: string): (Option<(Time, Time)>, Cursor) {
    if !IsSymbol(c, '(') then (None, Symbol(c, '(').(error := "Expected ( after " + what))
    else
      var (a, d) := ParseTime(Symbol(c, '('));
      if !IsSymbol(d, ',') then (None, Symbol(d, ',').(error := "Expected , between " + what + " times"))
      else
        var (b, e) := ParseTime(Blank(Symbol(d, ',')));
        if !IsSymbol(e, ')') then (None, Symbol(e, ')').(error := "Expected ) after " + what + " times"))
        else (Some((a, b)), Symbol(e, ')'))
  }

  function ContainedInClause(c: Cursor): Attempt {
    var (found, d) := Pair(c, "contained", "in");
    if !found then (None, d)
    else
      var (p, e) := Period(d, "CONTAINED IN");
      (if p.Some? then Some(ContainedIn(p.value.0, p.value.1)) else None, e)
  }

  function DuringClause(c: Cursor): Attempt {
    var (found, d) := Pair(c, "during", "period");
    if !found then (None, d)
    else
      var (p, e) := Period(d, "DURING PERIOD");
      (if p.Some? then Some(During(p.value.0, p.value.1)) else None, e)
  }

  /** Without the blanks behind the second keyword. */
  function AllVersionsClause(c: Cursor): Attempt {
    if !IsKeyword(c, "all") then (None, Keyword(c, "all"))
    else
      var d := Blank(Keyword(c, "all"));
      if IsKeyword(d, "versions") then (Some(AllVersions), Keyword(d, "versions")) else (None, c)
  }

  function VersionClause(c: Cursor): Attempt {
    if !IsKeyword(c, "version") then (None, Keyword(c, "version"))
    else
      var d := Blank(Keyword(c, "version"));
      if IsDigit(Peek(d.rest)) then var (n, e) := Integer(d); (Some(Version(Some(n))), e)
      else (None, d.(error := "Expected version number after VERSION"))
  }

  /** FIRST, LAST, PREV and NEXT. */
  function NavigationClause(c: Cursor): Attempt {
    if IsKeyword(c, "first") then (Some(AsOf(NoDimension, None)), Keyword(c, "first"))
    else if IsKeyword(c, "last") then (Some(AsOf(NoDimension, Some(Call(Now)))), Keyword(c, "last"))
    else if IsKeyword(c, "prev") then (Some(Version(None)), Keyword(c, "prev"))
    else if IsKeyword(c, "next") then (Some(Version(None)), Keyword(c, "next"))
    else (None, Blank(c))
  }

  function TimeOrAs(c: Cursor): (bool, Cursor) {
    if IsKeyword(c, "time") then (true, Keyword(c, "time"))
    else var d := Keyword(c, "time"); (IsKeyword(d, "as"), Keyword(d, "as"))
  }

  function DimensionRange(c: Cursor, dimension: Dimension): Attempt {
    if !IsKeyword(c, "between") then (None, Keyword(c, "between"))
    else
      var (a, d) := ParseTime(Keyword(c, "between"));
      var (b, e) := ParseTime(ExpectWord(d, "and"));
      (Some(Between(dimension, a, b)), e)
  }

  /** `SYSTEM` or `VALID` and then AS OF, TIME OF or BETWEEN. */
  function DimensionClause(c: Cursor, keyword: string, dimension: Dimension): Attempt {
    if !IsKeyword(c, keyword) then (None, Keyword(c, keyword))
    else
      var (found, d) := TimeOrAs(Blank(Keyword(c, keyword)));
      if !found then DimensionRange(d, dimension)
      else if IsKeyword(d, "of") then var (t, e) := ParseTime(Keyword(d, "of")); (Some(AsOf(dimension, Some(t))), e)
      else DimensionRange(Keyword(d, "of"), dimension)
  }

  /** The clauses in the order they are tried, each from where the one before gave up: the last three, */
  function LastThree(c: Cursor): Attempt {
    var a := NavigationClause(c);
    if a.0.Some? then a else
    var a := DimensionClause(a.1, "system", System);
    if a.0.Some? then a else
    DimensionClause(a.1, "valid", Valid)
  }

  /** the last five, */
  function LastFive(c: Cursor): Attempt {
    var a := AllVersionsClause(c);
    if a.0.Some? then a else
    var a := VersionClause(a.1);
    if a.0.Some? then a else
    LastThree(a.1)
  }

  /** those behind BETWEEN, */
  function AfterBetween(c: Cursor): Attempt {
    var a := FromToClause(c);
    if a.0.Some? then a else
    var a := ContainedInClause(a.1);
    if a.0.Some? then a else
    var a := DuringClause(a.1);
    if a.0.Some? then a else
    LastFive(a.1)
  }

  /** and all of them. */
  function ParseClause(c: Cursor): Attempt {
    var b := Blank(c);
    if b.rest == "" then (None, b)
    else
      var a := AsOfClause(b);
      if a.0.Some? then a else
      var a := AtTimeClause(a.1);
      if a.0.Some? then a else
      var a := BetweenClause(a.1);
      if a.0.Some? then a else
      AfterBetween(a.1)
  }
}
