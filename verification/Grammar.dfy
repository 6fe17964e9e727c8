/** What the expression parser of src/cypher/parser.cc makes of the input at a cursor.  None stands for a null
    pointer. */
module Grammar {
  import opened Decimal
  import opened Scanners
  import opened Syntax
  import opened Wrappers
  import E = Expressions
  import V = Values

  type Parsed = (Option<Expr>, Cursor)

  /** A parser never goes back and forgets no error; what it returns took at least one character, and if it returns
      nothing it says why. */
  predicate Took<T>(c: Cursor, r: (Option<T>, Cursor)) {
    && Onward(c, r.1)
    && (r.0.Some? ==> |r.1.rest| < |c.rest|)
    && (r.0.None? ==> r.1.error != "")
  }

  /** The same for what follows a first part: it need not take anything. */
  predicate Went<T>(c: Cursor, r: (Option<T>, Cursor)) {
    Onward(c, r.1) && (r.0.None? ==> r.1.error != "")
  }

  function Blank(c: Cursor): (d: Cursor)
    ensures Onward(c, d) && d.error == c.error
  {
    c.(rest := Skip(c.rest))
  }

  function Fail<T>(c: Cursor, message: string): (Option<T>, Cursor) { (None, c.(error := message)) }

  // ---------------------------------------------------------------- logic

  function Expression(c: Cursor): (r: Parsed)
    ensures Took(c, r)
    decreases |c.rest|, 10
  {
    var (left, d) := Conjunction(c);
    if left.None? then (None, d) else OrRest(d, left.value)
  }

  function OrRest(c: Cursor, left: Expr): (r: Parsed)
    ensures Went(c, r)
    decreases |c.rest|, 10
  {
    var d := Keyword(c, "or");
    if !IsKeyword(c, "or") then (Some(left), d)
    else
      var (right, e) := Conjunction(d);
      if right.None? then Fail(e, "Expected expression after OR") else OrRest(e, Or(left, right.value))
  }

  function Conjunction(c: Cursor): (r: Parsed)
    ensures Took(c, r)
    decreases |c.rest|, 9
  {
    var (left, d) := Compared(c);
    if left.None? then (None, d) else AndRest(d, left.value)
  }

  function AndRest(c: Cursor, left: Expr): (r: Parsed)
    ensures Went(c, r)
    decreases |c.rest|, 9
  {
    var d := Keyword(c, "and");
    if !IsKeyword(c, "and") then (Some(left), d)
    else
      var (right, e) := Compared(d);
      if right.None? then Fail(e, "Expected expression after AND") else AndRest(e, And(left, right.value))
  }

  // ---------------------------------------------------------------- comparison

  function Compared(c: Cursor): (r: Parsed)
    ensures Took(c, r)
    decreases |c.rest|, 8
  {
    var (left, d) := Sum(c);
    if left.None? then (None, d) else CompareRest(Blank(d), left.value)
  }

  /** The right side of a comparison. */
  function RightSide(c: Cursor, op: E.Op, left: Expr, symbol: string): (r: Parsed)
    ensures Went(c, r)
    decreases |c.rest|, 6
  {
    var (right, d) := Sum(c);
    if right.None? then Fail(d, "Expected expression after " + symbol) else (Some(Comparison(op, left, right.value)), d)
  }

  function CompareRest(c: Cursor, left: Expr): (r: Parsed)
    ensures Went(c, r)
    decreases |c.rest|, 8
  {
    var b := Symbol(c, '=');
    if IsSymbol(c, '=') then RightSide(b, E.EQ, left, "=")
    else if Peek(b.rest) == '<' then LessRest(Advanced(b), left)
    else if Peek(b.rest) == '>' then GreaterRest(Advanced(b), left)
    else WordRest(b, left)
  }

  function LessRest(c: Cursor, left: Expr): (r: Parsed)
    ensures Went(c, r)
    decreases |c.rest|, 7
  {
    if Peek(c.rest) == '>' then RightSide(Advanced(c), E.NE, left, "<>")
    else if Peek(c.rest) == '=' then RightSide(Advanced(c), E.LE, left, "<=")
    else RightSide(c, E.LT, left, "<")
  }

  function GreaterRest(c: Cursor, left: Expr): (r: Parsed)
    ensures Went(c, r)
    decreases |c.rest|, 7
  {
    if Peek(c.rest) == '=' then RightSide(Advanced(c), E.GE, left, ">=") else RightSide(c, E.GT, left, ">")
  }

  /** STARTS WITH, ENDS WITH, CONTAINS, IS NULL and IS NOT NULL. */
  function WordRest(c: Cursor, left: Expr): (r: Parsed)
    ensures Went(c, r)
    decreases |c.rest|, 7
  {
    if IsKeyword(c, "starts") then WithRest(Keyword(c, "starts"), "STARTS", left)
    else
      var c := Keyword(c, "starts");
      if IsKeyword(c, "ends") then WithRest(Keyword(c, "ends"), "ENDS", left)
      else
        var c := Keyword(c, "ends");
        if IsKeyword(c, "contains") then Matched(Keyword(c, "contains"), "CONTAINS", "CONTAINS", left)
        else
          var c := Keyword(c, "contains");
          if IsKeyword(c, "is") then NullTest(Keyword(c, "is"), left) else (Some(left), Keyword(c, "is"))
  }

  function WithRest(c: Cursor, word: string, left: Expr): (r: Parsed)
    ensures Went(c, r)
    decreases |c.rest|, 7
  {
    var d := Keyword(c, "with");
    if IsKeyword(c, "with") then Matched(d, word + "_WITH", word + " WITH", left)
        else Fail(d, "Expected WITH after " + word)
  }

  function Matched(c: Cursor, name: string, words: string, left: Expr): (r: Parsed)
    ensures Went(c, r)
    decreases |c.rest|, 6
  {
    var (right, d) := Sum(c);
    if right.None? then Fail(d, "Expected expression after " + words) else (Some(Call(name, [left, right.value])), d)
  }

  function NullTest(c: Cursor, left: Expr): (r: Parsed)
    ensures Went(c, r)
  {
    var d := Keyword(c, "not");
    var e := Keyword(d, "null");
    if !IsKeyword(d, "null") then Fail(e, "Expected NULL after IS")
    else (Some(Comparison(if IsKeyword(c, "not") then E.NE else E.EQ, left, Literal(V.Null))), e)
  }

  // ---------------------------------------------------------------- arithmetic

  function Sum(c: Cursor): (r: Parsed)
    ensures Took(c, r)
    decreases |c.rest|, 5
  {
    var (left, d) := Product(c);
    if left.None? then (None, d) else SumRest(d, left.value)
  }

  /** Plus or minus, if one is there. */
  function SumSign(c: Cursor): (r: (Option<char>, Cursor))
    ensures Onward(c, r.1) && (r.0.Some? ==> |r.1.rest| < |c.rest|)
  {
    var d := Symbol(c, '+');
    if IsSymbol(c, '+') then (Some('+'), d) else (if IsSymbol(d, '-') then Some('-') else None, Symbol(d, '-'))
  }

  function SumRest(c: Cursor, left: Expr): (r: Parsed)
    ensures Went(c, r)
    decreases |c.rest|, 5
  {
    var (sign, d) := SumSign(Blank(c));
    if sign.None? then (Some(left), d)
    else
      var (right, e) := Product(d);
      if right.None? then Fail(e, "Expected expression after " + [sign.value])
      else SumRest(e, Arithmetic(sign.value, left, right.value))
  }

  function Product(c: Cursor): (r: Parsed)
    ensures Took(c, r)
    decreases |c.rest|, 4
  {
    var (left, d) := Unary(c);
    if left.None? then (None, d) else ProductRest(d, left.value)
  }

  /** Times, divided by or modulo, if one is there. */
  function ProductSign(c: Cursor): (r: (Option<char>, Cursor))
    ensures Onward(c, r.1) && (r.0.Some? ==> |r.1.rest| < |c.rest|)
  {
    var d := Symbol(c, '*');
    if IsSymbol(c, '*') then (Some('*'), d)
    else
      var e := Symbol(d, '/');
      if IsSymbol(d, '/') then (Some('/'), e) else (if IsSymbol(e, '%') then Some('%') else None, Symbol(e, '%'))
  }

  function ProductRest(c: Cursor, left: Expr): (r: Parsed)
    ensures Went(c, r)
    decreases |c.rest|, 4
  {
    var (sign, d) := ProductSign(Blank(c));
    if sign.None? then (Some(left), d)
    else
      var (right, e) := Unary(d);
      if right.None? then Fail(e, "Expected expression after " + [sign.value])
      else ProductRest(e, Arithmetic(sign.value, left, right.value))
  }

  function Unary(c: Cursor): (r: Parsed)
    ensures Took(c, r)
    decreases |c.rest|, 3
  {
    var c := Blank(c);
    var d := Keyword(c, "not");
    if IsKeyword(c, "not") then
      var (e, f) := Unary(d);
      if e.None? then Fail(f, "Expected expression after NOT") else (Some(Not(e.value)), f)
    else
      var c := Symbol(d, '-');
      if IsSymbol(d, '-') then
        var (e, f) := Unary(c);
        if e.None? then Fail(f, "Expected expression after -")
            else (Some(Arithmetic('-', Literal(V.Int(0)), e.value)), f)
      else if IsSymbol(c, '+') then Unary(Symbol(c, '+'))
      else Primary(Symbol(c, '+'))
  }

  // ---------------------------------------------------------------- primaries

  function Primary(c: Cursor): (r: Parsed)
    ensures Took(c, r)
    decreases |c.rest|, 2
  {
    var c := Blank(c);
    var d := Symbol(c, '(');
    if IsSymbol(c, '(') then Grouped(d)
    else
      var c := Symbol(d, '[');
      if IsSymbol(d, '[') then List(Blank(c))
      else
        var d := Symbol(c, '$');
        if IsSymbol(c, '$') then
          var (name, e) := Identifier(d);
          if name == "" then Fail(e, "Expected parameter name after $") else (Some(Parameter(name)), e)
        else Atom(d)
  }

  /** The elements of a list literal and its end. */
  function List(c: Cursor): (r: Parsed)
    ensures Went(c, r)
    decreases |c.rest|, 12
  {
    var d := Symbol(c, ']');
    if IsSymbol(c, ']') then (Some(Listed([])), d)
    else
      var (items, e) := Sequence(d, ']', "Expected expression in list literal", []);
      (if items.Some? then Some(Listed(items.value)) else None, e)
  }

  function Grouped(c: Cursor): (r: Parsed)
    ensures Went(c, r)
    decreases |c.rest|, 11
  {
    var (e, d) := Expression(c);
    if e.None? then (None, d) else (if IsSymbol(d, ')') then e else None, Expect(d, ')'))
  }

  /** Expressions with commas up to a closing symbol. */
  function Sequence(c: Cursor, close: char, message: string, done: seq<Expr>): (r: (Option<seq<Expr>>, Cursor))
    requires message != ""
    ensures Went(c, r)
    decreases |c.rest|, 11
  {
    var (e, d) := Expression(c);
    if e.None? then Fail(d, message)
    else
      var all := done + [e.value];
      var f := Symbol(d, close);
      if IsSymbol(d, close) then (Some(all), f)
      else if IsSymbol(f, ',') then Sequence(Expect(f, ','), close, message, all)
      else (None, Expect(f, ','))
  }

  /** Literals and names; the blanks in front are gone. */
  function Atom(c: Cursor): (r: Parsed)
    ensures Took(c, r)
    decreases |c.rest|, 1
  {
    var p := Peek(c.rest);
    if p == '\'' || p == '"' then
      SkipNothingFront(c.rest);
      var (s, d) := StringLiteral(c);
      (Some(Literal(V.Str(s))), d)
    else if IsDigit(p) || (p == '-' && IsDigit(Peek(c.rest[1..]))) then NumberLiteral(c)
    else
      var d := Keyword(c, "true");
      if IsKeyword(c, "true") then (Some(Literal(V.Bool(true))), d)
      else
        var c := Keyword(d, "false");
        if IsKeyword(d, "false") then (Some(Literal(V.Bool(false))), c)
        else
          var d := Keyword(c, "null");
          if IsKeyword(c, "null") then (Some(Literal(V.Null)), d) else Named(d)
  }

  /** A variable, a property, a subscript or a call. */
  function Named(c: Cursor): (r: Parsed)
    ensures Took(c, r)
    decreases |c.rest|, 0
  {
    var (ident, d) := Identifier(c);
    if ident == "" then Fail(d, "Unexpected token in expression")
    else
      var (e, f) := Postfix(d, ident, Variable(ident));
      if e.None? then (None, f) else Invoked(f, ident, e.value)
  }

  lemma SkipNothingFront(s: string)
    requires Peek(s) in {'\'', '"'}
    ensures Skip(s) == s
  {
  }

  /** The digits behind a decimal point, as numerator and denominator. */
  function Fraction(s: string, numerator: nat, denominator: nat): (r: (nat, nat, string))
    ensures |r.2| <= |s|
  {
    if s == "" || !IsDigit(s[0]) then (numerator, denominator, s)
    else Fraction(s[1..], numerator * 10 + DigitValue(s[0]), denominator * 10)
  }

  /** An integer, or a decimal, or null with an error if the integer does not fit. */
  function NumberLiteral(c: Cursor): (r: Parsed)
    requires IsDigit(Peek(c.rest)) || (Peek(c.rest) == '-' && IsDigit(Peek(c.rest[1..])))
    ensures Took(c, r)
  {
    var negative := Peek(c.rest) == '-';
    var (n, after) := Digits(if negative then c.rest[1..] else c.rest, 0);
    if n.None? then (Some(Literal(V.Null)), Cursor(after, "Integer literal overflow"))
    else if Peek(after) == '.' then
      var (a, b, rest) := Fraction(after[1..], 0, 1);
      (Some(Literal(DecimalValue(negative, n.value, a, b))), c.(rest := rest))
    else (Some(Literal(V.Int(if negative then -(n.value as int) else n.value))), c.(rest := after))
  }

  /** n + a / b, or less than zero by as much. */
  function DecimalValue(negative: bool, n: nat, a: nat, b: nat): V.Value {
    var x := if b == 0 then n as real else n as real + a as real / b as real;
    V.Float(V.Finite(if negative then -x else x))
  }

  /** Properties and subscripts behind a name. */
  function Postfix(c: Cursor, ident: string, e: Expr): (r: Parsed)
    ensures Went(c, r)
    decreases |c.rest|, 11
  {
    var c := Blank(c);
    var d := Symbol(c, '.');
    if IsSymbol(c, '.') then
      var (property, f) := Identifier(d);
      if property == "" then Fail(f, "Expected property name after .")
      else Postfix(f, ident, Property(if e.Variable? then e.name else if e.Property? then e.variable else ident,
          property))
    else if IsSymbol(d, '[') then
      var (index, f) := Expression(Symbol(d, '['));
      if index.None? then Fail(f, "Expected expression after [")
      else if !IsSymbol(f, ']') then (None, Expect(f, ']'))
      else Postfix(Expect(f, ']'), ident, Call("element_at", [e, index.value]))
    else (Some(e), Symbol(d, '['))
  }

  /** A call of the name, whatever stood between it and the parenthesis. */
  function Invoked(c: Cursor, ident: string, e: Expr): (r: Parsed)
    ensures Went(c, r)
    decreases |c.rest|, 12
  {
    var c := Blank(c);
    var d := Symbol(c, '(');
    if !IsSymbol(c, '(') then (Some(e), d)
    else
      var f := Symbol(d, ')');
      if IsSymbol(d, ')') then (Some(Call(ident, [])), f)
      else
        var (arguments, g) := Sequence(f, ')', "Expected argument in function call", []);
        (if arguments.Some? then Some(Call(ident, arguments.value)) else None, g)
  }
}
