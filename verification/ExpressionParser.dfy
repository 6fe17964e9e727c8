/** The expression parsers of src/cypher/parser.cc as they move along the input. */
module ExpressionParser {
  import opened Decimal
  import opened Grammar
  import opened Scanners
  import opened Syntax
  import opened Wrappers
  import E = Expressions
  import V = Values

  method ParseExpression(p: Scanner) returns (e: Option<Expr>)
    requires p.Valid()
    modifies p
    ensures p.Valid() && (e, p.View()) == old(Expression(p.View()))
    ensures old(p.pos) <= p.pos && (e.Some? ==> old(p.pos) < p.pos)
    decreases |p.input| - p.pos, 10
  {
    ghost var c := p.View();
    e := ParseAndExpression(p);
    if e.None? { return; }
    while true
      invariant p.Valid() && e.Some? && |p.View().rest| < |c.rest| && OrRest(p.View(), e.value) == Expression(c)
      decreases |p.input| - p.pos
    {
      var found := p.MatchKeyword("or");
      if !found { return; }
      var right := ParseAndExpression(p);
      if right.None? {
        p.error := "Expected expression after OR";
        return None;
      }
      e := Some(Or(e.value, right.value));
    }
  }

  method ParseAndExpression(p: Scanner) returns (e: Option<Expr>)
    requires p.Valid()
    modifies p
    ensures p.Valid() && (e, p.View()) == old(Conjunction(p.View()))
    decreases |p.input| - p.pos, 9
  {
    ghost var c := p.View();
    e := ParseComparisonExpression(p);
    if e.None? { return; }
    while true
      invariant p.Valid() && e.Some? && |p.View().rest| < |c.rest| && AndRest(p.View(), e.value) == Conjunction(c)
      decreases |p.input| - p.pos
    {
      var found := p.MatchKeyword("and");
      if !found { return; }
      var right := ParseComparisonExpression(p);
      if right.None? {
        p.error := "Expected expression after AND";
        return None;
      }
      e := Some(And(e.value, right.value));
    }
  }

  method ParseRightSide(p: Scanner, op: E.Op, left: Expr, symbol: string) returns (e: Option<Expr>)
    requires p.Valid()
    modifies p
    ensures p.Valid() && (e, p.View()) == old(RightSide(p.View(), op, left, symbol))
    decreases |p.input| - p.pos, 6
  {
    e := ParseAdditiveExpression(p);
    if e.None? {
      p.error := "Expected expression after " + symbol;
    } else {
      e := Some(Comparison(op, left, e.value));
    }
  }

  method ParseMatched(p: Scanner, name: string, words: string, left: Expr) returns (e: Option<Expr>)
    requires p.Valid()
    modifies p
    ensures p.Valid() && (e, p.View()) == old(Matched(p.View(), name, words, left))
    decreases |p.input| - p.pos, 6
  {
    e := ParseAdditiveExpression(p);
    if e.None? {
      p.error := "Expected expression after " + words;
    } else {
      e := Some(Call(name, [left, e.value]));
    }
  }

  method ParseLess(p: Scanner, left: Expr) returns (e: Option<Expr>)
    requires p.Valid()
    modifies p
    ensures p.Valid() && (e, p.View()) == old(LessRest(p.View(), left))
    decreases |p.input| - p.pos, 7
  {
    if p.Next() == '>' {
      p.Advance();
      e := ParseRightSide(p, E.NE, left, "<>");
    } else if p.Next() == '=' {
      p.Advance();
      e := ParseRightSide(p, E.LE, left, "<=");
    } else {
      e := ParseRightSide(p, E.LT, left, "<");
    }
  }

  method ParseGreater(p: Scanner, left: Expr) returns (e: Option<Expr>)
    requires p.Valid()
    modifies p
    ensures p.Valid() && (e, p.View()) == old(GreaterRest(p.View(), left))
    decreases |p.input| - p.pos, 7
  {
    if p.Next() == '=' {
      p.Advance();
      e := ParseRightSide(p, E.GE, left, ">=");
    } else {
      e := ParseRightSide(p, E.GT, left, ">");
    }
  }

  method ParseWith(p: Scanner, word: string, left: Expr) returns (e: Option<Expr>)
    requires p.Valid()
    modifies p
    ensures p.Valid() && (e, p.View()) == old(WithRest(p.View(), word, left))
    decreases |p.input| - p.pos, 7
  {
    var found := p.MatchKeyword("with");
    if !found {
      p.error := "Expected WITH after " + word;
      return None;
    }
    e := ParseMatched(p, word + "_WITH", word + " WITH", left);
  }

  method ParseNullTest(p: Scanner, left: Expr) returns (e: Option<Expr>)
    requires p.Valid()
    modifies p
    ensures p.Valid() && (e, p.View()) == old(NullTest(p.View(), left))
  {
    var negated := p.MatchKeyword("not");
    var found := p.MatchKeyword("null");
    if !found {
      p.error := "Expected NULL after IS";
      return None;
    }
    e := Some(Comparison(if negated then E.NE else E.EQ, left, Literal(V.Null)));
  }

  method ParseWordTest(p: Scanner, left: Expr) returns (e: Option<Expr>)
    requires p.Valid()
    modifies p
    ensures p.Valid() && (e, p.View()) == old(WordRest(p.View(), left))
    decreases |p.input| - p.pos, 7
  {
    var found := p.MatchKeyword("starts");
    if found {
      e := ParseWith(p, "STARTS", left);
      return;
    }
    found := p.MatchKeyword("ends");
    if found {
      e := ParseWith(p, "ENDS", left);
      return;
    }
    found := p.MatchKeyword("contains");
    if found {
      e := ParseMatched(p, "CONTAINS", "CONTAINS", left);
      return;
    }
    found := p.MatchKeyword("is");
    if found {
      e := ParseNullTest(p, left);
      return;
    }
    e := Some(left);
  }

  method ParseComparisonExpression(p: Scanner) returns (e: Option<Expr>)
    requires p.Valid()
    modifies p
    ensures p.Valid() && (e, p.View()) == old(Compared(p.View()))
    decreases |p.input| - p.pos, 8
  {
    e := ParseAdditiveExpression(p);
    if e.None? { return; }
    var left := e.value;
    p.SkipBlanks();
    var found := p.MatchSymbol('=');
    if found {
      e := ParseRightSide(p, E.EQ, left, "=");
    } else if p.Next() == '<' {
      p.Advance();
      e := ParseLess(p, left);
    } else if p.Next() == '>' {
      p.Advance();
      e := ParseGreater(p, left);
    } else {
      e := ParseWordTest(p, left);
    }
  }

  method ParseAdditiveExpression(p: Scanner) returns (e: Option<Expr>)
    requires p.Valid()
    modifies p
    ensures p.Valid() && (e, p.View()) == old(Sum(p.View()))
    decreases |p.input| - p.pos, 5
  {
    ghost var c := p.View();
    e := ParseMultiplicativeExpression(p);
    if e.None? { return; }
    while true
      invariant p.Valid() && e.Some? && |p.View().rest| < |c.rest| && SumRest(p.View(), e.value) == Sum(c)
      decreases |p.input| - p.pos
    {
      p.SkipBlanks();
      var sign := MatchSumSign(p);
      if sign.None? { return; }
      var right := ParseMultiplicativeExpression(p);
      if right.None? {
        p.error := "Expected expression after " + [sign.value];
        return None;
      }
      e := Some(Arithmetic(sign.value, e.value, right.value));
    }
  }

  method ParseMultiplicativeExpression(p: Scanner) returns (e: Option<Expr>)
    requires p.Valid()
    modifies p
    ensures p.Valid() && (e, p.View()) == old(Product(p.View()))
    decreases |p.input| - p.pos, 4
  {
    ghost var c := p.View();
    e := ParseUnaryExpression(p);
    if e.None? { return; }
    while true
      invariant p.Valid() && e.Some? && |p.View().rest| < |c.rest| && ProductRest(p.View(), e.value) == Product(c)
      decreases |p.input| - p.pos
    {
      p.SkipBlanks();
      var sign := MatchProductSign(p);
      if sign.None? { return; }
      var right := ParseUnaryExpression(p);
      if right.None? {
        p.error := "Expected expression after " + [sign.value];
        return None;
      }
      e := Some(Arithmetic(sign.value, e.value, right.value));
    }
  }

  method MatchSumSign(p: Scanner) returns (sign: Option<char>)
    requires p.Valid()
    modifies p
    ensures p.Valid() && (sign, p.View()) == old(SumSign(p.View()))
  {
    var found := p.MatchSymbol('+');
    if found { return Some('+'); }
    found := p.MatchSymbol('-');
    sign := if found then Some('-') else None;
  }

  method MatchProductSign(p: Scanner) returns (sign: Option<char>)
    requires p.Valid()
    modifies p
    ensures p.Valid() && (sign, p.View()) == old(ProductSign(p.View()))
  {
    var found := p.MatchSymbol('*');
    if found { return Some('*'); }
    found := p.MatchSymbol('/');
    if found { return Some('/'); }
    found := p.MatchSymbol('%');
    sign := if found then Some('%') else None;
  }

  method ParseUnaryExpression(p: Scanner) returns (e: Option<Expr>)
    requires p.Valid()
    modifies p
    ensures p.Valid() && (e, p.View()) == old(Unary(p.View()))
    decreases |p.input| - p.pos, 3
  {
    p.SkipBlanks();
    var found := p.MatchKeyword("not");
    if found {
      e := ParseUnaryExpression(p);
      if e.None? { p.error := "Expected expression after NOT"; } else { e := Some(Not(e.value)); }
      return;
    }
    found := p.MatchSymbol('-');
    if found {
      e := ParseUnaryExpression(p);
      if e.None? {
        p.error := "Expected expression after -";
      } else {
        e := Some(Arithmetic('-', Literal(V.Int(0)), e.value));
      }
      return;
    }
    found := p.MatchSymbol('+');
    if found {
      e := ParseUnaryExpression(p);
    } else {
      e := ParsePrimaryExpression(p);
    }
  }

  method ParsePrimaryExpression(p: Scanner) returns (e: Option<Expr>)
    requires p.Valid()
    modifies p
    ensures p.Valid() && (e, p.View()) == old(Primary(p.View()))
    decreases |p.input| - p.pos, 2
  {
    p.SkipBlanks();
    var found := p.MatchSymbol('(');
    if found {
      e := ParseGroup(p);
      return;
    }
    found := p.MatchSymbol('[');
    if found {
      p.SkipBlanks();
      e := ParseList(p);
      return;
    }
    found := p.MatchSymbol('$');
    if found {
      var name := p.ParseIdentifier();
      if name == "" {
        p.error := "Expected parameter name after $";
        return None;
      }
      return Some(Parameter(name));
    }
    e := ParseAtom(p);
  }

  method ParseGroup(p: Scanner) returns (e: Option<Expr>)
    requires p.Valid()
    modifies p
    ensures p.Valid() && (e, p.View()) == old(Grouped(p.View()))
    decreases |p.input| - p.pos, 11
  {
    e := ParseExpression(p);
    if e.None? { return; }
    var found := ExpectedSymbol(p, ')');
    if !found { e := None; }
  }

  method ParseList(p: Scanner) returns (e: Option<Expr>)
    requires p.Valid()
    modifies p
    ensures p.Valid() && (e, p.View()) == old(List(p.View()))
    decreases |p.input| - p.pos, 12
  {
    var found := p.MatchSymbol(']');
    if found { return Some(Listed([])); }
    var items := ParseSequence(p, ']', "Expected expression in list literal");
    e := if items.Some? then Some(Listed(items.value)) else None;
  }

  /** `ExpectSymbol` and its answer. */
  method ExpectedSymbol(p: Scanner, symbol: char) returns (found: bool)
    requires p.Valid()
    modifies p
    ensures p.Valid() && found == old(IsSymbol(p.View(), symbol)) && p.View() == old(Expect(p.View(), symbol))
  {
    found := p.MatchSymbol(symbol);
    if !found { p.error := "Expected symbol: " + [symbol]; }
  }

  method ParseSequence(p: Scanner, close: char, message: string) returns (all: Option<seq<Expr>>)
    requires p.Valid() && message != ""
    modifies p
    ensures p.Valid() && (all, p.View()) == old(Sequence(p.View(), close, message, []))
    decreases |p.input| - p.pos, 11
  {
    ghost var c := p.View();
    var done: seq<Expr> := [];
    while true
      invariant p.Valid() && |p.View().rest| <= |c.rest|
      invariant Sequence(p.View(), close, message, done) == Sequence(c, close, message, [])
      decreases |p.input| - p.pos
    {
      var e := ParseExpression(p);
      if e.None? {
        p.error := message;
        return None;
      }
      done := done + [e.value];
      var found := p.MatchSymbol(close);
      if found { return Some(done); }
      found := ExpectedSymbol(p, ',');
      if !found { return None; }
    }
  }

  method ParseFraction(p: Scanner) returns (a: nat, b: nat)
    requires p.Valid()
    modifies p
    ensures p.Valid() && p.error == old(p.error) && (a, b, p.View().rest) == old(Fraction(p.View().rest, 0, 1))
  {
    a, b := 0, 1;
    while p.pos < |p.input| && IsDigit(p.input[p.pos])
      invariant p.Valid() && p.error == old(p.error)
      invariant Fraction(p.View().rest, a, b) == old(Fraction(p.View().rest, 0, 1))
      decreases |p.input| - p.pos
    {
      a, b := a * 10 + DigitValue(p.input[p.pos]), b * 10;
      p.pos := p.pos + 1;
    }
  }

  method ParseNumber(p: Scanner) returns (e: Option<Expr>)
    requires p.Valid()
    requires IsDigit(Peek(p.View().rest)) || (Peek(p.View().rest) == '-' && IsDigit(Peek(p.View().rest[1..])))
    modifies p
    ensures p.Valid() && (e, p.View()) == old(NumberLiteral(p.View()))
  {
    var negative := p.Next() == '-';
    if negative { p.Advance(); }
    var value;
    value, p.pos := ReadDigits(p.input, p.pos);
    if value.None? {
      p.error := "Integer literal overflow";
      return Some(Literal(V.Null));
    }
    if p.Next() == '.' {
      p.Advance();
      var a, b := ParseFraction(p);
      return Some(Literal(DecimalValue(negative, value.value, a, b)));
    }
    var n: int := value.value;
    e := Some(Literal(V.Int(if negative then -n else n)));
  }

  method ParseAtom(p: Scanner) returns (e: Option<Expr>)
    requires p.Valid()
    modifies p
    ensures p.Valid() && (e, p.View()) == old(Atom(p.View()))
    decreases |p.input| - p.pos, 1
  {
    var c := p.Next();
    if c == '\'' || c == '"' {
      var s := p.ParseStringLiteral();
      return Some(Literal(V.Str(s)));
    }
    if IsDigit(c) || (c == '-' && p.pos + 1 < |p.input| && IsDigit(p.input[p.pos + 1])) {
      e := ParseNumber(p);
      return;
    }
    var found := p.MatchKeyword("true");
    if found { return Some(Literal(V.Bool(true))); }
    found := p.MatchKeyword("false");
    if found { return Some(Literal(V.Bool(false))); }
    found := p.MatchKeyword("null");
    if found { return Some(Literal(V.Null)); }
    e := ParseNamed(p);
  }

  method ParseNamed(p: Scanner) returns (e: Option<Expr>)
    requires p.Valid()
    modifies p
    ensures p.Valid() && (e, p.View()) == old(Named(p.View()))
    decreases |p.input| - p.pos, 0
  {
    var ident := p.ParseIdentifier();
    if ident == "" {
      p.error := "Unexpected token in expression";
      return None;
    }
    e := ParsePostfix(p, ident);
    if e.Some? { e := ParseInvoked(p, ident, e.value); }
  }

  method ParsePostfix(p: Scanner, ident: string) returns (r: Option<Expr>)
    requires p.Valid()
    modifies p
    ensures p.Valid() && (r, p.View()) == old(Postfix(p.View(), ident, Variable(ident)))
    decreases |p.input| - p.pos, 11
  {
    ghost var c := p.View();
    var e := Variable(ident);
    while true
      invariant p.Valid() && |p.View().rest| <= |c.rest| && Postfix(p.View(), ident, e)
                == Postfix(c, ident, Variable(ident))
      decreases |p.input| - p.pos
    {
      p.SkipBlanks();
      var found := p.MatchSymbol('.');
      if found {
        var property := p.ParseIdentifier();
        if property == "" {
          p.error := "Expected property name after .";
          return None;
        }
        e := Property(if e.Variable? then e.name else if e.Property? then e.variable else ident, property);
      } else {
        found := p.MatchSymbol('[');
        if !found { return Some(e); }
        var index := ParseExpression(p);
        if index.None? {
          p.error := "Expected expression after [";
          return None;
        }
        found := ExpectedSymbol(p, ']');
        if !found { return None; }
        e := Call("element_at", [e, index.value]);
      }
    }
  }

  method ParseInvoked(p: Scanner, ident: string, left: Expr) returns (e: Option<Expr>)
    requires p.Valid()
    modifies p
    ensures p.Valid() && (e, p.View()) == old(Invoked(p.View(), ident, left))
    decreases |p.input| - p.pos, 12
  {
    p.SkipBlanks();
    var found := p.MatchSymbol('(');
    if !found { return Some(left); }
    found := p.MatchSymbol(')');
    if found { return Some(Call(ident, [])); }
    var arguments := ParseSequence(p, ')', "Expected argument in function call");
    e := if arguments.Some? then Some(Call(ident, arguments.value)) else None;
  }
}
