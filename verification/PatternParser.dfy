/** The pattern and list parsers of src/cypher/parser.cc as they move along the input. */
module PatternParser {
  import opened Decimal
  import opened ExpressionParser
  import opened Queries
  import opened Scanners
  import opened Syntax
  import opened Wrappers

  method ParseLabels(p: Scanner) returns (done: seq<string>)
    requires p.Valid()
    modifies p
    ensures p.Valid() && (done, p.View()) == old(Labels(p.View(), []))
  {
    done := [];
    while true
      invariant p.Valid() && Labels(p.View(), done) == old(Labels(p.View(), []))
      decreases |p.input| - p.pos
    {
      var found := p.MatchSymbol(':');
      if !found { return; }
      var name := p.ParseIdentifier();
      if name != "" { done := done + [name]; }
    }
  }

  method ParseProperties(p: Scanner) returns (done: map<string, Expr>)
    requires p.Valid()
    modifies p
    ensures p.Valid() && (done, p.View()) == old(Properties(p.View(), map[]))
  {
    done := map[];
    while p.pos < |p.input| && p.input[p.pos] != '}'
      invariant p.Valid() && Properties(p.View(), done) == old(Properties(p.View(), map[]))
      decreases |p.input| - p.pos
    {
      p.SkipBlanks();
      var name := p.ParseIdentifier();
      if name == "" {
        p.error := "Expected property name in {";
        return;
      }
      p.SkipBlanks();
      var found := p.MatchSymbol(':');
      if !found {
        p.error := "Expected ':' after property name";
        return;
      }
      var value := ParseExpression(p);
      if value.None? {
        p.error := "Expected expression after ':' in property";
        return;
      }
      done := done[name := value.value];
      p.SkipBlanks();
      if p.Next() != ',' { return; }
      p.Advance();
    }
  }

  method ParseNode(p: Scanner) returns (node: Element)
    requires p.Valid()
    modifies p
    ensures p.Valid() && (node, p.View()) == old(NodeRest(p.View()))
  {
    p.SkipBlanks();
    var variable := p.ParseIdentifier();
    p.SkipBlanks();
    var labels := ParseLabels(p);
    p.SkipBlanks();
    var properties: map<string, Expr> := map[];
    var found := p.MatchSymbol('{');
    if found {
      properties := ParseProperties(p);
      p.ExpectSymbol('}');
    }
    p.ExpectSymbol(')');
    node := NodePattern(variable, labels, properties);
  }

  method ParseHops(p: Scanner) returns (n: Option<nat>)
    requires p.Valid()
    modifies p
    ensures p.Valid() && (n, p.View()) == old(OptionalHops(p.View()))
  {
    if !IsDigit(p.Next()) { return None; }
    var value: nat := 0;
    while p.pos < |p.input| && IsDigit(p.input[p.pos])
      invariant p.Valid() && p.error == old(p.error) && Hops(p.View().rest, value) == old(Hops(p.View().rest, 0))
      decreases |p.input| - p.pos
    {
      value := (value * 10 + DigitValue(p.input[p.pos])) % UINT64_SIZE;
      p.pos := p.pos + 1;
    }
    n := Some(value);
  }

  method ParseHopRange(p: Scanner) returns (low: Option<nat>, high: Option<nat>)
    requires p.Valid()
    modifies p
    ensures p.Valid() && (low, high, p.View()) == old(HopRange(p.View()))
  {
    high := None;
    p.SkipBlanks();
    low := ParseHops(p);
    p.SkipBlanks();
    var found := p.MatchSymbol('.');
    if found { found := p.MatchSymbol('.'); }
    if found {
      p.SkipBlanks();
      high := ParseHops(p);
    }
  }

  method ReadDigitRun(input: string, from: nat) returns (end: nat)
    requires from <= |input|
    ensures end == from + DigitCount(input[from..]) && end <= |input|
  {
    end := from;
    while end < |input| && IsDigit(input[end])
      invariant from <= end <= |input| && end + DigitCount(input[end..]) == from + DigitCount(input[from..])
    {
      end := end + 1;
    }
  }

  method ParseTypeName(p: Scanner) returns (name: string)
    requires p.Valid()
    modifies p
    ensures p.Valid() && (name, p.View()) == old(TypeName(p.View()))
  {
    if IsDigit(p.Next()) {
      var end := ReadDigitRun(p.input, p.pos);
      Slices(p.input, p.pos, end);
      name, p.pos := p.input[p.pos..end], end;
    } else {
      name := p.ParseIdentifier();
    }
  }

  method ParseDetails(p: Scanner, incoming: bool) returns (rel: Element)
    requires p.Valid()
    modifies p
    ensures p.Valid() && (rel, p.View()) == old(Details(p.View(), incoming))
  {
    p.SkipBlanks();
    var variable := p.ParseIdentifier();
    p.SkipBlanks();
    var kind := "";
    var found := p.MatchSymbol(':');
    if found { kind := ParseTypeName(p); }
    p.SkipBlanks();
    var low: Option<nat>, high: Option<nat> := None, None;
    found := p.MatchSymbol('*');
    if found { low, high := ParseHopRange(p); }
    p.SkipBlanks();
    p.ExpectSymbol(']');
    rel := RelPattern(variable, incoming, if kind == "" then [] else [kind], low, high);
  }

  method ParseRelation(p: Scanner) returns (rel: Element)
    requires p.Valid() && Peek(p.View().rest) in {'-', '<'}
    modifies p
    ensures p.Valid() && (rel, p.View()) == old(Relation(p.View()))
  {
    var incoming := p.MatchSymbol('<');
    p.ExpectSymbol('-');
    var found := p.MatchSymbol('[');
    if found {
      rel := ParseDetails(p, incoming);
    } else {
      rel := RelPattern("", incoming, [], None, None);
    }
    if incoming {
      p.ExpectSymbol('-');
    } else {
      found := p.MatchSymbol('-');
      if found { found := p.MatchSymbol('>'); }
    }
  }

  method ParsePattern(p: Scanner) returns (path: Path)
    requires p.Valid()
    modifies p
    ensures p.Valid() && (path, p.View()) == old(Pattern(p.View()))
  {
    p.SkipBlanks();
    path := [];
    while p.pos < |p.input|
      invariant p.Valid() && Elements(p.View(), path) == old(Pattern(p.View()))
      decreases |p.input| - p.pos
    {
      var found := p.MatchSymbol('(');
      if found {
        var node := ParseNode(p);
        path := path + [node];
      }
      p.SkipBlanks();
      if p.Next() != '-' && p.Next() != '<' { return; }
      var rel := ParseRelation(p);
      path := path + [rel];
      p.SkipBlanks();
    }
  }

  /** The loop of MATCH, CREATE and MERGE. */
  method ParsePatterns(p: Scanner) returns (done: seq<Path>)
    requires p.Valid()
    modifies p
    ensures p.Valid() && (done, p.View()) == old(Patterns(p.View(), []))
  {
    done := [];
    while p.pos < |p.input|
      invariant p.Valid() && Patterns(p.View(), done) == old(Patterns(p.View(), []))
      decreases |p.input| - p.pos
    {
      var path := ParsePattern(p);
      if path != [] { done := done + [path]; }
      p.SkipBlanks();
      var found := p.MatchSymbol(',');
      if !found { return; }
    }
  }

  /** The loop of RETURN and WITH. */
  method ParseItems(p: Scanner, what: string) returns (done: seq<Item>)
    requires p.Valid()
    modifies p
    ensures p.Valid() && (done, p.View()) == old(Items(p.View(), what, []))
  {
    done := [];
    while p.pos < |p.input|
      invariant p.Valid() && Items(p.View(), what, done) == old(Items(p.View(), what, []))
      decreases |p.input| - p.pos
    {
      var e := ParseExpression(p);
      if e.None? {
        p.error := "Failed to parse " + what + " expression";
        return;
      }
      p.SkipBlanks();
      var alias := Alias(e.value);
      var found := p.MatchKeyword("as");
      if found {
        var name := p.ParseIdentifier();
        alias := Some(name);
      }
      done := done + [Item(e.value, alias)];
      p.SkipBlanks();
      found := p.MatchSymbol(',');
      if !found { return; }
    }
  }

  method ParseSortItems(p: Scanner) returns (done: seq<SortItem>)
    requires p.Valid()
    modifies p
    ensures p.Valid() && (done, p.View()) == old(SortItems(p.View(), []))
  {
    done := [];
    while p.pos < |p.input|
      invariant p.Valid() && SortItems(p.View(), done) == old(SortItems(p.View(), []))
      decreases |p.input| - p.pos
    {
      var e := ParseExpression(p);
      if e.None? {
        p.error := "Failed to parse ORDER BY expression";
        return;
      }
      p.SkipBlanks();
      var ascending := true;
      var found := p.MatchKeyword("asc");
      if !found {
        found := p.MatchKeyword("desc");
        ascending := !found;
      }
      done := done + [SortItem(e.value, ascending)];
      p.SkipBlanks();
      found := p.MatchSymbol(',');
      if !found { return; }
    }
  }

  method ParseSettings(p: Scanner) returns (all: Option<seq<(Expr, Expr)>>)
    requires p.Valid()
    modifies p
    ensures p.Valid() && (all, p.View()) == old(Settings(p.View(), []))
  {
    var done: seq<(Expr, Expr)> := [];
    while true
      invariant p.Valid() && Settings(p.View(), done) == old(Settings(p.View(), []))
      decreases |p.input| - p.pos
    {
      p.SkipBlanks();
      var target := ParsePrimaryExpression(p);
      if target.None? {
        p.error := "Expected target expression in SET clause";
        return None;
      }
      if !target.value.Variable? && !target.value.Property? {
        p.error := "SET target must be a variable or property access";
        return None;
      }
      p.SkipBlanks();
      var found := ExpectedSymbol(p, '=');
      if !found { return None; }
      var value := ParseExpression(p);
      if value.None? {
        p.error := "Expected expression after = in SET clause";
        return None;
      }
      done := done + [(target.value, value.value)];
      p.SkipBlanks();
      found := p.MatchSymbol(',');
      if !found { return Some(done); }
    }
  }

  method ParseNames(p: Scanner) returns (all: Option<seq<string>>)
    requires p.Valid()
    modifies p
    ensures p.Valid() && (all, p.View()) == old(Names(p.View(), []))
  {
    var done: seq<string> := [];
    while true
      invariant p.Valid() && Names(p.View(), done) == old(Names(p.View(), []))
      decreases |p.input| - p.pos
    {
      p.SkipBlanks();
      var name := p.ParseIdentifier();
      if name == "" {
        p.error := "Expected variable name in DELETE clause";
        return None;
      }
      done := done + [name];
      p.SkipBlanks();
      var found := p.MatchSymbol(',');
      if !found { return Some(done); }
    }
  }
}
