/** What the pattern, clause and statement parsers of src/cypher/parser.cc make of the input at a cursor. */
module Queries {
  import opened Decimal
  import opened Grammar
  import opened Scanners
  import opened Syntax
  import opened Wrappers

  const UINT64_SIZE: nat := 0x1_0000_0000_0000_0000

  // ---------------------------------------------------------------- patterns

  /** Labels behind colons; an empty one is dropped. */
  function Labels(c: Cursor, done: seq<string>): (r: (seq<string>, Cursor))
    ensures Onward(c, r.1)
    decreases |c.rest|
  {
    var d := Symbol(c, ':');
    if !IsSymbol(c, ':') then (done, d)
    else var (name, e) := Identifier(d); Labels(e, if name == "" then done else done + [name])
  }

  /** Properties up to a brace, or up to the first thing that is wrong. */
  function Properties(c: Cursor, done: map<string, Expr>): (r: (map<string, Expr>, Cursor))
    ensures Onward(c, r.1)
    decreases |c.rest|
  {
    if c.rest == "" || c.rest[0] == '}' then (done, c)
    else
      var (name, d) := Identifier(Blank(c));
      if name == "" then (done, d.(error := "Expected property name in {"))
      else
        var d := Blank(d);
        var e := Symbol(d, ':');
        if !IsSymbol(d, ':') then (done, e.(error := "Expected ':' after property name"))
        else
          var (value, f) := Expression(e);
          if value.None? then (done, f.(error := "Expected expression after ':' in property"))
          else
            var g := Blank(f);
            var more := done[name := value.value];
            if Peek(g.rest) == ',' then Properties(Advanced(g), more) else (more, g)
  }

  /** A node pattern behind its opening parenthesis. */
  function NodeRest(c: Cursor): (r: (Element, Cursor))
    ensures Onward(c, r.1)
  {
    var (variable, d) := Identifier(Blank(c));
    var (labels, e) := Labels(Blank(d), []);
    var e := Blank(e);
    var f := Symbol(e, '{');
    var (properties, g) := if IsSymbol(e, '{') then Properties(f, map[]) else (map[], f);
    var h := if IsSymbol(e, '{') then Expect(g, '}') else g;
    (NodePattern(variable, labels, properties), Expect(h, ')'))
  }

  /** Digits as an unsigned 64-bit number that wraps around. */
  function Hops(s: string, value: nat): (r: (nat, string))
    ensures |r.1| <= |s|
  {
    if s == "" || !IsDigit(s[0]) then (value, s) else Hops(s[1..], (value * 10 + DigitValue(s[0])) % UINT64_SIZE)
  }

  function OptionalHops(c: Cursor): (r: (Option<nat>, Cursor))
    ensures Onward(c, r.1)
  {
    if !IsDigit(Peek(c.rest)) then (None, c) else var (n, rest) := Hops(c.rest, 0); (Some(n), c.(rest := rest))
  }

  /** `*1..3` behind the star. */
  function HopRange(c: Cursor): (r: (Option<nat>, Option<nat>, Cursor))
    ensures Onward(c, r.2)
  {
    var (low, d) := OptionalHops(Blank(c));
    var d := Blank(d);
    var e := Symbol(d, '.');
    var f := if IsSymbol(d, '.') then Symbol(e, '.') else e;
    if !(IsSymbol(d, '.') && IsSymbol(e, '.')) then (low, None, f)
    else var (high, g) := OptionalHops(Blank(f)); (low, high, g)
  }

  /** A relationship type is a number or a name. */
  function TypeName(c: Cursor): (r: (string, Cursor))
    ensures Onward(c, r.1)
  {
    if IsDigit(Peek(c.rest)) then (c.rest[..DigitCount(c.rest)], c.(rest := c.rest[DigitCount(c.rest)..]))
        else Identifier(c)
  }

  /** The brackets of a relationship behind the opening one. */
  function Details(c: Cursor, incoming: bool): (r: (Element, Cursor))
    ensures Onward(c, r.1)
  {
    var (variable, d) := Identifier(Blank(c));
    var d := Blank(d);
    var e := Symbol(d, ':');
    var (kind, f) := if IsSymbol(d, ':') then TypeName(e) else ("", e);
    var f := Blank(f);
    var g := Symbol(f, '*');
    var (low, high, h) := if IsSymbol(f, '*') then HopRange(g) else (None, None, g);
    (RelPattern(variable, incoming, if kind == "" then [] else [kind], low, high), Expect(Blank(h), ']'))
  }

  /** A relationship pattern; its direction is that of its first arrow head. */
  function Relation(c: Cursor): (r: (Element, Cursor))
    requires Peek(c.rest) in {'-', '<'}
    ensures Onward(c, r.1) && |r.1.rest| < |c.rest|
  {
    FrontIsSymbol(c.rest);
    var incoming := IsSymbol(c, '<');
    var d := Expect(Symbol(c, '<'), '-');
    SkipTwice(c.rest);
    var e := Symbol(d, '[');
    var (rel, f) := if IsSymbol(d, '[') then Details(e, incoming) else (RelPattern("", incoming, [], None, None), e);
    if incoming then (rel, Expect(f, '-'))
    else
      var g := Symbol(f, '-');
      (rel, if IsSymbol(f, '-') then Symbol(g, '>') else g)
  }

  lemma FrontIsSymbol(s: string)
    requires Peek(s) in {'-', '<'}
    ensures s != "" && Skip(s) == s
  {
  }

  /** Nodes and relationships in turn, as long as there is a relationship. */
  function Elements(c: Cursor, done: Path): (r: (Path, Cursor))
    ensures Onward(c, r.1)
    decreases |c.rest|
  {
    if c.rest == "" then (done, c)
    else
      var d := Symbol(c, '(');
      var (node, e) := if IsSymbol(c, '(') then NodeRest(d) else (NodePattern("", [], map[]), d);
      var more := if IsSymbol(c, '(') then done + [node] else done;
      var e := Blank(e);
      if Peek(e.rest) == '-' || Peek(e.rest) == '<' then
        var (rel, f) := Relation(e);
        Elements(Blank(f), more + [rel])
      else (more, e)
  }

  function Pattern(c: Cursor): (r: (Path, Cursor))
    ensures Onward(c, r.1)
  {
    Elements(Blank(c), [])
  }

  /** Patterns with commas; an empty one is dropped. */
  function Patterns(c: Cursor, done: seq<Path>): (r: (seq<Path>, Cursor))
    ensures Onward(c, r.1)
    decreases |c.rest|
  {
    if c.rest == "" then (done, c)
    else
      var (path, d) := Pattern(c);
      var d := Blank(d);
      var e := Symbol(d, ',');
      var more := if path == [] then done else done + [path];
      if IsSymbol(d, ',') then Patterns(e, more) else (more, e)
  }

  // ---------------------------------------------------------------- lists of expressions

  function Alias(e: Expr): Option<string> {
    if e.Variable? then Some(e.name) else if e.Property? then Some(e.property) else None
  }

  /** The items of RETURN and WITH. */
  function Items(c: Cursor, what: string, done: seq<Item>): (r: (seq<Item>, Cursor))
    ensures Onward(c, r.1)
    decreases |c.rest|
  {
    if c.rest == "" then (done, c)
    else
      var (e, d) := Expression(c);
      if e.None? then (done, d.(error := "Failed to parse " + what + " expression"))
      else
        var d := Blank(d);
        var f := Keyword(d, "as");
        var (alias, g) := if IsKeyword(d, "as") then Identifier(f) else ("", f);
        var item := Item(e.value, if IsKeyword(d, "as") then Some(alias) else Alias(e.value));
        var g := Blank(g);
        var h := Symbol(g, ',');
        if IsSymbol(g, ',') then Items(h, what, done + [item]) else (done + [item], h)
  }

  function SortItems(c: Cursor, done: seq<SortItem>): (r: (seq<SortItem>, Cursor))
    ensures Onward(c, r.1)
    decreases |c.rest|
  {
    if c.rest == "" then (done, c)
    else
      var (e, d) := Expression(c);
      if e.None? then (done, d.(error := "Failed to parse ORDER BY expression"))
      else
        var d := Blank(d);
        var f := Keyword(d, "asc");
        var g := if IsKeyword(d, "asc") then f else Keyword(f, "desc");
        var item := SortItem(e.value, IsKeyword(d, "asc") || !IsKeyword(f, "desc"));
        var g := Blank(g);
        var h := Symbol(g, ',');
        if IsSymbol(g, ',') then SortItems(h, done + [item]) else (done + [item], h)
  }

  function Settings(c: Cursor, done: seq<(Expr, Expr)>): (r: (Option<seq<(Expr, Expr)>>, Cursor))
    ensures Took(c, r)
    decreases |c.rest|
  {
    var (target, d) := Primary(Blank(c));
    if target.None? then Fail(d, "Expected target expression in SET clause")
    else if !target.value.Variable? && !target.value.Property?
        then Fail(d, "SET target must be a variable or property access")
    else
      var d := Blank(d);
      var e := Expect(d, '=');
      if !IsSymbol(d, '=') then (None, e)
      else
        var (value, f) := Expression(e);
        if value.None? then Fail(f, "Expected expression after = in SET clause")
        else
          var f := Blank(f);
          var g := Symbol(f, ',');
          var more := done + [(target.value, value.value)];
          if IsSymbol(f, ',') then Settings(g, more) else (Some(more), g)
  }

  function Names(c: Cursor, done: seq<string>): (r: (Option<seq<string>>, Cursor))
    ensures Took(c, r)
    decreases |c.rest|
  {
    var (name, d) := Identifier(Blank(c));
    if name == "" then Fail(d, "Expected variable name in DELETE clause")
    else
      var d := Blank(d);
      var e := Symbol(d, ',');
      if IsSymbol(d, ',') then Names(e, done + [name]) else (Some(done + [name]), e)
  }
}
