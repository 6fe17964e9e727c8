/** What `ParseStatement` of src/cypher/parser.cc makes of a whole query. */
module Statements {
  import opened Decimal
  import opened Grammar
  import opened Queries
  import opened Scanners
  import opened Syntax
  import opened Wrappers
  import T = Temporal
  import TemporalProgress

  type Parsed = (Option<Clause>, Cursor)

  // ---------------------------------------------------------------- clauses without a query inside

  /** A clause, if any, that holds no query. */
  predicate Alone(c: Option<Clause>) { c.Some? ==> !c.value.Union? && !c.value.Subquery? }

  function Projection(c: Cursor, what: string): (r: (seq<Item>, bool, Cursor))
    ensures Onward(c, r.2)
  {
    var d := Blank(c);
    var (items, e) := Items(Keyword(d, "distinct"), what, []);
    (items, IsKeyword(d, "distinct"), e)
  }

  function WhereRest(c: Cursor): (r: Parsed)
    ensures Went(c, r) && Alone(r.0)
  {
    var (e, d) := Expression(Blank(c));
    (Some(Where(e)), if e.None? then d.(error := "Failed to parse WHERE condition") else d)
  }

  function Counted(c: Cursor, limit: bool): (r: Parsed)
    ensures Went(c, r) && Alone(r.0)
  {
    var (e, d) := Expression(c);
    (if e.None? then None else Some(if limit then Limit(e.value) else Skipped(e.value)), d)
  }

  function UnwindRest(c: Cursor): (r: Parsed)
    ensures Went(c, r) && Alone(r.0)
  {
    var (e, d) := Expression(Blank(c));
    if e.None? then Fail(d, "Failed to parse UNWIND expression")
    else
      var d := Blank(d);
      var f := Keyword(d, "as");
      if !IsKeyword(d, "as") then Fail(f, "Expected AS after UNWIND expression")
      else
        var (alias, g) := Identifier(f);
        if alias == "" then Fail(g, "Expected identifier after AS in UNWIND") else (Some(Unwind(e.value, alias)), g)
  }

  const SHOWN: seq<string> :=
    ["spaces", "tags", "edges", "labels", "parts", "partitions", "hosts", "indexes", "hotspots"]

  const CHANGES: seq<string> := ["add", "drop", "rename", "modify"]

  const ALTERED: seq<string> := ["tag", "edge"]

  function ShowRest(c: Cursor): (r: Parsed)
    ensures Went(c, r) && Alone(r.0)
  {
    var d := Blank(c);
    var word := Word(d.rest);
    if word !in SHOWN
    then Fail(d, "Expected SPACES, TAGS, EDGES, LABELS, PARTS, HOSTS, INDEXES, or HOTSPOTS after SHOW")
    else
      var e := Blank(Keyword(d, word));
      var f := Keyword(e, "in");
      var g := if IsKeyword(e, "in") then f else Keyword(f, "from");
      var (space, h) := if IsKeyword(e, "in") || IsKeyword(f, "from") then Identifier(g) else ("", g);
      (Some(Show(if word == "partitions" then "parts" else word, space)), h)
  }

  function UseRest(c: Cursor): (r: Parsed)
    ensures Went(c, r) && Alone(r.0)
  {
    var (space, d) := Identifier(Blank(c));
    if space == "" then Fail(d, "Expected space name after USE") else (Some(Use(space)), d)
  }

  /** ADD, DROP, RENAME or MODIFY; `kind` is only named in the error. */
  function ChangeRest(c: Cursor, kind: string, target: string): (r: Parsed)
    ensures Went(c, r) && Alone(r.0)
  {
    var c := Blank(c);
    var word := Word(c.rest);
    if word !in CHANGES
    then Fail(c, "Expected ADD, DROP, RENAME, or MODIFY after " + kind + " name")
    else
      var d := Blank(Keyword(c, word));
      var e := Keyword(d, "property");
      if !IsKeyword(d, "property") then Fail(e, "Expected PROPERTY after " + Upper(word))
      else var (property, f) := Identifier(Blank(e)); Changed(f, word, target, property)
  }

  function Upper(word: string): string {
    if word == "add" then "ADD" else if word == "drop" then "DROP" else if word == "rename" then "RENAME" else "MODIFY"
  }

  function Changed(c: Cursor, word: string, target: string, property: string): (r: Parsed)
    ensures Went(c, r) && Alone(r.0)
  {
    if word == "drop" then (Some(Alter(target, Drop(property))), c)
    else
      var c := Blank(c);
      if word == "rename" then
        var d := Keyword(c, "to");
        if !IsKeyword(c, "to") then Fail(d, "Expected TO after property name")
        else var (name, e) := Identifier(Blank(d)); (Some(Alter(target, Rename(property, name))), e)
      else
        var (kind, d) := Identifier(c);
        (Some(Alter(target, if word == "add" then Add(property, kind) else Modify(property, kind))), d)
  }

  function AlterRest(c: Cursor): (r: Parsed)
    ensures Went(c, r) && Alone(r.0)
  {
    var c := Blank(c);
    var kind := Word(c.rest);
    if kind !in ALTERED then Fail(c, "Expected TAG or EDGE after ALTER")
    else
      var (target, d) := Identifier(Blank(Keyword(c, kind)));
      if target == "" then Fail(d, "Expected " + kind + " name after ALTER " + if kind == "tag" then "TAG" else "EDGE")
      else ChangeRest(d, kind, target)
  }

  function Patterned(c: Cursor, word: string): (r: Parsed)
    ensures Went(c, r) && Alone(r.0)
  {
    var (patterns, d) := Patterns(Blank(c), []);
    (Some(if word == "match" then Match(patterns, false) else if word == "create" then Create(patterns)
        else Merge(patterns)), d)
  }

  function Projected(c: Cursor, word: string): (r: Parsed)
    ensures Went(c, r) && Alone(r.0)
  {
    var (items, distinct, d) := Projection(c, if word == "return" then "RETURN" else "WITH");
    (Some(if word == "return" then Return(items, distinct) else With(items, distinct)), d)
  }

  function OtherRest(c: Cursor, word: string): (r: Parsed)
    ensures Went(c, r) && Alone(r.0)
  {
    if word == "where" then WhereRest(c)
    else if word == "limit" || word == "skip" then Counted(c, word == "limit")
    else if word == "set" then var (settings, d) := Settings(c, []); (if settings.None? then None
        else Some(Set(settings.value)), d)
    else if word == "delete" then var (names, d) := Names(c, []); (if names.None? then None
        else Some(Delete(names.value)), d)
    else if word == "unwind" then UnwindRest(c)
    else if word == "show" then ShowRest(c)
    else if word == "use" then UseRest(c)
    else AlterRest(c)
  }

  function PlainRest(c: Cursor, word: string): (r: Parsed)
    ensures Went(c, r) && Alone(r.0)
  {
    if word == "match" || word == "create" || word == "merge" then Patterned(c, word)
    else if word == "return" || word == "with" then Projected(c, word)
    else OtherRest(c, word)
  }

  // ---------------------------------------------------------------- the statement

  /** One iteration of the loop over clauses: what it adds, where it ends, the temporal clause it leaves in the parser
      if it parsed another statement, and whether the loop is left. */
  datatype Step = Step(clause: Option<Clause>, cursor: Cursor, taken: Option<Option<T.Clause>>, stop: bool)

  datatype Result = Result(statement: Statement, cursor: Cursor)

  predicate Steps(c: Cursor, s: Step) {
    && Onward(c, s.cursor)
    && (!s.stop ==> |s.cursor.rest| < |c.rest|)
    && (s.stop ==> s.cursor.error != "")
  }

  /** OPTIONAL MATCH and ORDER BY behind their first word. */
  function TwoWords(c: Cursor, word: string): (s: Step)
    ensures Onward(c, s.cursor) && (s.stop ==> s.cursor.error != "") && Alone(s.clause) && s.taken.None?
  {
    if word == "optional" then
      var c := Blank(c);
      var d := Keyword(c, "match");
      if !IsKeyword(c, "match") then Step(None, d.(error := "Expected MATCH after OPTIONAL"), None, true)
      else var (patterns, e) := Patterns(Blank(d), []); Step(Some(Match(patterns, true)), e, None, false)
    else
      var d := Keyword(c, "by");
      if !IsKeyword(c, "by") then Step(None, d.(error := "Expected BY after ORDER"), None, true)
      else var (keys, e) := SortItems(Blank(d), []); Step(Some(OrderBy(keys)), e, None, false)
  }

  /** UNION behind its first word. */
  function UnionRest(c: Cursor, size: nat): (s: Step)
    ensures Onward(c, s.cursor) && !s.stop && s.taken.Some?
    decreases |c.rest|, 3
  {
    var c := Blank(c);
    var right := ParseStatement(Keyword(c, "all"), size);
    Step(Some(Union(IsKeyword(c, "all"), right.statement)), right.cursor, Some(right.statement.temporal), false)
  }

  /** CALL behind its first word. */
  function CallRest(c: Cursor, size: nat): (s: Step)
    ensures Onward(c, s.cursor) && (s.stop || s.clause.Some? ==> s.cursor.error != "")
    ensures s.taken.Some? <==> IsSymbol(Blank(c), '{')
    decreases |c.rest|, 3
  {
    var c := Blank(c);
    var d := Symbol(c, '{');
    if !IsSymbol(c, '{') then Step(None, d, None, false)
    else
      var body := ParseStatement(d, size);
      var e := Symbol(body.cursor, '}');
      var clause, taken := Some(Subquery(body.statement)), Some(body.statement.temporal);
      if IsSymbol(body.cursor, '}') then Step(clause, e, taken, false)
      else Step(clause, e.(error := "Expected } after subquery"), taken, true)
  }

  /** The step behind the first word of a clause. */
  function StepRest(c: Cursor, size: nat, word: string): (s: Step)
    ensures Onward(c, s.cursor) && (s.stop ==> s.cursor.error != "")
    decreases |c.rest|, 4
  {
    if word == "union" then UnionRest(c, size)
    else if word == "call" then CallRest(c, size)
    else if word == "optional" || word == "order" then TwoWords(c, word)
    else var (clause, d) := PlainRest(c, word); Step(clause, d, None, false)
  }

  /** The words that begin a clause, in the order they are tried. */
  const FIRST_WORDS: seq<string> :=
    ["match", "optional", "where", "return", "order", "limit", "skip", "create", "set", "delete", "merge", "with",
        "unwind",
     "show", "use", "alter", "union", "call"]

  function ClauseAt(c: Cursor, size: nat): (s: Step)
    ensures Steps(c, s)
    decreases |c.rest|, 0
  {
    var word := Word(c.rest);
    if word == "" || word !in FIRST_WORDS then Step(None, c.(error := Unexpected(size, |c.rest|)), None, true)
    else StepRest(Keyword(c, word), size, word)
  }

  function Unexpected(size: nat, rest: nat): (message: string)
    ensures message != ""
  {
    "Unexpected token at position " + Signed(size - rest)
  }

  /** The loop over the clauses. */
  function Clauses(c: Cursor, size: nat, done: seq<Clause>, temporal: Option<T.Clause>): (r: Result)
    ensures Onward(c, r.cursor) && (r.cursor.rest == "" || r.cursor.error != "")
    decreases |c.rest|, 1
  {
    if c.rest == "" then Result(Statement(done, temporal), c)
    else
      var s := ClauseAt(Blank(c), size);
      var more := if s.clause.Some? then done + [s.clause.value] else done;
      var latest := if s.taken.Some? then s.taken.value else temporal;
      if s.stop then Result(Statement(more, latest), s.cursor) else Clauses(Blank(s.cursor), size, more, latest)
  }

  /** The statement at a cursor of an input of the given size.  It ends at the end of the input or with an error. */
  function ParseStatement(c: Cursor, size: nat): (r: Result)
    ensures Onward(c, r.cursor) && (r.cursor.rest == "" || r.cursor.error != "")
    decreases |c.rest|, 2
  {
    var b := Blank(c);
    TemporalProgress.ClauseOnward(b);
    var (temporal, d) := T.ParseClause(b);
    Clauses(Blank(d), size, [], temporal)
  }
}
