/** `ParseStatement` and the clause parsers of src/cypher/parser.cc as they move along the input. */
module StatementParser {
  import opened ExpressionParser
  import opened PatternParser
  import opened Scanners
  import opened Syntax
  import opened Wrappers
  import S = Statements
  import T = Temporal
  import TemporalParser
  import TemporalProgress

  // ---------------------------------------------------------------- clauses without a query inside

  /** The first of some keywords that is there, or the empty string. */
  method MatchAny(p: Scanner, words: seq<string>) returns (word: string)
    requires p.Valid() && Skip(p.View().rest) == p.View().rest && "" !in words
    modifies p
    ensures p.Valid() && word == old(if Word(p.View().rest) in words then Word(p.View().rest) else "")
    ensures p.View() == old(if Word(p.View().rest) in words then Keyword(p.View(), Word(p.View().rest)) else p.View())
  {
    for i := 0 to |words|
      invariant p.Valid() && p.View() == old(p.View()) && Word(p.View().rest) !in words[..i]
    {
      var found := p.MatchKeyword(words[i]);
      if found { return words[i]; }
    }
    word := "";
  }

  method ParseProjection(p: Scanner, what: string) returns (items: seq<Item>, distinct: bool)
    requires p.Valid()
    modifies p
    ensures p.Valid() && (items, distinct, p.View()) == old(S.Projection(p.View(), what))
  {
    p.SkipBlanks();
    distinct := p.MatchKeyword("distinct");
    items := ParseItems(p, what);
  }

  method ParseWhere(p: Scanner) returns (clause: Option<Clause>)
    requires p.Valid()
    modifies p
    ensures p.Valid() && (clause, p.View()) == old(S.WhereRest(p.View()))
  {
    p.SkipBlanks();
    var e := ParseExpression(p);
    if e.None? { p.error := "Failed to parse WHERE condition"; }
    clause := Some(Where(e));
  }

  method ParseCount(p: Scanner, limit: bool) returns (clause: Option<Clause>)
    requires p.Valid()
    modifies p
    ensures p.Valid() && (clause, p.View()) == old(S.Counted(p.View(), limit))
  {
    var e := ParseExpression(p);
    clause := if e.None? then None else Some(if limit then Limit(e.value) else Skipped(e.value));
  }

  method ParseUnwind(p: Scanner) returns (clause: Option<Clause>)
    requires p.Valid()
    modifies p
    ensures p.Valid() && (clause, p.View()) == old(S.UnwindRest(p.View()))
  {
    p.SkipBlanks();
    var e := ParseExpression(p);
    if e.None? {
      p.error := "Failed to parse UNWIND expression";
      return None;
    }
    p.SkipBlanks();
    var found := p.MatchKeyword("as");
    if !found {
      p.error := "Expected AS after UNWIND expression";
      return None;
    }
    var alias := p.ParseIdentifier();
    if alias == "" {
      p.error := "Expected identifier after AS in UNWIND";
      return None;
    }
    clause := Some(Unwind(e.value, alias));
  }

  method ParseShow(p: Scanner) returns (clause: Option<Clause>)
    requires p.Valid()
    modifies p
    ensures p.Valid() && (clause, p.View()) == old(S.ShowRest(p.View()))
  {
    SkipTwice(p.View().rest);
    p.SkipBlanks();
    var word := MatchAny(p, S.SHOWN);
    if word == "" {
      p.error := "Expected SPACES, TAGS, EDGES, LABELS, PARTS, HOSTS, INDEXES, or HOTSPOTS after SHOW";
      return None;
    }
    p.SkipBlanks();
    var found := p.MatchKeyword("in");
    if !found { found := p.MatchKeyword("from"); }
    var space := "";
    if found { space := p.ParseIdentifier(); }
    clause := Some(Show(if word == "partitions" then "parts" else word, space));
  }

  method ParseUse(p: Scanner) returns (clause: Option<Clause>)
    requires p.Valid()
    modifies p
    ensures p.Valid() && (clause, p.View()) == old(S.UseRest(p.View()))
  {
    p.SkipBlanks();
    var space := p.ParseIdentifier();
    if space == "" {
      p.error := "Expected space name after USE";
      return None;
    }
    clause := Some(Use(space));
  }

  method ParseChanged(p: Scanner, word: string, target: string, property: string) returns (clause: Option<Clause>)
    requires p.Valid()
    modifies p
    ensures p.Valid() && (clause, p.View()) == old(S.Changed(p.View(), word, target, property))
  {
    if word == "drop" { return Some(Alter(target, Drop(property))); }
    p.SkipBlanks();
    if word == "rename" {
      var found := p.MatchKeyword("to");
      if !found {
        p.error := "Expected TO after property name";
        return None;
      }
      p.SkipBlanks();
      var name := p.ParseIdentifier();
      return Some(Alter(target, Rename(property, name)));
    }
    var kind := p.ParseIdentifier();
    clause := Some(Alter(target, if word == "add" then Add(property, kind) else Modify(property, kind)));
  }

  method ParseChange(p: Scanner, kind: string, target: string) returns (clause: Option<Clause>)
    requires p.Valid()
    modifies p
    ensures p.Valid() && (clause, p.View()) == old(S.ChangeRest(p.View(), kind, target))
  {
    SkipTwice(p.View().rest);
    p.SkipBlanks();
    var word := MatchAny(p, S.CHANGES);
    if word == "" {
      p.error := "Expected ADD, DROP, RENAME, or MODIFY after " + kind + " name";
      return None;
    }
    p.SkipBlanks();
    var found := p.MatchKeyword("property");
    if !found {
      p.error := "Expected PROPERTY after " + S.Upper(word);
      return None;
    }
    p.SkipBlanks();
    var property := p.ParseIdentifier();
    clause := ParseChanged(p, word, target, property);
  }

  method ParseAlter(p: Scanner) returns (clause: Option<Clause>)
    requires p.Valid()
    modifies p
    ensures p.Valid() && (clause, p.View()) == old(S.AlterRest(p.View()))
  {
    SkipTwice(p.View().rest);
    p.SkipBlanks();
    var kind := MatchAny(p, S.ALTERED);
    if kind == "" {
      p.error := "Expected TAG or EDGE after ALTER";
      return None;
    }
    p.SkipBlanks();
    var target := p.ParseIdentifier();
    if target == "" {
      p.error := "Expected " + kind + " name after ALTER " + if kind == "tag" then "TAG" else "EDGE";
      return None;
    }
    clause := ParseChange(p, kind, target);
  }

  method ParseOther(p: Scanner, word: string) returns (clause: Option<Clause>)
    requires p.Valid()
    modifies p
    ensures p.Valid() && (clause, p.View()) == old(S.OtherRest(p.View(), word))
  {
    if word == "where" {
      clause := ParseWhere(p);
    } else if word == "limit" || word == "skip" {
      clause := ParseCount(p, word == "limit");
    } else if word == "set" {
      var settings := ParseSettings(p);
      clause := if settings.None? then None else Some(Set(settings.value));
    } else if word == "delete" {
      var names := ParseNames(p);
      clause := if names.None? then None else Some(Delete(names.value));
    } else if word == "unwind" {
      clause := ParseUnwind(p);
    } else if word == "show" {
      clause := ParseShow(p);
    } else if word == "use" {
      clause := ParseUse(p);
    } else {
      clause := ParseAlter(p);
    }
  }

  method ParsePlain(p: Scanner, word: string) returns (clause: Option<Clause>)
    requires p.Valid()
    modifies p
    ensures p.Valid() && (clause, p.View()) == old(S.PlainRest(p.View(), word))
  {
    if word == "match" || word == "create" || word == "merge" {
      p.SkipBlanks();
      var patterns := ParsePatterns(p);
      clause := Some(if word == "match" then Match(patterns, false) else if word == "create" then Create(patterns)
          else Merge(patterns));
    } else if word == "return" || word == "with" {
      var items, distinct := ParseProjection(p, if word == "return" then "RETURN" else "WITH");
      clause := Some(if word == "return" then Return(items, distinct) else With(items, distinct));
    } else {
      clause := ParseOther(p, word);
    }
  }

  method ParseTwoWords(p: Scanner, word: string) returns (clause: Option<Clause>, stop: bool)
    requires p.Valid()
    modifies p
    ensures p.Valid() && S.Step(clause, p.View(), None, stop) == old(S.TwoWords(p.View(), word))
  {
    stop := false;
    if word == "optional" {
      p.SkipBlanks();
      var found := p.MatchKeyword("match");
      if !found {
        p.error := "Expected MATCH after OPTIONAL";
        return None, true;
      }
      p.SkipBlanks();
      var patterns := ParsePatterns(p);
      clause := Some(Match(patterns, true));
    } else {
      var found := p.MatchKeyword("by");
      if !found {
        p.error := "Expected BY after ORDER";
        return None, true;
      }
      p.SkipBlanks();
      var keys := ParseSortItems(p);
      clause := Some(OrderBy(keys));
    }
  }

  // ---------------------------------------------------------------- the parser

  /** `CypherParser`: the input and the one temporal clause, which every statement that is parsed sets. */
  class Parser {
    const scanner: Scanner
    var temporal: Option<T.Clause>

    ghost predicate Valid()
      reads this, scanner
    {
      scanner.Valid()
    }

    constructor (input: string)
      ensures Valid() && fresh(scanner) && scanner.input == input && scanner.View() == Cursor(input, "")
              && temporal == None
    {
      scanner := new Scanner(input);
      temporal := None;
    }

    /** What a step leaves behind. */
    ghost predicate Follows(clause: Option<Clause>, stop: bool, s: S.Step, before: Option<T.Clause>)
      requires Valid()
      reads this, scanner
    {
      && clause == s.clause && stop == s.stop && scanner.View() == s.cursor
      && temporal == if s.taken.Some? then s.taken.value else before
    }

    method ParseUnion() returns (clause: Option<Clause>)
      requires Valid()
      modifies this, scanner
      ensures Valid() && Follows(clause, false, old(S.UnionRest(scanner.View(), |scanner.input|)), old(temporal))
      decreases |scanner.input| - scanner.pos, 3
    {
      scanner.SkipBlanks();
      var all := scanner.MatchKeyword("all");
      var right := ParseStatement();
      clause := Some(Union(all, right));
    }

    method ParseCall() returns (clause: Option<Clause>, stop: bool)
      requires Valid()
      modifies this, scanner
      ensures Valid() && Follows(clause, stop, old(S.CallRest(scanner.View(), |scanner.input|)), old(temporal))
      decreases |scanner.input| - scanner.pos, 3
    {
      scanner.SkipBlanks();
      var found := scanner.MatchSymbol('{');
      if !found { return None, false; }
      var body := ParseStatement();
      clause := Some(Subquery(body));
      found := scanner.MatchSymbol('}');
      if !found { scanner.error := "Expected } after subquery"; }
      stop := !found;
    }

    method ParseClauseRest(word: string) returns (clause: Option<Clause>, stop: bool)
      requires Valid()
      modifies this, scanner
      ensures Valid() && Follows(clause, stop, old(S.StepRest(scanner.View(), |scanner.input|, word)), old(temporal))
      decreases |scanner.input| - scanner.pos, 4
    {
      stop := false;
      if word == "union" {
        clause := ParseUnion();
      } else if word == "call" {
        clause, stop := ParseCall();
      } else if word == "optional" || word == "order" {
        clause, stop := ParseTwoWords(scanner, word);
      } else {
        clause := ParsePlain(scanner, word);
      }
    }

    method ParseClause() returns (clause: Option<Clause>, stop: bool)
      requires Valid() && Skip(scanner.View().rest) == scanner.View().rest
      modifies this, scanner
      ensures Valid() && Follows(clause, stop, old(S.ClauseAt(scanner.View(), |scanner.input|)), old(temporal))
      decreases |scanner.input| - scanner.pos, 0
    {
      var word := MatchAny(scanner, S.FIRST_WORDS);
      if word == "" {
        scanner.error := S.Unexpected(|scanner.input|, |scanner.input| - scanner.pos);
        return None, true;
      }
      clause, stop := ParseClauseRest(word);
    }

    method ParseStatement() returns (stmt: Statement)
      requires Valid()
      modifies this, scanner
      ensures Valid() && S.Result(stmt, scanner.View()) == old(S.ParseStatement(scanner.View(), |scanner.input|))
      ensures temporal == stmt.temporal && old(scanner.pos) <= scanner.pos
      decreases |scanner.input| - scanner.pos, 2
    {
      ghost var c, size := scanner.View(), |scanner.input|;
      scanner.SkipBlanks();
      TemporalProgress.ClauseOnward(scanner.View());
      temporal := TemporalParser.ParseTemporalClause(scanner);
      scanner.SkipBlanks();
      var done: seq<Clause> := [];
      while scanner.pos < |scanner.input|
        invariant Valid() && |scanner.View().rest| <= |c.rest|
        invariant S.Clauses(scanner.View(), size, done, temporal) == S.ParseStatement(c, size)
        decreases |scanner.input| - scanner.pos
      {
        SkipTwice(scanner.View().rest);
        scanner.SkipBlanks();
        var clause, stop := ParseClause();
        if clause.Some? { done := done + [clause.value]; }
        if stop { return Statement(done, temporal); }
        scanner.SkipBlanks();
      }
      stmt := Statement(done, temporal);
    }

    /** Puts position and error back, but not the temporal clause. */
    method IsValid() returns (valid: bool)
      requires Valid()
      modifies this, scanner
      ensures Valid() && scanner.View() == old(scanner.View())
      ensures var r := old(S.ParseStatement(scanner.View(), |scanner.input|));
              valid == (r.cursor.error == "") && temporal == r.statement.temporal
    {
      var pos, error := scanner.pos, scanner.error;
      var stmt := ParseStatement();
      valid := scanner.error == "";
      scanner.pos, scanner.error := pos, error;
    }
  }
}
