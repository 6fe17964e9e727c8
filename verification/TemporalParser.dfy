/** The temporal clause parsers of src/cypher/parser_temporal.cc as they move along the input. */
module TemporalParser {
  import opened Decimal
  import opened Scanners
  import opened Temporal
  import opened Wrappers

  method ParseParens(p: Scanner)
    requires p.Valid()
    modifies p
    ensures p.Valid() && p.View() == old(Parens(p.View()))
  {
    var open := p.MatchSymbol('(');
    if open { p.ExpectSymbol(')'); }
  }

  method ParseArgument(p: Scanner) returns (t: Time)
    requires p.Valid()
    modifies p
    ensures p.Valid() && (t, p.View()) == old(Argument(p.View()))
  {
    var c := p.Next();
    if c == '\'' || c == '"' {
      var s := p.ParseStringLiteral();
      t := Text(s);
    } else if IsDigit(c) {
      var n := p.ParseInteger();
      t := Literal(Unsigned(n));
    } else {
      var x := p.ParseIdentifier();
      t := Name(x);
    }
    p.ExpectSymbol(')');
  }

  method ParseQuotedArgument(p: Scanner) returns (t: Time)
    requires p.Valid()
    modifies p
    ensures p.Valid() && (t, p.View()) == old(QuotedArgument(p.View()))
  {
    p.ExpectSymbol('(');
    var s := p.ParseStringLiteral();
    t := Text(s);
    p.ExpectSymbol(')');
  }

  method ParseMicros(p: Scanner) returns (micros: int)
    requires p.Valid()
    modifies p
    ensures p.Valid() && (micros, p.View()) == old(Micros(p.View()))
  {
    var n := p.ParseInteger();
    p.SkipBlanks();
    var unit := p.ParseIdentifier();
    micros := Wrapped(n * Unit(Lower(unit)));
  }

  method ParseArithmetic(x: string, p: Scanner) returns (t: Time)
    requires p.Valid()
    modifies p
    ensures p.Valid() && (t, p.View()) == old(Arithmetic(x, p.View()))
  {
    p.SkipBlanks();
    var op := p.Next();
    if op == '-' || op == '+' {
      p.Advance();
      p.SkipBlanks();
      var c := p.Next();
      if IsDigit(c) {
        var n := ParseMicros(p);
        return Shift(Name(x), op, n);
      }
    }
    return Name(x);
  }

  method ParseNamed(x: string, p: Scanner) returns (t: Time)
    requires p.Valid()
    modifies p
    ensures p.Valid() && (t, p.View()) == old(Named(x, p.View()))
  {
    var l := Lower(x);
    if l in {"now", "current_timestamp", "transaction_time", "valid_time"} {
      p.SkipBlanks();
      ParseParens(p);
      t := Call(if l == "transaction_time" then TransactionTime else if l == "valid_time" then ValidTime else Now);
    } else if l == "timestamp" {
      p.SkipBlanks();
      p.ExpectSymbol('(');
      p.SkipBlanks();
      t := ParseArgument(p);
    } else if l == "date" || l == "datetime" {
      p.SkipBlanks();
      t := ParseQuotedArgument(p);
    } else {
      t := ParseArithmetic(x, p);
    }
  }

  method ParseTimestampExpression(p: Scanner) returns (t: Time)
    requires p.Valid()
    modifies p
    ensures p.Valid() && (t, p.View()) == old(ParseTime(p.View()))
  {
    p.SkipBlanks();
    var c := p.Next();
    if IsAlpha(c) {
      var x := p.ParseIdentifier();
      t := ParseNamed(x, p);
    } else if c == '\'' || c == '"' {
      var s := p.ParseStringLiteral();
      t := Text(s);
    } else if IsDigit(c) || c == '-' || c == '+' {
      var n := p.ParseInteger();
      t := Literal(Unsigned(n));
    } else {
      p.error := "Unknown timestamp expression type";
      t := Unknown;
    }
  }

  method MatchPair(p: Scanner, first: string, second: string) returns (found: bool)
    requires p.Valid()
    modifies p
    ensures p.Valid() && (found, p.View()) == old(Pair(p.View(), first, second))
  {
    var save := p.pos;
    found := p.MatchKeyword(first);
    if !found { return; }
    p.SkipBlanks();
    found := p.MatchKeyword(second);
    if found { p.SkipBlanks(); } else { p.pos := save; }
  }

  method ParseAsOfClause(p: Scanner) returns (clause: Option<Clause>)
    requires p.Valid()
    modifies p
    ensures p.Valid() && (clause, p.View()) == old(AsOfClause(p.View()))
  {
    var found := MatchPair(p, "as", "of");
    if !found { return None; }
    var t := ParseTimestampExpression(p);
    clause := Some(AsOf(NoDimension, Some(t)));
  }

  method ParseAtTimeClause(p: Scanner) returns (clause: Option<Clause>)
    requires p.Valid()
    modifies p
    ensures p.Valid() && (clause, p.View()) == old(AtTimeClause(p.View()))
  {
    var found := MatchPair(p, "at", "time");
    if !found { return None; }
    var t := ParseTimestampExpression(p);
    clause := Some(AtTime(Some(t)));
  }

  method ParseBetweenClause(p: Scanner) returns (clause: Option<Clause>)
    requires p.Valid()
    modifies p
    ensures p.Valid() && (clause, p.View()) == old(BetweenClause(p.View()))
  {
    var found := p.MatchKeyword("between");
    if !found { return None; }
    p.SkipBlanks();
    var a := ParseTimestampExpression(p);
    found := p.MatchKeyword("and");
    if !found {
      p.error := "Expected AND after BETWEEN start time";
      return None;
    }
    p.SkipBlanks();
    var b := ParseTimestampExpression(p);
    clause := Some(Between(NoDimension, a, b));
  }

  method ParseFromToClause(p: Scanner) returns (clause: Option<Clause>)
    requires p.Valid()
    modifies p
    ensures p.Valid() && (clause, p.View()) == old(FromToClause(p.View()))
  {
    var found := p.MatchKeyword("from");
    if !found { return None; }
    p.SkipBlanks();
    var a := ParseTimestampExpression(p);
    found := p.MatchKeyword("to");
    if !found {
      p.error := "Expected TO after FROM start time";
      return None;
    }
    p.SkipBlanks();
    var b := ParseTimestampExpression(p);
    clause := Some(FromTo(a, b));
  }

  method ParsePeriod(p: Scanner, what: string) returns (period: Option<(Time, Time)>)
    requires p.Valid()
    modifies p
    ensures p.Valid() && (period, p.View()) == old(Period(p.View(), what))
  {
    var found := p.MatchSymbol('(');
    if !found {
      p.error := "Expected ( after " + what;
      return None;
    }
    var a := ParseTimestampExpression(p);
    found := p.MatchSymbol(',');
    if !found {
      p.error := "Expected , between " + what + " times";
      return None;
    }
    p.SkipBlanks();
    var b := ParseTimestampExpression(p);
    found := p.MatchSymbol(')');
    if !found {
      p.error := "Expected ) after " + what + " times";
      return None;
    }
    period := Some((a, b));
  }

  method ParseContainedInClause(p: Scanner) returns (clause: Option<Clause>)
    requires p.Valid()
    modifies p
    ensures p.Valid() && (clause, p.View()) == old(ContainedInClause(p.View()))
  {
    var found := MatchPair(p, "contained", "in");
    if !found { return None; }
    var period := ParsePeriod(p, "CONTAINED IN");
    clause := if period.Some? then Some(ContainedIn(period.value.0, period.value.1)) else None;
  }

  method ParseDuringClause(p: Scanner) returns (clause: Option<Clause>)
    requires p.Valid()
    modifies p
    ensures p.Valid() && (clause, p.View()) == old(DuringClause(p.View()))
  {
    var found := MatchPair(p, "during", "period");
    if !found { return None; }
    var period := ParsePeriod(p, "DURING PERIOD");
    clause := if period.Some? then Some(During(period.value.0, period.value.1)) else None;
  }

  method ParseAllVersionsClause(p: Scanner) returns (clause: Option<Clause>)
    requires p.Valid()
    modifies p
    ensures p.Valid() && (clause, p.View()) == old(AllVersionsClause(p.View()))
  {
    var save := p.pos;
    var found := p.MatchKeyword("all");
    if !found { return None; }
    p.SkipBlanks();
    found := p.MatchKeyword("versions");
    if !found {
      p.pos := save;
      return None;
    }
    clause := Some(AllVersions);
  }

  method ParseVersionClause(p: Scanner) returns (clause: Option<Clause>)
    requires p.Valid()
    modifies p
    ensures p.Valid() && (clause, p.View()) == old(VersionClause(p.View()))
  {
    var found := p.MatchKeyword("version");
    if !found { return None; }
    p.SkipBlanks();
    var c := p.Next();
    if !IsDigit(c) {
      p.error := "Expected version number after VERSION";
      return None;
    }
    var n := p.ParseInteger();
    clause := Some(Version(Some(n)));
  }

  method ParseNavigationClause(p: Scanner) returns (clause: Option<Clause>)
    requires p.Valid()
    modifies p
    ensures p.Valid() && (clause, p.View()) == old(NavigationClause(p.View()))
  {
    SkipTwice(p.View().rest);
    p.SkipBlanks();
    var found := p.MatchKeyword("first");
    if found { return Some(AsOf(NoDimension, None)); }
    found := p.MatchKeyword("last");
    if found { return Some(AsOf(NoDimension, Some(Call(Now)))); }
    found := p.MatchKeyword("prev");
    if found { return Some(Version(None)); }
    found := p.MatchKeyword("next");
    if found { return Some(Version(None)); }
    return None;
  }

  method MatchTimeOrAs(p: Scanner) returns (found: bool)
    requires p.Valid()
    modifies p
    ensures p.Valid() && (found, p.View()) == old(TimeOrAs(p.View()))
  {
    found := p.MatchKeyword("time");
    if !found { found := p.MatchKeyword("as"); }
  }

  method ParseDimensionRange(p: Scanner, dimension: Dimension) returns (clause: Option<Clause>)
    requires p.Valid()
    modifies p
    ensures p.Valid() && (clause, p.View()) == old(DimensionRange(p.View(), dimension))
  {
    var found := p.MatchKeyword("between");
    if !found { return None; }
    var a := ParseTimestampExpression(p);
    p.ExpectKeyword("and");
    var b := ParseTimestampExpression(p);
    clause := Some(Between(dimension, a, b));
  }

  method ParseDimensionClause(p: Scanner, keyword: string, dimension: Dimension) returns (clause: Option<Clause>)
    requires p.Valid()
    modifies p
    ensures p.Valid() && (clause, p.View()) == old(DimensionClause(p.View(), keyword, dimension))
  {
    var found := p.MatchKeyword(keyword);
    if !found { return None; }
    p.SkipBlanks();
    found := MatchTimeOrAs(p);
    if found {
      found := p.MatchKeyword("of");
      if found {
        var t := ParseTimestampExpression(p);
        return Some(AsOf(dimension, Some(t)));
      }
    }
    clause := ParseDimensionRange(p, dimension);
  }

  /** The clause of the text, as the specification reads it. */
  method ParseTemporalClause(p: Scanner) returns (clause: Option<Clause>)
    requires p.Valid()
    modifies p
    ensures p.Valid() && (clause, p.View()) == old(ParseClause(p.View()))
  {
    p.SkipBlanks();
    if p.pos == |p.input| { return None; }
    clause := ParseAsOfClause(p);
    if clause.Some? { return; }
    clause := ParseAtTimeClause(p);
    if clause.Some? { return; }
    clause := ParseBetweenClause(p);
    if clause.Some? { return; }
    clause := ParseFromToClause(p);
    if clause.Some? { return; }
    clause := ParseContainedInClause(p);
    if clause.Some? { return; }
    clause := ParseDuringClause(p);
    if clause.Some? { return; }
    clause := ParseAllVersionsClause(p);
    if clause.Some? { return; }
    clause := ParseVersionClause(p);
    if clause.Some? { return; }
    clause := ParseNavigationClause(p);
    if clause.Some? { return; }
    clause := ParseDimensionClause(p, "system", System);
    if clause.Some? { return; }
    clause := ParseDimensionClause(p, "valid", Valid);
  }
}
