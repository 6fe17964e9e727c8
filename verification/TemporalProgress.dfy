/** The temporal parsers never go back and forget no error. */
module TemporalProgress {
  import opened Scanners
  import opened Temporal

  lemma ParensOnward(c: Cursor)
    ensures Onward(c, Parens(c))
  {
  }

  lemma ArgumentOnward(c: Cursor)
    ensures Onward(c, Argument(c).1) && Onward(c, QuotedArgument(c).1)
  {
  }

  lemma ArithmeticOnward(x: string, c: Cursor)
    ensures Onward(c, Arithmetic(x, c).1)
  {
  }

  lemma NamedOnward(x: string, c: Cursor)
    ensures Onward(c, Named(x, c).1)
  {
    var parens, arguments, quoted := Parens(Blank(c)), Argument(Blank(Expect(Blank(c), '('))), QuotedArgument(Blank(c));
    var shifted := Arithmetic(x, c);
    ParensOnward(Blank(c));
    ArgumentOnward(Blank(Expect(Blank(c), '(')));
    ArgumentOnward(Blank(c));
    ArithmeticOnward(x, c);
    NamedOneOf(x, c, parens, arguments.1, quoted.1, shifted.1);
  }

  lemma NamedOneOf(x: string, c: Cursor, parens: Cursor, arguments: Cursor, quoted: Cursor, shifted: Cursor)
    requires parens == Parens(Blank(c)) && arguments == Argument(Blank(Expect(Blank(c), '('))).1
    requires quoted == QuotedArgument(Blank(c)).1 && shifted == Arithmetic(x, c).1
    ensures Named(x, c).1 in {parens, arguments, quoted, shifted}
  {
  }

  lemma TimeOnward(c: Cursor)
    ensures Onward(c, ParseTime(c).1)
  {
    NamedOnward(Identifier(Blank(c)).0, Identifier(Blank(c)).1);
  }

  lemma PairOnward(c: Cursor, first: string, second: string)
    ensures Onward(c, Pair(c, first, second).1)
  {
  }

  lemma PointOnward(c: Cursor)
    ensures Onward(c, AsOfClause(c).1) && Onward(c, AtTimeClause(c).1)
  {
    PairOnward(c, "as", "of");
    PairOnward(c, "at", "time");
    TimeOnward(Pair(c, "as", "of").1);
    TimeOnward(Pair(c, "at", "time").1);
  }

  lemma BetweenOnward(c: Cursor)
    ensures Onward(c, BetweenClause(c).1)
  {
    var b := Blank(Keyword(c, "between"));
    TimeOnward(b);
    TimeOnward(Blank(Keyword(ParseTime(b).1, "and")));
  }

  lemma FromToOnward(c: Cursor)
    ensures Onward(c, FromToClause(c).1)
  {
    var b := Blank(Keyword(c, "from"));
    TimeOnward(b);
    TimeOnward(Blank(Keyword(ParseTime(b).1, "to")));
  }

  lemma PeriodOnward(c: Cursor, what: string)
    ensures Onward(c, Period(c, what).1)
  {
    var b := Symbol(c, '(');
    TimeOnward(b);
    TimeOnward(Blank(Symbol(ParseTime(b).1, ',')));
  }

  lemma PeriodsOnward(c: Cursor)
    ensures Onward(c, ContainedInClause(c).1) && Onward(c, DuringClause(c).1)
  {
    PairOnward(c, "contained", "in");
    PairOnward(c, "during", "period");
    PeriodOnward(Pair(c, "contained", "in").1, "CONTAINED IN");
    PeriodOnward(Pair(c, "during", "period").1, "DURING PERIOD");
  }

  lemma VersionsOnward(c: Cursor)
    ensures Onward(c, AllVersionsClause(c).1) && Onward(c, VersionClause(c).1) && Onward(c, NavigationClause(c).1)
  {
  }

  lemma RangeOnward(c: Cursor, dimension: Dimension)
    ensures Onward(c, DimensionRange(c, dimension).1)
  {
    var b := Keyword(c, "between");
    TimeOnward(b);
    TimeOnward(ExpectWord(ParseTime(b).1, "and"));
  }

  lemma DimensionOnward(c: Cursor, keyword: string, dimension: Dimension)
    ensures Onward(c, DimensionClause(c, keyword, dimension).1)
  {
    var d := TimeOrAs(Blank(Keyword(c, keyword))).1;
    RangeOnward(d, dimension);
    TimeOnward(Keyword(d, "of"));
    RangeOnward(Keyword(d, "of"), dimension);
  }

  lemma LastThreeOnward(c: Cursor)
    ensures Onward(c, LastThree(c).1)
  {
    VersionsOnward(c);
    var d := NavigationClause(c).1;
    DimensionOnward(d, "system", System);
    DimensionOnward(DimensionClause(d, "system", System).1, "valid", Valid);
  }

  lemma LastFiveOnward(c: Cursor)
    ensures Onward(c, LastFive(c).1)
  {
    VersionsOnward(c);
    var d := AllVersionsClause(c).1;
    VersionsOnward(d);
    LastThreeOnward(VersionClause(d).1);
  }

  lemma AfterBetweenOnward(c: Cursor)
    ensures Onward(c, AfterBetween(c).1)
  {
    FromToOnward(c);
    var d := FromToClause(c).1;
    PeriodsOnward(d);
    var e := ContainedInClause(d).1;
    PeriodsOnward(e);
    LastFiveOnward(DuringClause(e).1);
  }

  /** Whatever the input, a temporal clause or the attempt at one ends where it began or behind. */
  lemma ClauseOnward(c: Cursor)
    ensures Onward(c, ParseClause(c).1)
  {
    var b := Blank(c);
    PointOnward(b);
    var d := AsOfClause(b).1;
    PointOnward(d);
    var e := AtTimeClause(d).1;
    BetweenOnward(e);
    AfterBetweenOnward(BetweenClause(e).1);
  }
}
