/** Which temporal clauses read back: exactly the printable ones. */
module TemporalExactly {
  import opened Decimal
  import opened Scanners
  import opened Temporal
  import opened TemporalRoundTrip
  import opened Wrappers

  // ---------------------------------------------------------------- quoted text

  ghost predicate Slashes(s: string, n: nat) { n <= |s| && forall i :: 0 <= i < n ==> s[i] == '\\' }

  /** From a backslash on, a reader that is to return what it reads never gets beyond backslashes: it takes two for
      one. */
  lemma {:induction false} NeverCatchesUp(s: string, text: string, k: nat)
    requires k < |s| < |text| && text[..|s|] == s && text[|s|] == '\'' && s[0] == '\\' && Slashes(text, 2 * k)
    requires Quoted(text[2 * k..], '\'').0 == s[k..]
    ensures false
    decreases |s| - k
  {
    assert s[k] == text[k] == '\\';
    assert s[k..][0] == '\\';
    var x := text[2 * k..];
    assert x != "" && x[0] == '\\' && |x| > 1 && x[1] == '\\';
    assert text[2 * k] == x[0] && text[2 * k + 1] == x[1];
    assert x[2..] == text[2 * k + 2..];
    assert Quoted(x, '\'').0[1..] == Quoted(x[2..], '\'').0;
    assert s[k..][1..] == s[k + 1..];
    NeverCatchesUp(s, text, k + 1);
  }

  /** A quoted text reads back, whatever follows the closing quote, only if it holds no quote and no backslash. */
  lemma {:induction false} QuotedOnly(s: string, tail: string)
    requires Quoted(s + ("'" + tail), '\'').0 == s
    ensures Clean(s)
    decreases |s|
  {
    var text := s + ("'" + tail);
    if s != "" {
      if s[0] == '\\' {
        assert text[0..] == text && s[0..] == s && text[..|s|] == s;
        NeverCatchesUp(s, text, 0);
      } else if s[0] != '\'' {
        assert text[1..] == s[1..] + ("'" + tail);
        assert Quoted(text, '\'').0[1..] == Quoted(text[1..], '\'').0;
        QuotedOnly(s[1..], tail);
      }
    }
  }

  // ---------------------------------------------------------------- what a parsed time can be

  lemma {:induction false} WordCharsAre(s: string)
    ensures AllWordChars(s[..WordChars(s)])
    decreases |s|
  {
    if s != "" && IsWordChar(s[0]) {
      WordCharsAre(s[1..]);
      assert s[..WordChars(s)] == [s[0]] + s[1..][..WordChars(s[1..])];
    }
  }

  /** The identifier at a cursor. */
  function Ident(s: string): string { Skip(s)[..IdentLength(Skip(s))] }

  lemma IdentIsWord(s: string)
    ensures AllWordChars(Ident(s)) && (IsAlpha(Peek(Skip(s))) ==> Ident(s) != "" && Ident(s)[0] == Peek(Skip(s)))
  {
    WordCharsAre(Skip(s));
  }

  lemma ArithmeticGives(x: string, c: Cursor)
    ensures var t := Arithmetic(x, c).0;
            t == Name(x) || (t.Shift? && t.left == Name(x) && t.op in {'+', '-'} && t.micros <= INT64_MAX)
  {
  }

  lemma ArgumentGives(c: Cursor)
    ensures var t := Argument(c).0; t.Text? || t.Literal? || t == Name(Ident(c.rest))
  {
  }

  lemma NamedGives(x: string, c: Cursor)
    ensures var t := Named(x, c).0;
            && !t.Unknown? && (t.Shift? ==> Lower(x) !in FUNCTIONS)
            && (t.Name? ==> (Lower(x) !in FUNCTIONS && t.name == x) || Lower(x) == "timestamp")
            && (t.Shift? ==> t.left == Name(x) && t.op in {'+', '-'} && t.micros <= INT64_MAX)
  {
    if Lower(x) in FUNCTIONS {
      FunctionGives(x, c);
    } else {
      PlainNamed(x, c);
      ArithmeticGives(x, c);
    }
  }

  lemma FunctionGives(x: string, c: Cursor)
    requires Lower(x) in FUNCTIONS
    ensures var t := Named(x, c).0; t.Call? || t.Text? || t.Literal? || (t.Name? && Lower(x) == "timestamp")
  {
    ArgumentGives(Blank(Expect(Blank(c), '(')));
  }

  lemma StartsWord(c: Cursor)
    requires IsAlpha(Peek(Skip(c.rest)))
    ensures ParseTime(c) == Named(Ident(c.rest), Identifier(Blank(c)).1)
  {
    SkipTwice(c.rest);
  }

  /** A time that is a name or a shifted name comes from a word. */
  lemma FromWord(c: Cursor)
    requires ParseTime(c).0.Name? || ParseTime(c).0.Shift?
    ensures IsAlpha(Peek(Skip(c.rest))) && ParseTime(c) == Named(Ident(c.rest), Identifier(Blank(c)).1)
  {
    if IsAlpha(Peek(Skip(c.rest))) { StartsWord(c); }
  }

  // ---------------------------------------------------------------- times

  /** What follows a time in the text of a clause: nothing, a symbol, or AND or TO. */
  ghost predicate Closed(tail: string) {
    Ends(tail) && Peek(Skip(tail)) != '(' && Lower(Ident(tail)) in {"", "and", "to"}
  }

  lemma LiteralOnly(n: nat, tail: string, error: string)
    requires Closed(tail) && ParseTime(Cursor(TimeText(Literal(n)) + tail, error)).0 == Literal(n)
    ensures Printable(Literal(n))
  {
    NumeralFirst(n, tail);
    NumberHere(Cursor(Numeral(n) + tail, error));
    BlankNumeral(n, tail, error);
    IntegerReads(n, tail, error);
    UnsignedMax();
  }

  lemma BlankNumeral(n: nat, tail: string, error: string)
    ensures Blank(Cursor(Numeral(n) + tail, error)) == Cursor(Numeral(n) + tail, error)
  {
    NumeralFirst(n, tail);
  }

  lemma UnsignedMax()
    ensures Unsigned(INT64_MAX) == INT64_MAX
  {
  }

  lemma NumberHere(c: Cursor)
    requires IsDigit(Peek(Skip(c.rest)))
    ensures ParseTime(c).0 == Literal(Unsigned(Integer(Blank(c)).0))
  {
  }

  lemma TextOnly(s: string, tail: string, error: string)
    requires ParseTime(Cursor(TimeText(Text(s)) + tail, error)).0 == Text(s)
    ensures Printable(Text(s))
  {
    var all := "'" + s + "'" + tail;
    SkipNothing(all);
    assert all[1..] == s + ("'" + tail);
    QuotedOnly(s, tail);
  }

  lemma CallOnly(f: Function, tail: string, error: string)
    requires ParseTime(Cursor(TimeText(Call(f)) + tail, error)).0 == Call(f)
    ensures Printable(Call(f))
  {
    if f == CurrentTimestamp { CurrentTimestampReadsAsNow(tail, error); }
  }

  lemma WordAndTail(x: string, tail: string, error: string)
    requires x != "" && AllWordChars(x) && Closed(tail) && IsAlpha(Peek(Skip(x + tail)))
    ensures IsAlpha(x[0]) && ParseTime(Cursor(x + tail, error)) == Named(x, Cursor(tail, error))
  {
    SkipNothing(x + tail);
    NamedReads(x, tail, error);
  }

  /** A name that is read by `timestamp` without parentheses is none of the words before. */
  lemma TimestampGives(x: string, tail: string, error: string)
    requires Lower(x) == "timestamp" && Closed(tail) && Named(x, Cursor(tail, error)).0.Name?
    ensures Lower(Named(x, Cursor(tail, error)).0.name) in {"", "and", "to"}
  {
    var d := Blank(Expect(Blank(Cursor(tail, error)), '('));
    SkipTwice(tail);
    assert d.rest == Skip(tail);
    ArgumentGives(d);
  }

  lemma NameOnly(x: string, tail: string, error: string)
    requires Closed(tail) && ParseTime(Cursor(TimeText(Name(x)) + tail, error)).0 == Name(x)
    ensures Printable(Name(x))
  {
    var c := Cursor(x + tail, error);
    FromWord(c);
    NameIsWord(c);
    if x == "" {
      assert x + tail == tail;
      IdentIsWord(tail);
      NamedGives(Ident(tail), Identifier(Blank(c)).1);
      LowerEmpty(Ident(tail));
    } else {
      WordAndTail(x, tail, error);
      NamedGives(x, Cursor(tail, error));
      if Lower(x) == "timestamp" { TimestampGives(x, tail, error); }
    }
  }

  lemma LowerEmpty(x: string)
    ensures Lower(x) == "" <==> x == ""
  {
    assert |Lower(x)| == |x|;
  }

  /** Every name that is read is a word. */
  lemma NameIsWord(c: Cursor)
    requires ParseTime(c).0.Name?
    ensures AllWordChars(ParseTime(c).0.name)
  {
    FromWord(c);
    var x, d := Ident(c.rest), Identifier(Blank(c)).1;
    IdentIsWord(c.rest);
    NamedGives(x, d);
    if Lower(x) == "timestamp" {
      var e := Blank(Expect(Blank(d), '('));
      ArgumentGives(e);
      IdentIsWord(e.rest);
    }
  }

  lemma ShiftOnly(left: Time, op: char, n: int, tail: string, error: string)
    requires Closed(tail) && ParseTime(Cursor(TimeText(Shift(left, op, n)) + tail, error)).0 == Shift(left, op, n)
    ensures Printable(Shift(left, op, n))
  {
    var c := Cursor(TimeText(Shift(left, op, n)) + tail, error);
    FromWord(c);
    var x := Ident(c.rest);
    IdentIsWord(c.rest);
    NamedGives(x, Identifier(Blank(c)).1);
    if n < 0 { NegativeShift(x, op, n, tail, error); }
  }

  /** A negative number of microseconds is not read behind a sign. */
  lemma NegativeShift(x: string, op: char, n: int, tail: string, error: string)
    requires PlainName(x) && op in {'+', '-'} && n < 0
    ensures ParseTime(Cursor(TimeText(Shift(Name(x), op, n)) + tail, error)).0 == Name(x)
  {
    var number := Signed(n) + ("us" + tail);
    var rest := " " + ([op] + (" " + number));
    assert TimeText(Shift(Name(x), op, n)) + tail == x + rest;
    NamedReads(x, rest, error);
    PlainNamed(x, Cursor(rest, error));
    assert number[0] == '-';
    SkipNothing(number);
    NoNumberAfterSign(x, op, number, error);
  }

  lemma NoNumberAfterSign(x: string, op: char, number: string, error: string)
    requires op in {'+', '-'} && number != "" && Skip(number) == number && !IsDigit(number[0])
    ensures Arithmetic(x, Cursor(" " + ([op] + (" " + number)), error)).0 == Name(x)
  {
    SignReads(op, number);
  }

  lemma UnknownOnly(tail: string, error: string)
    requires Closed(tail)
    ensures !ParseTime(Cursor(TimeText(Unknown) + tail, error)).0.Unknown?
  {
    var c := Cursor("null" + tail, error);
    SkipNothing(c.rest);
    StartsWord(c);
    NamedGives(Ident(c.rest), Identifier(Blank(c)).1);
  }

  /** Only printable times read back. */
  lemma TimeOnly(t: Time, tail: string, error: string)
    requires Closed(tail) && ParseTime(Cursor(TimeText(t) + tail, error)).0 == t
    ensures Printable(t)
  {
    match t
    case Literal(n) => LiteralOnly(n, tail, error);
    case Text(s) => TextOnly(s, tail, error);
    case Call(f) => CallOnly(f, tail, error);
    case Name(x) => NameOnly(x, tail, error);
    case Shift(left, op, n) => ShiftOnly(left, op, n, tail, error);
    case Unknown => UnknownOnly(tail, error);
  }

  // ---------------------------------------------------------------- where a clause comes from

  /** What each parser can return. */
  lemma Kinds(c: Cursor)
    ensures FromToClause(c).0.Some? ==> FromToClause(c).0.value.FromTo?
    ensures ContainedInClause(c).0.Some? ==> ContainedInClause(c).0.value.ContainedIn?
    ensures DuringClause(c).0.Some? ==> DuringClause(c).0.value.During?
    ensures AllVersionsClause(c).0.Some? ==> AllVersionsClause(c).0.value.AllVersions?
  {
  }

  lemma VersionKinds(c: Cursor)
    ensures VersionClause(c).0.Some? ==> VersionClause(c).0.value.Version?
    ensures var a := NavigationClause(c).0;
            a.Some? ==> a.value == Version(None) || (a.value.AsOf? && a.value.dimension.NoDimension?)
  {
  }

  lemma RangeKind(c: Cursor, dimension: Dimension)
    ensures var a := DimensionRange(c, dimension).0; a.Some? ==> a.value.Between? && a.value.dimension == dimension
  {
  }

  lemma DimensionKinds(c: Cursor, keyword: string, dimension: Dimension)
    ensures var a := DimensionClause(c, keyword, dimension).0;
            a.Some? ==> (a.value.AsOf? || a.value.Between?) && a.value.dimension == dimension
  {
    var (found, d) := TimeOrAs(Blank(Keyword(c, keyword)));
    RangeKind(d, dimension);
    RangeKind(Keyword(d, "of"), dimension);
  }

  lemma LastThreeKinds(c: Cursor)
    ensures var a := LastThree(c).0;
            a.Some? ==>
              a.value.AsOf? || a.value == Version(None) || (a.value.Between? && !a.value.dimension.NoDimension?)
  {
    VersionKinds(c);
    var d := NavigationClause(c).1;
    DimensionKinds(d, "system", System);
    DimensionKinds(DimensionClause(d, "system", System).1, "valid", Valid);
  }

  lemma LastFiveKinds(c: Cursor)
    ensures var a := LastFive(c).0;
            a.Some? ==>
              || a.value.AllVersions? || a.value.AsOf? || a.value.Version?
              || (a.value.Between? && !a.value.dimension.NoDimension?)
  {
    Kinds(c);
    var d := AllVersionsClause(c).1;
    VersionKinds(d);
    LastThreeKinds(VersionClause(d).1);
  }

  lemma AfterBetweenKinds(c: Cursor)
    ensures var a := AfterBetween(c).0; a.Some? && a.value.Between? ==> !a.value.dimension.NoDimension?
    ensures var a := AfterBetween(c).0; a.Some? && a.value.FromTo? ==> a == FromToClause(c).0
  {
    Kinds(c);
    var d := FromToClause(c).1;
    Kinds(d);
    var e := ContainedInClause(d).1;
    Kinds(e);
    LastFiveKinds(DuringClause(e).1);
  }

  /** A cursor at a word. */
  ghost predicate At(c: Cursor, w: string) { c.rest != "" && Skip(c.rest) == c.rest && Word(c.rest) == w }

  lemma ParseBetween(c: Cursor)
    requires At(c, "between")
    ensures ParseClause(c) == if BetweenClause(c).0.Some? then BetweenClause(c) else AfterBetween(BetweenClause(c).1)
  {
    PassedBy(c, "between");
  }

  lemma ParseFrom(c: Cursor)
    requires At(c, "from")
    ensures ParseClause(c) == AfterBetween(c)
  {
    PassedBy(c, "from");
  }

  lemma ParseDuring(c: Cursor)
    requires At(c, "during")
    ensures ParseClause(c) == if DuringClause(c).0.Some? then DuringClause(c) else LastFive(DuringClause(c).1)
  {
    PassedBy(c, "during");
    PassedByToo(c, "during");
  }

  lemma ParseVersion(c: Cursor)
    requires At(c, "version")
    ensures ParseClause(c) == if VersionClause(c).0.Some? then VersionClause(c) else LastThree(VersionClause(c).1)
  {
    PassedBy(c, "version");
    PassedByToo(c, "version");
  }

  // ---------------------------------------------------------------- what follows a time

  lemma {:induction false} AlphaIsWord(w: string)
    requires AllAlpha(w)
    ensures AllWordChars(w)
  {
  }

  lemma WordCloses(word: string, lower: string, s: string)
    requires Spells(word, lower) && lower in {"and", "to"}
    ensures Closed(" " + (word + (" " + s)))
  {
    var tail := " " + (word + (" " + s));
    EndsSpaced(word, " " + s);
    SkipSpaced(word, " " + s);
    AlphaIsWord(word);
    WordCharsOf(word, " " + s);
    assert (word + (" " + s))[..|word|] == word;
    assert Ident(tail) == word;
  }

  lemma SymbolCloses(symbol: char, s: string)
    requires symbol in {',', ')'}
    ensures Closed([symbol] + s)
  {
    EndsSymbol(symbol, s);
    assert Ident([symbol] + s) == "";
    LowerEmpty("");
  }

  lemma NothingCloses()
    ensures Closed("")
  {
    assert Ident("") == "";
    LowerEmpty("");
  }

  lemma LastOnly(t: Time, error: string)
    requires ParseTime(Cursor(TimeText(t), error)).0 == t
    ensures Printable(t)
  {
    NothingCloses();
    assert TimeText(t) + "" == TimeText(t);
    TimeOnly(t, "", error);
  }

  // ---------------------------------------------------------------- clauses with one time

  /** Two keywords and a text: the text is read as a time. */
  lemma PairThenTime(c: Cursor, first: string, one: string, second: string, two: string, s: string)
    requires Spells(first, one) && Spells(second, two) && c.rest == first + (" " + (second + (" " + s)))
    ensures Pair(c, one, two).0 && At(c, one) && ParseTime(Pair(c, one, two).1) == ParseTime(Cursor(s, c.error))
  {
    PairHere(c, first, one, second, two, " " + s);
    SkipOneSpace(s);
    SkipTwice(s);
    ParseTimeSkips(Pair(c, one, two).1, Cursor(s, c.error));
  }

  lemma AsOfOnly(c: Cursor, t: Option<Time>)
    requires c.rest == "AS" + (" " + ("OF" + (" " + OptionalText(t))))
    requires ParseClause(c).0 == Some(AsOf(NoDimension, t))
    ensures t.Some? && Printable(t.value)
  {
    Keywords();
    PairThenTime(c, "AS", "as", "OF", "of", OptionalText(t));
    assert AsOfClause(c).0 == ParseClause(c).0;
    LastOnly(t.value, c.error);
  }

  lemma AtTimeOnly(c: Cursor, t: Option<Time>)
    requires c.rest == "AT" + (" " + ("TIME" + (" " + OptionalText(t))))
    requires ParseClause(c).0 == Some(AtTime(t))
    ensures t.Some? && Printable(t.value)
  {
    Keywords();
    LongKeywords();
    PairThenTime(c, "AT", "at", "TIME", "time", OptionalText(t));
    PassedBy(c, "at");
    assert AtTimeClause(c).0 == ParseClause(c).0;
    LastOnly(t.value, c.error);
  }

  lemma DimensionAsOfOnly(c: Cursor, word: string, lower: string, dimension: Dimension, t: Option<Time>)
    requires Spells(word, lower) && c.rest == word + (" " + ("AS" + (" " + ("OF" + (" " + OptionalText(t))))))
    requires DimensionClause(c, lower, dimension).0 == Some(AsOf(dimension, t))
    ensures t.Some? && Printable(t.value)
  {
    Keywords();
    var s := " " + ("OF" + (" " + OptionalText(t)));
    DimensionHere(c, word, lower, "AS", "as", s);
    SkipSpaced("OF", " " + OptionalText(t));
    KeywordHere(c.(rest := s), "OF", "of", " " + OptionalText(t));
    SkipOneSpace(OptionalText(t));
    ParseTimeSkips(c.(rest := " " + OptionalText(t)), Cursor(OptionalText(t), c.error));
    LastOnly(t.value, c.error);
  }

  // ---------------------------------------------------------------- clauses with two times

  /** If the first time of a range is the one printed, the keyword behind it is read, and then the second. */
  lemma RangeOnly(c: Cursor, a: Time, word: string, lower: string, b: Time)
    requires Spells(word, lower) && lower in {"and", "to"}
    requires Skip(c.rest) == Skip(TimeText(a) + (" " + (word + (" " + TimeText(b))))) && ParseTime(c).0 == a
    ensures Printable(a)
    ensures var e := Keyword(ParseTime(c).1, lower);
            IsKeyword(ParseTime(c).1, lower) && e.error == c.error
                && ParseTime(e) == ParseTime(Cursor(TimeText(b), c.error)) &&
            ParseTime(Blank(e)) == ParseTime(e)
  {
    var tail := " " + (word + (" " + TimeText(b)));
    WordCloses(word, lower, TimeText(b));
    ParseTimeSkips(c, Cursor(TimeText(a) + tail, c.error));
    TimeOnly(a, tail, c.error);
    TwoTimes(c, a, word, lower, b);
    var e := Keyword(ParseTime(c).1, lower);
    ParseTimeSkips(e, Cursor(TimeText(b), c.error));
    SkipTwice(e.rest);
    ParseTimeSkips(Blank(e), e);
  }

  lemma RangeStarts(c: Cursor, first: string, one: string, s: string)
    requires Spells(first, one) && c.rest == first + (" " + s)
    ensures At(c, one) && IsKeyword(c, one) && Keyword(c, one) == c.(rest := " " + s)
    ensures Skip(Keyword(c, one).rest) == Skip(s) == Skip(Blank(Keyword(c, one)).rest)
  {
    SkipNothing(c.rest);
    KeywordHere(c, first, one, " " + s);
    SkipOneSpace(s);
    SkipTwice(s);
  }

  lemma BetweenOnly(c: Cursor, a: Time, b: Time)
    requires c.rest == "BETWEEN" + (" " + (TimeText(a) + (" " + ("AND" + (" " + TimeText(b))))))
    requires ParseClause(c).0 == Some(Between(NoDimension, a, b))
    ensures Printable(a) && Printable(b)
  {
    Keywords();
    LongestKeywords();
    RangeStarts(c, "BETWEEN", "between", TimeText(a) + (" " + ("AND" + (" " + TimeText(b)))));
    ParseBetween(c);
    AfterBetweenKinds(BetweenClause(c).1);
    assert BetweenClause(c).0 == Some(Between(NoDimension, a, b));
    RangeOnly(Blank(Keyword(c, "between")), a, "AND", "and", b);
    LastOnly(b, c.error);
  }

  lemma FromToOnly(c: Cursor, a: Time, b: Time)
    requires c.rest == "FROM" + (" " + (TimeText(a) + (" " + ("TO" + (" " + TimeText(b))))))
    requires ParseClause(c).0 == Some(FromTo(a, b))
    ensures Printable(a) && Printable(b)
  {
    Keywords();
    LongKeywords();
    RangeStarts(c, "FROM", "from", TimeText(a) + (" " + ("TO" + (" " + TimeText(b)))));
    ParseFrom(c);
    AfterBetweenKinds(c);
    assert FromToClause(c).0 == Some(FromTo(a, b));
    RangeOnly(Blank(Keyword(c, "from")), a, "TO", "to", b);
    LastOnly(b, c.error);
  }

  lemma DimensionBetweenOnly(c: Cursor, word: string, lower: string, dimension: Dimension, a: Time, b: Time)
    requires Spells(word, lower)
    requires c.rest == word + (" " + ("BETWEEN" + (" " + (TimeText(a) + (" " + ("AND" + (" " + TimeText(b))))))))
    requires DimensionClause(c, lower, dimension).0 == Some(Between(dimension, a, b))
    ensures Printable(a) && Printable(b)
  {
    Keywords();
    LongestKeywords();
    var tail := TimeText(a) + (" " + ("AND" + (" " + TimeText(b))));
    DimensionHere(c, word, lower, "BETWEEN", "between", " " + tail);
    SkipOneSpace(tail);
    var d := c.(rest := " " + tail);
    assert DimensionClause(c, lower, dimension) == DimensionRange(c.(rest := "BETWEEN" + (" " + tail)), dimension);
    RangeOnly(d, a, "AND", "and", b);
    LastOnly(b, c.error);
  }

  /** The times of a period, one after the other. */
  lemma PeriodOnly(c: Cursor, a: Time, b: Time, what: string)
    requires Skip(c.rest) == "(" + (TimeText(a) + ("," + (" " + (TimeText(b) + ")"))))
    requires Period(c, what).0 == Some((a, b))
    ensures Printable(a) && Printable(b)
  {
    var last := TimeText(b) + ")";
    var tail := "," + (" " + last);
    SymbolHere(c, '(', TimeText(a) + tail);
    SymbolCloses(',', " " + last);
    var c1 := Symbol(c, '(');
    TimeOnly(a, tail, c.error);
    TimeHere(c1, a, tail);
    EndsSymbol(',', " " + last);
    var d := ParseTime(c1).1;
    SymbolHere(d, ',', " " + last);
    SkipOneSpace(last);
    SkipTwice(last);
    SymbolCloses(')', "");
    assert ")" + "" == ")";
    ParseTimeSkips(Blank(Symbol(d, ',')), Cursor(last, c.error));
    TimeOnly(b, ")", c.error);
  }

  lemma DuringOnly(c: Cursor, a: Time, b: Time)
    requires c.rest == "DURING" + (" " + ("PERIOD" + ("(" + (TimeText(a) + ("," + (" " + (TimeText(b) + ")")))))))
    requires ParseClause(c).0 == Some(During(a, b))
    ensures Printable(a) && Printable(b)
  {
    LongerKeywords();
    var s := "(" + (TimeText(a) + ("," + (" " + (TimeText(b) + ")"))));
    PairHere(c, "DURING", "during", "PERIOD", "period", s);
    SkipNothing(s);
    ParseDuring(c);
    LastFiveKinds(DuringClause(c).1);
    assert DuringClause(c).0 == Some(During(a, b));
    PeriodOnly(c.(rest := s), a, b, "DURING PERIOD");
  }

  // ---------------------------------------------------------------- clauses without a time

  lemma LastThreePassBy(c: Cursor, w: string)
    requires Word(c.rest) == w && Skip(c.rest) == c.rest && w !in {"first", "last", "prev", "next", "system", "valid"}
    ensures LastThree(c).0 == None
  {
    PassedByLast(c, w);
  }

  /** What is printed behind VERSION reads back exactly if it is a number that fits. */
  lemma VersionOnly(c: Cursor, k: Option<int>)
    requires c.rest == "VERSION" + (" " + if k.Some? then Signed(k.value) else "null")
    requires ParseClause(c).0 == Some(Version(k))
    ensures k.Some? && 0 <= k.value <= INT64_MAX
  {
    var s := if k.Some? then Signed(k.value) else "null";
    LongestKeywords();
    RangeStarts(c, "VERSION", "version", s);
    ParseVersion(c);
    if k.Some? && k.value >= 0 {
      VersionNumberOnly(c, k.value);
    } else {
      SkipNothing(s);
      NoNumber(s, k);
      LastThreePassBy(VersionClause(c).1, Word(s));
    }
  }

  lemma NoNumber(s: string, k: Option<int>)
    requires s == (if k.Some? then Signed(k.value) else "null") && (k.None? || k.value < 0)
    ensures Word(s) in {"", "null"} && !IsDigit(Peek(s)) && Skip(s) == s
  {
    SkipNothing(s);
    if k.None? {
      assert "null" + "" == "null";
      KeywordReads("null", "");
      LowerSame("null");
    } else {
      assert Letters(s) == 0;
      LowerEmpty("");
    }
  }

  lemma VersionNumberOnly(c: Cursor, k: nat)
    requires c.rest == "VERSION" + (" " + Numeral(k)) && At(c, "version") && IsKeyword(c, "version")
    requires Skip(Blank(Keyword(c, "version")).rest) == Skip(Numeral(k))
    requires ParseClause(c).0 == Some(Version(Some(k)))
    ensures k <= INT64_MAX
  {
    assert Numeral(k) + "" == Numeral(k);
    NumeralFirst(k, "");
    IntegerReads(k, "", c.error);
    ParseVersion(c);
  }

  lemma ContainedInOnly(c: Cursor)
    requires c.rest == "(no temporal modifier)"
    ensures ParseClause(c).0 == None
  {
    SkipNothing(c.rest);
    assert Letters(c.rest) == 0;
    LowerEmpty("");
    PassedBy(c, "");
    PassedByToo(c, "");
    LastThreePassBy(c, "");
  }

  // ---------------------------------------------------------------- the theorem

  lemma ParseSystem(c: Cursor)
    requires At(c, "system")
    ensures ParseClause(c) == LastThree(c)
    ensures var a := ParseClause(c).0;
            a.Some? && (a.value.AsOf? || a.value.Between?) && a.value.dimension == System ==>
            a == DimensionClause(c, "system", System).0
  {
    PassedBy(c, "system");
    PassedByToo(c, "system");
    PassedByLast(c, "system");
    DimensionKinds(DimensionClause(c, "system", System).1, "valid", Valid);
  }

  lemma ParseValid(c: Cursor)
    requires At(c, "valid")
    ensures ParseClause(c) == DimensionClause(c, "valid", Valid)
  {
    PassedBy(c, "valid");
    PassedByToo(c, "valid");
    PassedByLast(c, "valid");
  }

  lemma AtFirstWord(c: Cursor, first: string, one: string, s: string)
    requires Spells(first, one) && c.rest == first + (" " + s)
    ensures At(c, one)
  {
    RangeStarts(c, first, one, s);
  }

  lemma AsOfTextOnly(text: string, d: Dimension, t: Option<Time>, error: string)
    requires text == ClauseText(AsOf(d, t)) && ParseClause(Cursor(text, error)).0 == Some(AsOf(d, t))
    ensures t.Some? && Printable(t.value)
  {
    var c := Cursor(text, error);
    var s := "AS" + (" " + ("OF" + (" " + OptionalText(t))));
    match d
    case NoDimension =>
      AsOfShape(OptionalText(t));
      AsOfOnly(c, t);
    case System =>
      SystemSpelled();
      DimensionAsOfShape(System, "SYSTEM", t);
      AtFirstWord(c, "SYSTEM", "system", s);
      ParseSystem(c);
      DimensionAsOfOnly(c, "SYSTEM", "system", System, t);
    case Valid =>
      ValidSpelled();
      DimensionAsOfShape(Valid, "VALID", t);
      AtFirstWord(c, "VALID", "valid", s);
      ParseValid(c);
      DimensionAsOfOnly(c, "VALID", "valid", Valid, t);
  }

  lemma BetweenTextOnly(text: string, d: Dimension, a: Time, b: Time, error: string)
    requires text == ClauseText(Between(d, a, b)) && ParseClause(Cursor(text, error)).0 == Some(Between(d, a, b))
    ensures Printable(a) && Printable(b)
  {
    var c := Cursor(text, error);
    var s := "BETWEEN" + (" " + (TimeText(a) + (" " + ("AND" + (" " + TimeText(b))))));
    match d
    case NoDimension =>
      BetweenShape(TimeText(a), TimeText(b));
      BetweenOnly(c, a, b);
    case System =>
      SystemSpelled();
      DimensionBetweenShape(System, "SYSTEM", a, b);
      AtFirstWord(c, "SYSTEM", "system", s);
      ParseSystem(c);
      DimensionBetweenOnly(c, "SYSTEM", "system", System, a, b);
    case Valid =>
      ValidSpelled();
      DimensionBetweenShape(Valid, "VALID", a, b);
      AtFirstWord(c, "VALID", "valid", s);
      ParseValid(c);
      DimensionBetweenOnly(c, "VALID", "valid", Valid, a, b);
  }

  lemma ClauseOnly(c: Clause, error: string)
    requires ParseClause(Cursor(ClauseText(c), error)).0 == Some(c)
    ensures PrintableClause(c)
  {
    var text := ClauseText(c);
    match c {
      case AsOf(d, t) => AsOfTextOnly(text, d, t, error);
      case AtTime(t) => AsOfShape(OptionalText(t)); AtTimeOnly(Cursor(text, error), t);
      case Between(d, a, b) => BetweenTextOnly(text, d, a, b, error);
      case FromTo(a, b) => PeriodShape(TimeText(a), TimeText(b)); FromToOnly(Cursor(text, error), a, b);
      case During(a, b) => PeriodShape(TimeText(a), TimeText(b)); DuringOnly(Cursor(text, error), a, b);
      case Version(k) =>
        VersionShape(if k.Some? then Signed(k.value) else "null");
        VersionOnly(Cursor(text, error), k);
      case ContainedIn(_, _) => ContainedInOnly(Cursor(text, error));
      case AllVersions =>
    }
  }

  /** The text of a clause reads back as the clause if and only if the clause is printable; then it sets no error and
      leaves only blanks. */
  lemma ParsePrintExactly(c: Clause, error: string)
    ensures ParseClause(Cursor(ClauseText(c), error)).0 == Some(c) <==> PrintableClause(c)
    ensures Whole(ParseClause(Cursor(ClauseText(c), error)), c, error) <==> PrintableClause(c)
  {
    if PrintableClause(c) { ParsePrint(c, error); }
    if ParseClause(Cursor(ClauseText(c), error)).0 == Some(c) { ClauseOnly(c, error); }
  }
}
