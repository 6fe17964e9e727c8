/** Parsing the text of a temporal clause gives the clause back. */
module TemporalRoundTrip {
  import opened Decimal
  import opened Scanners
  import opened Temporal
  import opened Wrappers

  // ---------------------------------------------------------------- tokens read back

  lemma SkipNothing(s: string)
    requires s != "" && !IsSpace(s[0]) && s[0] != '/'
    ensures Skip(s) == s
  {
  }

  lemma SkipOneSpace(s: string)
    ensures Skip(" " + s) == Skip(s)
  {
    assert (" " + s)[1..] == s;
    SkipSpaceTwice(s);
    assert SkipSpace(" " + s) == SkipSpace(s);
  }

  ghost predicate AllAlpha(s: string) { forall i :: 0 <= i < |s| ==> IsAlpha(s[i]) }

  ghost predicate AllWordChars(s: string) { forall i :: 0 <= i < |s| ==> IsWordChar(s[i]) }

  lemma {:induction false} LettersOf(w: string, s: string)
    requires AllAlpha(w) && (s == "" || !IsAlpha(s[0]))
    ensures Letters(w + s) == |w|
    decreases |w|
  {
    if w == "" {
      assert w + s == s;
    } else {
      assert (w + s)[1..] == w[1..] + s;
      LettersOf(w[1..], s);
    }
  }

  lemma {:induction false} WordCharsOf(w: string, s: string)
    requires AllWordChars(w) && (s == "" || !IsWordChar(s[0]))
    ensures WordChars(w + s) == |w|
    decreases |w|
  {
    if w == "" {
      assert w + s == s;
    } else {
      assert (w + s)[1..] == w[1..] + s;
      WordCharsOf(w[1..], s);
    }
  }

  /** A keyword in front of anything that does not go on with a letter. */
  lemma KeywordReads(word: string, s: string)
    requires word != "" && AllAlpha(word) && (s == "" || !IsAlpha(s[0]))
    ensures Word(word + s) == Lower(word) && AfterWord(word + s) == s && Skip(word + s) == word + s
  {
    SkipNothing(word + s);
    LettersOf(word, s);
    assert (word + s)[..|word|] == word && (word + s)[|word|..] == s;
  }

  lemma IdentifierReads(x: string, s: string, error: string)
    requires x != "" && IsAlpha(x[0]) && AllWordChars(x) && (s == "" || !IsWordChar(s[0]))
    ensures Identifier(Cursor(x + s, error)) == (x, Cursor(s, error)) && Skip(x + s) == x + s
  {
    SkipNothing(x + s);
    WordCharsOf(x, s);
    assert (x + s)[..|x|] == x && (x + s)[|x|..] == s;
  }

  /** No quote and no backslash. */
  ghost predicate Clean(s: string) { forall i :: 0 <= i < |s| ==> s[i] != '\'' && s[i] != '\\' }

  lemma {:induction false} QuotedReads(s: string, tail: string)
    requires Clean(s)
    ensures Quoted(s + ("'" + tail), '\'') == (s, "'" + tail)
    decreases |s|
  {
    if s == "" {
      assert s + ("'" + tail) == "'" + tail;
    } else {
      assert (s + ("'" + tail))[1..] == s[1..] + ("'" + tail);
      QuotedReads(s[1..], tail);
      assert [s[0]] + s[1..] == s;
    }
  }

  lemma TextReads(s: string, tail: string, error: string)
    requires Clean(s)
    ensures StringLiteral(Cursor("'" + s + "'" + tail, error)) == (s, Cursor(tail, error))
    ensures Skip("'" + s + "'" + tail) == "'" + s + "'" + tail
  {
    var all := "'" + s + "'" + tail;
    SkipNothing(all);
    assert all[1..] == s + ("'" + tail);
    QuotedReads(s, tail);
    assert ("'" + tail)[1..] == tail;
  }

  lemma DigitsRead(n: nat, s: string)
    requires s == "" || !IsDigit(s[0])
    ensures var r := Digits(Numeral(n) + s, 0); if n <= INT64_MAX then r == (Some(n), s) else r.0.None?
  {
    var d := Numeral(n);
    DigitCountOf(d, s);
    NumberNumeral(n);
    DigitsExact("", d + s);
    assert (d + s)[..|d|] == d && (d + s)[|d|..] == s && "" + d == d;
  }

  lemma NumeralFirst(n: nat, s: string)
    ensures Skip(Numeral(n) + s) == Numeral(n) + s && IsDigit(Peek(Numeral(n) + s))
  {
    assert (Numeral(n) + s)[0] == Numeral(n)[0];
    SkipNothing(Numeral(n) + s);
  }

  /** A numeral reads back if and only if it is at most INT64_MAX; otherwise that is read, with an error. */
  lemma IntegerReads(n: nat, s: string, error: string)
    requires s == "" || !IsDigit(s[0])
    ensures n <= INT64_MAX ==> Integer(Cursor(Numeral(n) + s, error)) == (n, Cursor(s, error))
    ensures n > INT64_MAX ==>
              Integer(Cursor(Numeral(n) + s, error)).0 == INT64_MAX &&
              Integer(Cursor(Numeral(n) + s, error)).1.error == "Integer literal overflows int64_t"
  {
    NumeralFirst(n, s);
    DigitsRead(n, s);
  }

  // ---------------------------------------------------------------- times read back

  /** What may follow a time: no word character, and no sign behind blanks. */
  ghost predicate Ends(tail: string) {
    (tail == "" || !IsWordChar(tail[0])) && (Skip(tail) == "" || Skip(tail)[0] !in {'+', '-'})
  }

  const FUNCTIONS: set<string> :=
    {"now", "current_timestamp", "transaction_time", "valid_time", "timestamp", "date", "datetime"}

  /** A name that starts with a letter and is not that of a function. */
  ghost predicate PlainName(x: string) { x != "" && IsAlpha(x[0]) && AllWordChars(x) && Lower(x) !in FUNCTIONS }

  ghost predicate Printable(t: Time) {
    match t
    case Literal(n) => n <= INT64_MAX
    case Text(s) => Clean(s)
    case Call(f) => f != CurrentTimestamp
    case Name(x) => PlainName(x)
    case Shift(left, op, n) => left.Name? && PlainName(left.name) && op in {'+', '-'} && 0 <= n <= INT64_MAX
    case Unknown => false
  }

  /** The time is read, without an error, up to blanks in front of the tail. */
  ghost predicate Reads(t: Time, tail: string, error: string) {
    var (u, d) := ParseTime(Cursor(TimeText(t) + tail, error));
    u == t && d.error == error && Skip(d.rest) == Skip(tail)
  }

  lemma NamedReads(x: string, s: string, error: string)
    requires x != "" && IsAlpha(x[0]) && AllWordChars(x) && (s == "" || !IsWordChar(s[0]))
    ensures ParseTime(Cursor(x + s, error)) == Named(x, Cursor(s, error))
  {
    IdentifierReads(x, s, error);
  }

  lemma PlainNamed(x: string, c: Cursor)
    requires Lower(x) !in FUNCTIONS
    ensures Named(x, c) == Arithmetic(x, c)
  {
  }

  lemma NameReads(x: string, tail: string, error: string)
    requires PlainName(x) && Ends(tail)
    ensures Reads(Name(x), tail, error)
  {
    NamedReads(x, tail, error);
    PlainNamed(x, Cursor(tail, error));
    SkipTwice(tail);
  }

  predicate NoUpper(s: string) { forall i :: 0 <= i < |s| ==> !('A' <= s[i] <= 'Z') }

  lemma LowerSame(s: string)
    requires NoUpper(s)
    ensures Lower(s) == s
  {
  }

  ghost predicate IsLowerWord(w: string) { w != "" && IsAlpha(w[0]) && AllWordChars(w) && NoUpper(w) }

  lemma FunctionIsWord(f: Function)
    ensures IsLowerWord(FunctionText(f))
  {
    NowIsWord();
    TransactionTimeIsWord();
    CurrentTimestampIsWord();
  }

  lemma NowIsWord()
    ensures IsLowerWord("now") && IsLowerWord("valid_time")
  {
  }

  lemma TransactionTimeIsWord()
    ensures IsLowerWord("transaction_time")
  {
  }

  lemma CurrentTimestampIsWord()
    ensures IsLowerWord("current_timestamp")
  {
  }

  lemma ParensRead(tail: string, error: string)
    ensures Parens(Blank(Cursor("()" + tail, error))) == Cursor(tail, error)
  {
    var s := "()" + tail;
    SkipNothing(s);
    assert s[1..] == ")" + tail;
    SkipNothing(")" + tail);
    assert (")" + tail)[1..] == tail;
  }

  lemma FunctionReads(f: Function, tail: string, error: string)
    ensures ParseTime(Cursor(TimeText(Call(f)) + tail, error)) == Named(FunctionText(f), Cursor("()" + tail, error))
    ensures Lower(FunctionText(f)) == FunctionText(f)
  {
    var w := FunctionText(f);
    FunctionIsWord(f);
    LowerSame(w);
    assert TimeText(Call(f)) + tail == w + ("()" + tail);
    NamedReads(w, "()" + tail, error);
  }

  lemma CallReads(f: Function, tail: string, error: string)
    requires f != CurrentTimestamp
    ensures Reads(Call(f), tail, error)
  {
    FunctionReads(f, tail, error);
    ParensRead(tail, error);
  }

  /** The current timestamp is printed under its own name and read as now. */
  lemma CurrentTimestampReadsAsNow(tail: string, error: string)
    ensures ParseTime(Cursor(TimeText(Call(CurrentTimestamp)) + tail, error)) == (Call(Now), Cursor(tail, error))
  {
    FunctionReads(CurrentTimestamp, tail, error);
    ParensRead(tail, error);
  }

  lemma UnitReads(tail: string, error: string)
    requires tail == "" || !IsWordChar(tail[0])
    ensures Identifier(Blank(Cursor("us" + tail, error))) == ("us", Cursor(tail, error)) && Unit(Lower("us")) == 1
  {
    SkipNothing("us" + tail);
    IdentifierReads("us", tail, error);
    LowerSame("us");
  }

  /** The text between a name and a number. */
  lemma SignReads(op: char, number: string)
    requires op in {'+', '-'}
    ensures var s := Skip(" " + ([op] + (" " + number)));
            Peek(s) == op && Skip(s[1..]) == Skip(number)
  {
    var shifted := [op] + (" " + number);
    SkipOneSpace(shifted);
    SkipNothing(shifted);
    assert shifted[1..] == " " + number;
    SkipOneSpace(number);
  }

  lemma MicrosRead(x: string, op: char, n: nat, tail: string, error: string)
    requires n <= INT64_MAX && op in {'+', '-'} && (tail == "" || !IsWordChar(tail[0]))
    ensures Arithmetic(x, Cursor(" " + ([op] + (" " + (Numeral(n) + ("us" + tail)))), error)) ==
            (Shift(Name(x), op, n), Cursor(tail, error))
  {
    var number := Numeral(n) + ("us" + tail);
    SignReads(op, number);
    NumeralFirst(n, "us" + tail);
    IntegerReads(n, "us" + tail, error);
    UnitReads(tail, error);
    WrappedSame(n);
  }

  lemma WrappedSame(n: nat)
    requires n <= INT64_MAX
    ensures Wrapped(n * 1) == n
  {
  }

  lemma ShiftReads(x: string, op: char, n: nat, tail: string, error: string)
    requires PlainName(x) && n <= INT64_MAX && op in {'+', '-'} && Ends(tail)
    ensures Reads(Shift(Name(x), op, n), tail, error)
  {
    var rest := " " + ([op] + (" " + (Numeral(n) + ("us" + tail))));
    assert TimeText(Shift(Name(x), op, n)) + tail == x + rest;
    NamedReads(x, rest, error);
    PlainNamed(x, Cursor(rest, error));
    MicrosRead(x, op, n, tail, error);
  }

  lemma LiteralReads(n: nat, tail: string, error: string)
    requires n <= INT64_MAX && Ends(tail)
    ensures Reads(Literal(n), tail, error)
  {
    NumeralFirst(n, tail);
    IntegerReads(n, tail, error);
  }

  /** Every printable time reads back in front of anything that ends it. */
  lemma TimeReads(t: Time, tail: string, error: string)
    requires Printable(t) && Ends(tail)
    ensures Reads(t, tail, error)
  {
    match t
    case Literal(n) => LiteralReads(n, tail, error);
    case Text(s) => TextReads(s, tail, error);
    case Call(f) => CallReads(f, tail, error);
    case Name(x) => NameReads(x, tail, error);
    case Shift(left, op, n) => ShiftReads(left.name, op, n, tail, error);
  }

  // ---------------------------------------------------------------- clauses read back

  /** Blanks in front do not matter. */
  lemma ParseTimeSkips(c: Cursor, d: Cursor)
    requires Skip(c.rest) == Skip(d.rest) && c.error == d.error
    ensures ParseTime(c) == ParseTime(d)
  {
  }

  /** `word` is the keyword `lower` in some case. */
  ghost predicate Spells(word: string, lower: string) { word != "" && AllAlpha(word) && Lower(word) == lower }

  /** A keyword behind blanks, in front of something else than a letter. */
  lemma KeywordHere(c: Cursor, word: string, lower: string, s: string)
    requires Spells(word, lower) && (s == "" || !IsAlpha(s[0])) && Skip(c.rest) == word + s
    ensures IsKeyword(c, lower) && Keyword(c, lower) == c.(rest := s) && Word(c.rest) == lower
  {
    KeywordReads(word, s);
  }

  lemma SymbolHere(c: Cursor, symbol: char, s: string)
    requires Skip(c.rest) == [symbol] + s
    ensures IsSymbol(c, symbol) && Symbol(c, symbol) == c.(rest := s)
  {
    assert ([symbol] + s)[1..] == s;
  }

  lemma SkipSpaced(word: string, s: string)
    requires word != "" && AllAlpha(word)
    ensures Skip(" " + (word + s)) == word + s
  {
    SkipOneSpace(word + s);
    SkipNothing(word + s);
  }

  /** A clause that starts with another word is passed by without moving. */
  lemma OtherPair(c: Cursor, first: string, second: string)
    requires Skip(c.rest) == c.rest && Word(c.rest) != first
    ensures Pair(c, first, second) == (false, c)
  {
  }

  lemma PassedBy(c: Cursor, w: string)
    requires Skip(c.rest) == c.rest && Word(c.rest) == w
    ensures w != "as" ==> AsOfClause(c) == (None, c)
    ensures w != "at" ==> AtTimeClause(c) == (None, c)
    ensures w != "between" ==> BetweenClause(c) == (None, c)
    ensures w != "from" ==> FromToClause(c) == (None, c)
  {
    if w != "as" { OtherPair(c, "as", "of"); }
    if w != "at" { OtherPair(c, "at", "time"); }
  }

  lemma PassedByToo(c: Cursor, w: string)
    requires Skip(c.rest) == c.rest && Word(c.rest) == w
    ensures w != "contained" ==> ContainedInClause(c) == (None, c)
    ensures w != "during" ==> DuringClause(c) == (None, c)
    ensures w != "all" ==> AllVersionsClause(c) == (None, c)
    ensures w != "version" ==> VersionClause(c) == (None, c)
  {
    if w != "contained" { OtherPair(c, "contained", "in"); }
    if w != "during" { OtherPair(c, "during", "period"); }
  }

  lemma PassedByLast(c: Cursor, w: string)
    requires Skip(c.rest) == c.rest && Word(c.rest) == w
    ensures w !in {"first", "last", "prev", "next"} ==> NavigationClause(c) == (None, c)
    ensures w != "system" ==> DimensionClause(c, "system", System) == (None, c)
  {
  }

  /** The clause parser a first word leads to. */
  function ByWord(c: Cursor, w: string): Attempt {
    if w == "as" then AsOfClause(c)
    else if w == "at" then AtTimeClause(c)
    else if w == "between" then BetweenClause(c)
    else if w == "from" then FromToClause(c)
    else if w == "during" then DuringClause(c)
    else if w == "all" then AllVersionsClause(c)
    else if w == "version" then VersionClause(c)
    else if w == "system" then DimensionClause(c, "system", System)
    else DimensionClause(c, "valid", Valid)
  }

  lemma Dispatched(c: Cursor, w: string)
    requires c.rest != "" && Skip(c.rest) == c.rest && Word(c.rest) == w
    requires w in {"as", "at", "between", "from", "during", "all", "version", "system", "valid"} && ByWord(c, w).0.Some?
    ensures ParseClause(c) == ByWord(c, w)
  {
    PassedBy(c, w);
    PassedByToo(c, w);
    PassedByLast(c, w);
  }

  lemma Keywords()
    ensures Spells("AS", "as") && Spells("OF", "of") && Spells("AT", "at") && Spells("TO", "to")
    ensures Spells("AND", "and") && Spells("ALL", "all")
  {
  }

  lemma LongKeywords()
    ensures Spells("TIME", "time") && Spells("FROM", "from")
  {
  }

  lemma LongerKeywords()
    ensures Spells("PERIOD", "period") && Spells("DURING", "during")
  {
  }

  lemma LongestKeywords()
    ensures Spells("VERSION", "version") && Spells("BETWEEN", "between") && Spells("VERSIONS", "versions")
  {
  }

  lemma TimeHere(c: Cursor, t: Time, tail: string)
    requires Printable(t) && Ends(tail) && Skip(c.rest) == Skip(TimeText(t) + tail)
    ensures var (u, d) := ParseTime(c); u == t && d.error == c.error && Skip(d.rest) == Skip(tail)
  {
    ParseTimeSkips(c, Cursor(TimeText(t) + tail, c.error));
    TimeReads(t, tail, c.error);
  }

  lemma LastTime(c: Cursor, t: Time)
    requires Printable(t) && Skip(c.rest) == Skip(TimeText(t))
    ensures var (u, d) := ParseTime(c); u == t && d.error == c.error && Skip(d.rest) == ""
  {
    assert TimeText(t) + "" == TimeText(t);
    TimeHere(c, t, "");
  }

  lemma EndsSpaced(word: string, s: string)
    requires word != "" && AllAlpha(word)
    ensures Ends(" " + (word + s))
  {
    SkipSpaced(word, s);
  }

  /** A keyword at the start and one behind a blank. */
  lemma PairHere(c: Cursor, first: string, one: string, second: string, two: string, s: string)
    requires Spells(first, one) && Spells(second, two) && (s == "" || !IsAlpha(s[0]))
    requires c.rest == first + (" " + (second + s))
    ensures Pair(c, one, two) == (true, c.(rest := Skip(s))) && Word(c.rest) == one && Skip(c.rest) == c.rest
  {
    SkipNothing(c.rest);
    KeywordHere(c, first, one, " " + (second + s));
    SkipSpaced(second, s);
    SkipTwice(" " + (second + s));
    KeywordHere(Blank(c.(rest := " " + (second + s))), second, two, s);
  }

  /** Two keywords and a time. */
  lemma PairAndTime(c: Cursor, first: string, one: string, second: string, two: string, t: Time)
    requires Spells(first, one) && Spells(second, two) && Printable(t)
    requires c.rest == first + (" " + (second + (" " + TimeText(t))))
    ensures Pair(c, one, two).0 && Word(c.rest) == one && Skip(c.rest) == c.rest
    ensures var (u, d) := ParseTime(Pair(c, one, two).1); u == t && d.error == c.error && Skip(d.rest) == ""
  {
    PairHere(c, first, one, second, two, " " + TimeText(t));
    SkipOneSpace(TimeText(t));
    SkipTwice(TimeText(t));
    LastTime(Pair(c, one, two).1, t);
  }

  /** A time, a keyword and another time. */
  lemma TwoTimes(c: Cursor, a: Time, word: string, lower: string, b: Time)
    requires Printable(a) && Spells(word, lower)
    requires Skip(c.rest) == Skip(TimeText(a) + (" " + (word + (" " + TimeText(b)))))
    ensures var (u, d) := ParseTime(c);
            u == a && IsKeyword(d, lower) && d.error == c.error &&
            var e := Keyword(d, lower);
            e.error == c.error && Skip(e.rest) == Skip(TimeText(b))
  {
    var tail := " " + (word + (" " + TimeText(b)));
    EndsSpaced(word, " " + TimeText(b));
    TimeHere(c, a, tail);
    SkipSpaced(word, " " + TimeText(b));
    KeywordHere(ParseTime(c).1, word, lower, " " + TimeText(b));
    SkipOneSpace(TimeText(b));
  }

  /** A keyword, a time, a keyword and another time. */
  lemma RangeReads(c: Cursor, first: string, one: string, a: Time, second: string, two: string, b: Time)
    requires Spells(first, one) && Spells(second, two) && Printable(a) && Printable(b)
    requires c.rest == first + (" " + (TimeText(a) + (" " + (second + (" " + TimeText(b))))))
    ensures IsKeyword(c, one) && Word(c.rest) == one && Skip(c.rest) == c.rest
    ensures var (u, d) := ParseTime(Blank(Keyword(c, one)));
            u == a && IsKeyword(d, two) &&
            var (v, e) := ParseTime(Blank(Keyword(d, two)));
            v == b && e.error == c.error && Skip(e.rest) == ""
  {
    var tail := TimeText(a) + (" " + (second + (" " + TimeText(b))));
    SkipNothing(c.rest);
    KeywordHere(c, first, one, " " + tail);
    SkipOneSpace(tail);
    SkipTwice(tail);
    var d := Blank(Keyword(c, one));
    TwoTimes(d, a, second, two, b);
    var e := Keyword(ParseTime(d).1, two);
    SkipTwice(e.rest);
    LastTime(Blank(e), b);
  }

  lemma EndsSymbol(symbol: char, s: string)
    requires symbol in {',', ')'}
    ensures Ends([symbol] + s) && Skip([symbol] + s) == [symbol] + s
  {
    SkipNothing([symbol] + s);
  }

  lemma PeriodReads(c: Cursor, a: Time, b: Time, what: string)
    requires Printable(a) && Printable(b)
    requires Skip(c.rest) == "(" + (TimeText(a) + ("," + (" " + (TimeText(b) + ")"))))
    ensures Period(c, what) == (Some((a, b)), c.(rest := ""))
  {
    var last := TimeText(b) + ")";
    var tail := "," + (" " + last);
    SymbolHere(c, '(', TimeText(a) + tail);
    EndsSymbol(',', " " + last);
    var c1 := Symbol(c, '(');
    TimeHere(c1, a, tail);
    var d := ParseTime(c1).1;
    SymbolHere(d, ',', " " + last);
    SkipOneSpace(last);
    SkipTwice(last);
    EndsSymbol(')', "");
    assert ")" + "" == ")";
    var d1 := Blank(Symbol(d, ','));
    TimeHere(d1, b, ")");
    SymbolHere(ParseTime(d1).1, ')', "");
  }

  lemma PairAndPeriod(c: Cursor, first: string, one: string, second: string, two: string, a: Time, b: Time,
                      what: string)
    requires Spells(first, one) && Spells(second, two) && Printable(a) && Printable(b)
    requires c.rest == first + (" " + (second + ("(" + (TimeText(a) + ("," + (" " + (TimeText(b) + ")")))))))
    ensures Pair(c, one, two).0 && Word(c.rest) == one && Skip(c.rest) == c.rest
    ensures Period(Pair(c, one, two).1, what) == (Some((a, b)), c.(rest := ""))
  {
    var s := "(" + (TimeText(a) + ("," + (" " + (TimeText(b) + ")"))));
    PairHere(c, first, one, second, two, s);
    SkipNothing(s);
    PeriodReads(c.(rest := s), a, b, what);
  }

  // ---------------------------------------------------------------- one lemma per clause

  /** A result without an error that leaves only blanks. */
  ghost predicate Whole(a: Attempt, c: Clause, error: string) { a.0 == Some(c) && a.1.error == error
                        && Skip(a.1.rest) == "" }

  /** Its own parser reads the clause, and no other is tried before. */
  ghost predicate ReadsAs(c: Cursor, w: string, clause: Clause) {
    Whole(ByWord(c, w), clause, c.error) && Word(c.rest) == w && Skip(c.rest) == c.rest && c.rest != ""
  }

  lemma AsOfReads(c: Cursor, t: Time)
    requires Printable(t) && c.rest == "AS" + (" " + ("OF" + (" " + TimeText(t))))
    ensures ReadsAs(c, "as", AsOf(NoDimension, Some(t)))
  {
    Keywords();
    PairAndTime(c, "AS", "as", "OF", "of", t);
  }

  lemma AtTimeReads(c: Cursor, t: Time)
    requires Printable(t) && c.rest == "AT" + (" " + ("TIME" + (" " + TimeText(t))))
    ensures ReadsAs(c, "at", AtTime(Some(t)))
  {
    Keywords();
    LongKeywords();
    PairAndTime(c, "AT", "at", "TIME", "time", t);
  }

  lemma BetweenReads(c: Cursor, a: Time, b: Time)
    requires Printable(a) && Printable(b)
    requires c.rest == "BETWEEN" + (" " + (TimeText(a) + (" " + ("AND" + (" " + TimeText(b))))))
    ensures ReadsAs(c, "between", Between(NoDimension, a, b))
  {
    Keywords();
    LongestKeywords();
    RangeReads(c, "BETWEEN", "between", a, "AND", "and", b);
  }

  lemma FromToReads(c: Cursor, a: Time, b: Time)
    requires Printable(a) && Printable(b)
    requires c.rest == "FROM" + (" " + (TimeText(a) + (" " + ("TO" + (" " + TimeText(b))))))
    ensures ReadsAs(c, "from", FromTo(a, b))
  {
    Keywords();
    LongKeywords();
    RangeReads(c, "FROM", "from", a, "TO", "to", b);
  }

  lemma DuringReads(c: Cursor, a: Time, b: Time)
    requires Printable(a) && Printable(b)
    requires c.rest == "DURING" + (" " + ("PERIOD" + ("(" + (TimeText(a) + ("," + (" " + (TimeText(b) + ")")))))))
    ensures ReadsAs(c, "during", During(a, b))
  {
    LongerKeywords();
    PairAndPeriod(c, "DURING", "during", "PERIOD", "period", a, b, "DURING PERIOD");
  }

  lemma WordsOnly(c: Cursor, first: string, one: string, second: string, two: string)
    requires Spells(first, one) && Spells(second, two) && c.rest == first + (" " + second)
    ensures IsKeyword(c, one) && Word(c.rest) == one && Skip(c.rest) == c.rest
    ensures var d := Blank(Keyword(c, one)); IsKeyword(d, two) && Keyword(d, two) == c.(rest := "")
  {
    SkipNothing(c.rest);
    KeywordHere(c, first, one, " " + second);
    assert second + "" == second;
    SkipSpaced(second, "");
    SkipTwice(" " + second);
    KeywordHere(Blank(Keyword(c, one)), second, two, "");
  }

  lemma AllVersionsReads(c: Cursor)
    requires c.rest == "ALL" + (" " + "VERSIONS")
    ensures ReadsAs(c, "all", AllVersions)
  {
    Keywords();
    LongestKeywords();
    WordsOnly(c, "ALL", "all", "VERSIONS", "versions");
  }

  lemma KeywordAndNumber(c: Cursor, word: string, lower: string, k: nat)
    requires Spells(word, lower) && k <= INT64_MAX && c.rest == word + (" " + Numeral(k))
    ensures IsKeyword(c, lower) && Word(c.rest) == lower && Skip(c.rest) == c.rest
    ensures var d := Blank(Keyword(c, lower)); IsDigit(Peek(d.rest)) && Integer(d) == (k, c.(rest := ""))
  {
    SkipNothing(c.rest);
    KeywordHere(c, word, lower, " " + Numeral(k));
    SkipOneSpace(Numeral(k));
    assert Numeral(k) + "" == Numeral(k);
    NumeralFirst(k, "");
    IntegerReads(k, "", c.error);
  }

  lemma VersionReads(c: Cursor, k: nat)
    requires k <= INT64_MAX && c.rest == "VERSION" + (" " + Numeral(k))
    ensures ReadsAs(c, "version", Version(Some(k)))
  {
    LongestKeywords();
    KeywordAndNumber(c, "VERSION", "version", k);
  }

  /** Behind SYSTEM or VALID. */
  lemma DimensionHere(c: Cursor, word: string, lower: string, next: string, two: string, s: string)
    requires Spells(word, lower) && Spells(next, two) && (s == "" || !IsAlpha(s[0]))
    requires c.rest == word + (" " + (next + s))
    ensures IsKeyword(c, lower) && Word(c.rest) == lower && Skip(c.rest) == c.rest
    ensures var d := Blank(Keyword(c, lower));
            d == c.(rest := next + s) && Skip(d.rest) == d.rest && Word(d.rest) == two
                && Keyword(d, two) == c.(rest := s)
  {
    SkipNothing(c.rest);
    KeywordHere(c, word, lower, " " + (next + s));
    SkipSpaced(next, s);
    SkipTwice(" " + (next + s));
    KeywordHere(c.(rest := next + s), next, two, s);
  }

  lemma DimensionAsOf(c: Cursor, word: string, lower: string, dimension: Dimension, t: Time)
    requires Spells(word, lower) && Printable(t) && c.rest == word
             + (" " + ("AS" + (" " + ("OF" + (" " + TimeText(t))))))
    ensures Whole(DimensionClause(c, lower, dimension), AsOf(dimension, Some(t)), c.error)
    ensures Word(c.rest) == lower && Skip(c.rest) == c.rest
  {
    Keywords();
    var s := " " + ("OF" + (" " + TimeText(t)));
    DimensionHere(c, word, lower, "AS", "as", s);
    SkipSpaced("OF", " " + TimeText(t));
    KeywordHere(c.(rest := s), "OF", "of", " " + TimeText(t));
    SkipOneSpace(TimeText(t));
    LastTime(c.(rest := " " + TimeText(t)), t);
  }

  lemma DimensionBetween(c: Cursor, word: string, lower: string, dimension: Dimension, a: Time, b: Time)
    requires Spells(word, lower) && Printable(a) && Printable(b)
    requires c.rest == word + (" " + ("BETWEEN" + (" " + (TimeText(a) + (" " + ("AND" + (" " + TimeText(b))))))))
    ensures Whole(DimensionClause(c, lower, dimension), Between(dimension, a, b), c.error)
    ensures Word(c.rest) == lower && Skip(c.rest) == c.rest
  {
    Keywords();
    LongestKeywords();
    var tail := TimeText(a) + (" " + ("AND" + (" " + TimeText(b))));
    DimensionHere(c, word, lower, "BETWEEN", "between", " " + tail);
    SkipOneSpace(tail);
    var d := c.(rest := " " + tail);
    TwoTimes(d, a, "AND", "and", b);
    LastTime(Keyword(ParseTime(d).1, "and"), b);
  }

  // ---------------------------------------------------------------- the round trip

  /** Present times that read back, and a dimension only where the parser takes one (by the shape of the clause). */
  ghost predicate PrintableClause(c: Clause) {
    match c
    case AsOf(_, t) => t.Some? && Printable(t.value)
    case AtTime(t) => t.Some? && Printable(t.value)
    case Between(_, a, b) => Printable(a) && Printable(b)
    case FromTo(a, b) => Printable(a) && Printable(b)
    case ContainedIn(_, _) => false
    case During(a, b) => Printable(a) && Printable(b)
    case AllVersions => true
    case Version(k) => k.Some? && 0 <= k.value <= INT64_MAX
  }

  function FirstWord(c: Clause): string {
    match c
    case AsOf(d, _) => if d.NoDimension? then "as" else if d.System? then "system" else "valid"
    case AtTime(_) => "at"
    case Between(d, _, _) => if d.NoDimension? then "between" else if d.System? then "system" else "valid"
    case FromTo(_, _) => "from"
    case ContainedIn(_, _) => ""
    case During(_, _) => "during"
    case AllVersions => "all"
    case Version(_) => "version"
  }

  lemma AsOfShape(t: string)
    ensures "" + "AS OF " + t == "AS" + (" " + ("OF" + (" " + t)))
    ensures "AT TIME " + t == "AT" + (" " + ("TIME" + (" " + t)))
  {
  }

  lemma BetweenShape(a: string, b: string)
    ensures "" + "BETWEEN " + a + " AND " + b == "BETWEEN" + (" " + (a + (" " + ("AND" + (" " + b)))))
  {
  }

  /** SYSTEM and VALID in front of a clause. */
  lemma DimensionShape(d: Dimension, word: string, text: string, s: string)
    requires DimensionText(d) == word + " " && "" + text == s
    ensures DimensionText(d) + text == word + (" " + s)
  {
  }

  lemma SystemSpelled()
    ensures Spells("SYSTEM", "system") && DimensionText(System) == "SYSTEM" + " "
  {
  }

  lemma ValidSpelled()
    ensures Spells("VALID", "valid") && DimensionText(Valid) == "VALID" + " "
  {
  }

  lemma ByDimension(c: Cursor)
    ensures ByWord(c, "system") == DimensionClause(c, "system", System)
    ensures ByWord(c, "valid") == DimensionClause(c, "valid", Valid)
  {
  }

  lemma DimensionAsOfShape(d: Dimension, word: string, t: Option<Time>)
    requires DimensionText(d) == word + " "
    ensures ClauseText(AsOf(d, t)) == word + (" " + ("AS" + (" " + ("OF" + (" " + OptionalText(t))))))
  {
    AsOfShape(OptionalText(t));
    DimensionShape(d, word, "AS OF " + OptionalText(t), "AS" + (" " + ("OF" + (" " + OptionalText(t)))));
  }

  lemma DimensionBetweenShape(d: Dimension, word: string, a: Time, b: Time)
    requires DimensionText(d) == word + " "
    ensures ClauseText(Between(d, a, b)) ==
            word + (" " + ("BETWEEN" + (" " + (TimeText(a) + (" " + ("AND" + (" " + TimeText(b))))))))
  {
    BetweenShape(TimeText(a), TimeText(b));
    BetweenGrouped(DimensionText(d), "BETWEEN ", TimeText(a), " AND ", TimeText(b));
    DimensionShape(d, word, "BETWEEN " + TimeText(a) + " AND " + TimeText(b),
                   "BETWEEN" + (" " + (TimeText(a) + (" " + ("AND" + (" " + TimeText(b)))))));
  }

  lemma BetweenGrouped(d: string, k: string, a: string, m: string, b: string)
    ensures d + k + a + m + b == d + (k + a + m + b) && "" + k + a + m + b == k + a + m + b == "" + (k + a + m + b)
  {
  }

  lemma PeriodShape(a: string, b: string)
    ensures "FROM " + a + " TO " + b == "FROM" + (" " + (a + (" " + ("TO" + (" " + b)))))
    ensures "DURING PERIOD(" + a + ", " + b + ")" == "DURING"
            + (" " + ("PERIOD" + ("(" + (a + ("," + (" " + (b + ")")))))))
  {
  }

  lemma VersionShape(k: string)
    ensures "ALL VERSIONS" == "ALL" + (" " + "VERSIONS") && "VERSION " + k == "VERSION" + (" " + k)
  {
  }

  lemma AsOfText(text: string, t: Time, error: string)
    requires Printable(t)
    requires text == ClauseText(AsOf(NoDimension, Some(t)))
    ensures ReadsAs(Cursor(text, error), "as", AsOf(NoDimension, Some(t)))
  {
    AsOfShape(TimeText(t));
    AsOfReads(Cursor(text, error), t);
  }

  lemma SystemAsOfText(text: string, t: Time, error: string)
    requires Printable(t)
    requires text == ClauseText(AsOf(System, Some(t)))
    ensures ReadsAs(Cursor(text, error), "system", AsOf(System, Some(t)))
  {
    SystemSpelled();
    DimensionAsOfShape(System, "SYSTEM", Some(t));
    DimensionAsOf(Cursor(text, error), "SYSTEM", "system", System, t);
    ByDimension(Cursor(text, error));
  }

  lemma ValidAsOfText(text: string, t: Time, error: string)
    requires Printable(t)
    requires text == ClauseText(AsOf(Valid, Some(t)))
    ensures ReadsAs(Cursor(text, error), "valid", AsOf(Valid, Some(t)))
  {
    ValidSpelled();
    DimensionAsOfShape(Valid, "VALID", Some(t));
    DimensionAsOf(Cursor(text, error), "VALID", "valid", Valid, t);
    ByDimension(Cursor(text, error));
  }

  lemma AtTimeText(text: string, t: Time, error: string)
    requires Printable(t)
    requires text == ClauseText(AtTime(Some(t)))
    ensures ReadsAs(Cursor(text, error), "at", AtTime(Some(t)))
  {
    AsOfShape(TimeText(t));
    AtTimeReads(Cursor(text, error), t);
  }

  lemma BetweenText(text: string, a: Time, b: Time, error: string)
    requires Printable(a) && Printable(b)
    requires text == ClauseText(Between(NoDimension, a, b))
    ensures ReadsAs(Cursor(text, error), "between", Between(NoDimension, a, b))
  {
    BetweenShape(TimeText(a), TimeText(b));
    BetweenReads(Cursor(text, error), a, b);
  }

  lemma SystemBetweenText(text: string, a: Time, b: Time, error: string)
    requires Printable(a) && Printable(b)
    requires text == ClauseText(Between(System, a, b))
    ensures ReadsAs(Cursor(text, error), "system", Between(System, a, b))
  {
    SystemSpelled();
    DimensionBetweenShape(System, "SYSTEM", a, b);
    DimensionBetween(Cursor(text, error), "SYSTEM", "system", System, a, b);
    ByDimension(Cursor(text, error));
  }

  lemma ValidBetweenText(text: string, a: Time, b: Time, error: string)
    requires Printable(a) && Printable(b)
    requires text == ClauseText(Between(Valid, a, b))
    ensures ReadsAs(Cursor(text, error), "valid", Between(Valid, a, b))
  {
    ValidSpelled();
    DimensionBetweenShape(Valid, "VALID", a, b);
    DimensionBetween(Cursor(text, error), "VALID", "valid", Valid, a, b);
    ByDimension(Cursor(text, error));
  }

  lemma FromToText(text: string, a: Time, b: Time, error: string)
    requires Printable(a) && Printable(b)
    requires text == ClauseText(FromTo(a, b))
    ensures ReadsAs(Cursor(text, error), "from", FromTo(a, b))
  {
    PeriodShape(TimeText(a), TimeText(b));
    FromToReads(Cursor(text, error), a, b);
  }

  lemma DuringText(text: string, a: Time, b: Time, error: string)
    requires Printable(a) && Printable(b)
    requires text == ClauseText(During(a, b))
    ensures ReadsAs(Cursor(text, error), "during", During(a, b))
  {
    PeriodShape(TimeText(a), TimeText(b));
    DuringReads(Cursor(text, error), a, b);
  }

  lemma AllVersionsText(text: string, error: string)
    requires text == ClauseText(AllVersions)
    ensures ReadsAs(Cursor(text, error), "all", AllVersions)
  {
    VersionShape("");
    AllVersionsReads(Cursor(text, error));
  }

  lemma VersionText(text: string, k: nat, error: string)
    requires k <= INT64_MAX && text == ClauseText(Version(Some(k)))
    ensures ReadsAs(Cursor(text, error), "version", Version(Some(k)))
  {
    VersionShape(Numeral(k));
    VersionReads(Cursor(text, error), k);
  }

  lemma ClauseReads(c: Clause, error: string)
    requires PrintableClause(c)
    ensures ReadsAs(Cursor(ClauseText(c), error), FirstWord(c), c)
  {
    var text := ClauseText(c);
    match c {
      case AsOf(NoDimension, t) => AsOfText(text, t.value, error);
      case AsOf(System, t) => SystemAsOfText(text, t.value, error);
      case AsOf(Valid, t) => ValidAsOfText(text, t.value, error);
      case AtTime(t) => AtTimeText(text, t.value, error);
      case Between(NoDimension, a, b) => BetweenText(text, a, b, error);
      case Between(System, a, b) => SystemBetweenText(text, a, b, error);
      case Between(Valid, a, b) => ValidBetweenText(text, a, b, error);
      case FromTo(a, b) => FromToText(text, a, b, error);
      case During(a, b) => DuringText(text, a, b, error);
      case AllVersions => AllVersionsText(text, error);
      case Version(k) => VersionText(text, k.value, error);
    }
  }

  /** Parsing the text of a clause gives the clause, sets no error and leaves only blanks. */
  lemma ParsePrint(c: Clause, error: string)
    requires PrintableClause(c)
    ensures Whole(ParseClause(Cursor(ClauseText(c), error)), c, error)
  {
    ClauseReads(c, error);
    Dispatched(Cursor(ClauseText(c), error), FirstWord(c));
  }
}
