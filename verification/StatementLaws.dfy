/** What can be said of every parsed statement: what an accepted one cannot hold, and whose temporal clause it has. */
module StatementLaws {
  import opened Decimal
  import opened Grammar
  import opened Scanners
  import opened Statements
  import opened Syntax
  import opened Wrappers
  import R = TemporalRoundTrip
  import T = Temporal
  import TemporalProgress
  import V = Values

  // ---------------------------------------------------------------- accepted statements

  /** Without an error, and so read to the end of the input. */
  predicate Accepts(c: Cursor, size: nat) { ParseStatement(c, size).cursor == Cursor("", "") }

  predicate NoSubquery(s: Statement) {
    forall i :: 0 <= i < |s.clauses| ==> NoSubqueryIn(s.clauses[i])
  }

  predicate NoSubqueryIn(c: Clause) { !c.Subquery? && (c.Union? ==> NoSubquery(c.right)) }

  predicate NoneIn(cs: seq<Clause>) {
    forall i :: 0 <= i < |cs| ==> NoSubqueryIn(cs[i])
  }

  lemma {:induction false} ClausesHaveNone(c: Cursor, size: nat, done: seq<Clause>, temporal: Option<T.Clause>)
    requires NoneIn(done) && Clauses(c, size, done, temporal).cursor.error == ""
    ensures NoSubquery(Clauses(c, size, done, temporal).statement)
    decreases |c.rest|, 1
  {
    if c.rest != "" {
      var s := ClauseAt(Blank(c), size);
      var more := if s.clause.Some? then done + [s.clause.value] else done;
      var latest := if s.taken.Some? then s.taken.value else temporal;
      StepHasNone(Blank(c), size);
      if !s.stop { ClausesHaveNone(Blank(s.cursor), size, more, latest); }
    }
  }

  lemma {:induction false} StepHasNone(c: Cursor, size: nat)
    ensures var s := ClauseAt(c, size); s.cursor.error == "" && s.clause.Some? ==> NoSubqueryIn(s.clause.value)
    decreases |c.rest|, 0
  {
    var word := Word(c.rest);
    var d := Keyword(c, word);
    if word == "union" && UnionRest(d, size).cursor.error == "" { UnionHasNone(d, size); }
  }

  lemma {:induction false} UnionHasNone(c: Cursor, size: nat)
    requires UnionRest(c, size).cursor.error == ""
    ensures NoSubqueryIn(UnionRest(c, size).clause.value)
    decreases |c.rest|, 3
  {
    AcceptedHasNoSubquery(Keyword(Blank(c), "all"), size);
  }

  /** No accepted query holds a subquery: the inner statement ends at the brace with an error. */
  lemma {:induction false} AcceptedHasNoSubquery(c: Cursor, size: nat)
    requires ParseStatement(c, size).cursor.error == ""
    ensures NoSubquery(ParseStatement(c, size).statement)
    decreases |c.rest|, 2
  {
    var b := Blank(c);
    TemporalProgress.ClauseOnward(b);
    var (temporal, d) := T.ParseClause(b);
    ClausesHaveNone(Blank(d), size, [], temporal);
  }

  /** A clause that is CALL with a brace. */
  predicate CallsHere(c: Cursor) { Word(c.rest) == "call" && IsSymbol(Blank(Keyword(c, "call")), '{') }

  /** The loop meets one. */
  predicate Calls(c: Cursor, size: nat)
    decreases |c.rest|
  {
    c.rest != "" &&
    var s := ClauseAt(Blank(c), size);
    CallsHere(Blank(c)) || (!s.stop && Calls(Blank(s.cursor), size))
  }

  /** Whatever the braces hold, a query with a CALL and a brace among its clauses is refused. */
  lemma {:induction false} CallRefused(c: Cursor, size: nat, done: seq<Clause>, t: Option<T.Clause>)
    requires Calls(c, size)
    ensures Clauses(c, size, done, t).cursor.error != ""
    decreases |c.rest|
  {
    var s := ClauseAt(Blank(c), size);
    var more := if s.clause.Some? then done + [s.clause.value] else done;
    var latest := if s.taken.Some? then s.taken.value else t;
    if CallsHere(Blank(c)) {
      CallSteps(Blank(c), size);
    } else {
      CallRefused(Blank(s.cursor), size, more, latest);
    }
  }

  lemma CallSteps(c: Cursor, size: nat)
    requires CallsHere(c)
    ensures ClauseAt(c, size).cursor.error != ""
  {
    assert FIRST_WORDS[17] == "call";
    var d := Keyword(c, "call");
    assert StepRest(d, size, "call") == CallRest(d, size);
    assert CallRest(d, size).clause.Some?;
  }

  lemma CallSpelled()
    ensures R.Spells("CALL", "call")
  {
  }

  /** `CALL {` with anything behind it, such as `CALL {}`. */
  lemma CallBraceRefused(s: string)
    ensures var c := Cursor("CALL" + (" " + ("{" + s)), ""); !Accepts(c, |c.rest|)
  {
    var c := Cursor("CALL" + (" " + ("{" + s)), "");
    CallSpelled();
    R.SkipNothing(c.rest);
    R.KeywordHere(c, "CALL", "call", " " + ("{" + s));
    R.SkipOneSpace("{" + s);
    R.SkipNothing("{" + s);
    SkipTwice(" " + ("{" + s));
    R.SymbolHere(Blank(Keyword(c, "call")), '{', s);
    NotTemporal(c);
    CallRefused(c, |c.rest|, [], None);
  }

  lemma NotTemporal(c: Cursor)
    requires c.rest != "" && Skip(c.rest) == c.rest && Word(c.rest) == "call"
    ensures T.ParseClause(c) == (None, c)
  {
    R.PassedBy(c, "call");
    R.PassedByToo(c, "call");
    R.PassedByLast(c, "call");
  }

  // ---------------------------------------------------------------- the temporal clause

  /** A clause that parses another statement: UNION, or CALL with a brace. */
  predicate NestsHere(c: Cursor) {
    Word(c.rest) == "union" || (Word(c.rest) == "call" && IsSymbol(Blank(Keyword(c, "call")), '{'))
  }

  lemma TakesExactly(c: Cursor, size: nat)
    ensures ClauseAt(c, size).taken.Some? <==> NestsHere(c)
  {
  }

  /** The loop meets such a clause. */
  predicate Nests(c: Cursor, size: nat)
    decreases |c.rest|
  {
    c.rest != "" &&
    var s := ClauseAt(Blank(c), size);
    NestsHere(Blank(c)) || (!s.stop && Nests(Blank(s.cursor), size))
  }

  lemma {:induction false} ClausesTemporal(c: Cursor, size: nat, done: seq<Clause>, t: Option<T.Clause>)
    ensures Clauses(c, size, done, t).statement.temporal ==
            if Nests(c, size) then Clauses(c, size, done, None).statement.temporal else t
    decreases |c.rest|
  {
    if c.rest != "" {
      var s := ClauseAt(Blank(c), size);
      TakesExactly(Blank(c), size);
      var more := if s.clause.Some? then done + [s.clause.value] else done;
      if !s.stop && s.taken.None? { ClausesTemporal(Blank(s.cursor), size, more, t); }
    }
  }

  /** A query keeps the temporal clause it begins with, whichever that is, if and only if it holds no other query:
      the parser has one place for temporal clauses. */
  lemma TemporalKeptExactly(c: Cursor, size: nat, done: seq<Clause>)
    ensures (forall t :: Clauses(c, size, done, t).statement.temporal == t) <==> !Nests(c, size)
  {
    forall t
      ensures !Nests(c, size) ==> Clauses(c, size, done, t).statement.temporal == t
    {
      ClausesTemporal(c, size, done, t);
    }
    if Nests(c, size) {
      ClausesTemporal(c, size, done, None);
      ClausesTemporal(c, size, done, Some(T.AllVersions));
      assert Clauses(c, size, done, None).statement.temporal
          == Clauses(c, size, done, Some(T.AllVersions)).statement.temporal;
    }
  }

  // ---------------------------------------------------------------- a clause that is lost

  lemma AllVersionsThen(c: Cursor, s: string)
    requires c.rest == "ALL" + (" " + ("VERSIONS" + s)) && (s == "" || !IsAlpha(s[0]))
    ensures T.ParseClause(c) == (Some(T.AllVersions), c.(rest := s)) && Skip(c.rest) == c.rest
  {
    R.Keywords();
    R.LongestKeywords();
    R.SkipNothing(c.rest);
    R.KeywordHere(c, "ALL", "all", " " + ("VERSIONS" + s));
    R.SkipSpaced("VERSIONS", s);
    SkipTwice(" " + ("VERSIONS" + s));
    R.KeywordHere(T.Blank(Keyword(c, "all")), "VERSIONS", "versions", s);
    R.Dispatched(c, "all");
  }

  lemma EmptyStatement(size: nat)
    ensures ParseStatement(Cursor("", ""), size) == Result(Statement([], None), Cursor("", ""))
  {
    assert Skip("") == "";
    assert T.ParseClause(Cursor("", "")) == (None, Cursor("", ""));
  }

  lemma UnionSpelled()
    ensures R.Spells("UNION", "union")
  {
  }

  lemma UnionAtEnd(c: Cursor, size: nat, done: seq<Clause>, t: Option<T.Clause>)
    requires c == Cursor("UNION", "")
    ensures Clauses(c, size, done, t) == Result(Statement(done + [Union(false, Statement([], None))], None),
            Cursor("", ""))
  {
    UnionSpelled();
    R.SkipNothing("UNION");
    assert "UNION" + "" == "UNION";
    R.KeywordHere(c, "UNION", "union", "");
    assert FIRST_WORDS[16] == "union";
    UnionOfNothing(size);
    assert Blank(Cursor("", "")) == Cursor("", "");
  }

  lemma UnionOfNothing(size: nat)
    ensures UnionRest(Cursor("", ""), size) ==
            Step(Some(Union(false, Statement([], None))), Cursor("", ""), Some(None), false)
  {
    assert Skip("") == "" && Word("") == "";
    EmptyStatement(size);
  }

  /** A query that is accepted and has lost its ALL VERSIONS. */
  lemma UnionLosesTemporal()
    ensures var c := Cursor("ALL" + (" " + ("VERSIONS" + (" " + "UNION"))), "");
            T.ParseClause(c).0 == Some(T.AllVersions) && Accepts(c, |c.rest|)
                && ParseStatement(c, |c.rest|).statement.temporal == None
  {
    var c := Cursor("ALL" + (" " + ("VERSIONS" + (" " + "UNION"))), "");
    AllVersionsThen(c, " " + "UNION");
    UnionSpelled();
    assert "UNION" + "" == "UNION";
    R.SkipSpaced("UNION", "");
    UnionAtEnd(Cursor("UNION", ""), |c.rest|, [], Some(T.AllVersions));
  }

  // ---------------------------------------------------------------- numbers

  function Pow10(k: nat): nat { if k == 0 then 1 else 10 * Pow10(k - 1) }

  lemma {:induction false} FractionExactly(d: string, s: string, b: nat)
    requires AllDigits(d)
    ensures var k := DigitCount(s);
            AllDigits(d + s[..k]) && Fraction(s, Number(d), b) == (Number(d + s[..k]), b * Pow10(k), s[k..])
    decreases |s|
  {
    if s == "" || !IsDigit(s[0]) {
      assert d + s[..0] == d;
    } else {
      var k := DigitCount(s);
      NumberLast(d, s[0]);
      FractionExactly(d + [s[0]], s[1..], b * 10);
      assert s[..k] == [s[0]] + s[1..][..k - 1];
      assert d + s[..k] == (d + [s[0]]) + s[1..][..k - 1];
      assert s[1..][k - 1..] == s[k..];
      Regroup(b, Pow10(k - 1));
    }
  }

  lemma Regroup(b: nat, p: nat)
    ensures (b * 10) * p == b * (10 * p)
  {
  }

  lemma FractionAt(s: string)
    ensures var j := DigitCount(s); Fraction(s, 0, 1) == (Number(s[..j]), Pow10(j), s[j..])
  {
    FractionExactly("", s, 1);
    assert "" + s[..DigitCount(s)] == s[..DigitCount(s)];
  }

  lemma DigitsAt(s: string)
    ensures var k := DigitCount(s);
            if Number(s[..k]) <= INT64_MAX then Digits(s, 0) == (Some(Number(s[..k])), s[k..]) else Digits(s, 0).0.None?
  {
    DigitsExact("", s);
    assert "" + s[..DigitCount(s)] == s[..DigitCount(s)];
  }

  /** The number literal of an expression: read exactly if its integer part fits, else null and an error. */
  lemma NumberExactly(c: Cursor)
    requires IsDigit(Peek(c.rest))
    ensures var k := DigitCount(c.rest);
            var n, after := Number(c.rest[..k]), c.rest[k..];
            var r := NumberLiteral(c);
            if n > INT64_MAX then r.0 == Some(Literal(V.Null)) && r.1.error == "Integer literal overflow"
            else if Peek(after) != '.' then r == (Some(Literal(V.Int(n))), c.(rest := after))
            else
              var j := DigitCount(after[1..]);
              r == (Some(Literal(DecimalValue(false, n, Number(after[1..][..j]), Pow10(j)))),
                    c.(rest := after[1..][j..]))
  {
    var after := c.rest[DigitCount(c.rest)..];
    DigitsAt(c.rest);
    if Peek(after) == '.' { FractionAt(after[1..]); }
  }
}
