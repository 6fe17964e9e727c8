/** The token layer of src/cypher/parser.cc. A cursor is the input still to be read and the last error. */
module Scanners {
  import opened Decimal
  import opened Wrappers

  datatype Cursor = Cursor(rest: string, error: string)

  /** d is no further back than c, and no error is forgotten. */
  predicate Onward(c: Cursor, d: Cursor) {
    |d.rest| <= |c.rest| && (c.error != "" ==> d.error != "")
  }

  const INT64_MAX: nat := 0x7FFF_FFFF_FFFF_FFFF
  const INT64_MIN: int := -0x8000_0000_0000_0000

  /** C's `isalpha` and `tolower` on the ASCII range. */
  predicate IsAlpha(c: char) { 'a' <= c <= 'z' || 'A' <= c <= 'Z' }

  predicate IsWordChar(c: char) { IsAlpha(c) || IsDigit(c) || c == '_' }

  function ToLower(c: char): char { if 'A' <= c <= 'Z' then c + 32 as char else c }

  function Lower(s: string): (l: string)
    ensures |l| == |s|
  {
    seq(|s|, i requires 0 <= i < |s| => ToLower(s[i]))
  }

  function Peek(s: string): char { if s == "" then '\0' else s[0] }

  /** `Advance`, without the character. */
  function Advanced(c: Cursor): (d: Cursor)
    ensures Onward(c, d) && d.error == c.error && (c.rest != "" ==> |d.rest| < |c.rest|)
  {
    c.(rest := if c.rest == "" then "" else c.rest[1..])
  }

  // ---------------------------------------------------------------- blanks

  function SkipLine(s: string): (t: string)
    ensures |t| <= |s| && (s != "" && s[0] != '\n' ==> |t| < |s|)
  {
    if s == "" || s[0] == '\n' then s else SkipLine(s[1..])
  }

  predicate Comment(s: string) { |s| >= 2 && s[0] == '/' && s[1] == '/' }

  /** White space and `//` comments. */
  function Skip(s: string): (t: string)
    ensures |t| <= |s|
    decreases |s|
  {
    var t := SkipSpace(s);
    if Comment(t) then Skip(SkipLine(t)) else t
  }

  // ---------------------------------------------------------------- words

  /** The letters that s starts with. */
  function Letters(s: string): (n: nat)
    ensures n <= |s|
  {
    if s == "" || !IsAlpha(s[0]) then 0 else 1 + Letters(s[1..])
  }

  function WordChars(s: string): (n: nat)
    ensures n <= |s|
  {
    if s == "" || !IsWordChar(s[0]) then 0 else 1 + WordChars(s[1..])
  }

  /** The word in lower case that a keyword is compared with. */
  function Word(s: string): string { Lower(Skip(s)[..Letters(Skip(s))]) }

  function AfterWord(s: string): string { Skip(s)[Letters(Skip(s))..] }

  predicate IsKeyword(c: Cursor, keyword: string) { Word(c.rest) == keyword }

  /** A keyword that is not there leaves the cursor behind the blanks. */
  function Keyword(c: Cursor, keyword: string): (d: Cursor)
    ensures Onward(c, d) && d.error == c.error
    ensures IsKeyword(c, keyword) && keyword != "" ==> |d.rest| < |c.rest|
  {
    c.(rest := if IsKeyword(c, keyword) then AfterWord(c.rest) else Skip(c.rest))
  }

  predicate IsSymbol(c: Cursor, symbol: char) { Skip(c.rest) != "" && Skip(c.rest)[0] == symbol }

  function Symbol(c: Cursor, symbol: char): (d: Cursor)
    ensures Onward(c, d) && d.error == c.error && (IsSymbol(c, symbol) ==> |d.rest| < |c.rest|)
  {
    c.(rest := if IsSymbol(c, symbol) then Skip(c.rest)[1..] else Skip(c.rest))
  }

  function Expect(c: Cursor, symbol: char): (d: Cursor)
    ensures Onward(c, d) && (IsSymbol(c, symbol) ==> |d.rest| < |c.rest|) && (!IsSymbol(c, symbol) ==> d.error != "")
  {
    if IsSymbol(c, symbol) then Symbol(c, symbol) else Cursor(Skip(c.rest), "Expected symbol: " + [symbol])
  }

  function ExpectWord(c: Cursor, keyword: string): (d: Cursor)
    ensures Onward(c, d)
  {
    if IsKeyword(c, keyword) then Keyword(c, keyword) else Cursor(Skip(c.rest), "Expected keyword: " + keyword)
  }

  /** The length of the identifier s starts with. */
  function IdentLength(s: string): (n: nat)
    ensures n <= |s|
  {
    if s != "" && (IsAlpha(s[0]) || s[0] == '_') then WordChars(s) else 0
  }

  function Identifier(c: Cursor): (r: (string, Cursor))
    ensures Onward(c, r.1) && r.1.error == c.error && (r.0 != "" ==> |r.1.rest| < |c.rest|)
  {
    var s := Skip(c.rest);
    (s[..IdentLength(s)], c.(rest := s[IdentLength(s)..]))
  }

  // ---------------------------------------------------------------- strings

  function Unescape(c: char): char { if c == 'n' then '\n' else if c == 't' then '\t' else if c == 'r' then '\r'
                    else c }

  /** The characters up to the closing quote, and what follows them, the quote included. */
  function Quoted(s: string, quote: char): (r: (string, string))
    ensures |r.1| <= |s|
  {
    if s == "" || s[0] == quote then ("", s)
    else if s[0] != '\\' then var r := Quoted(s[1..], quote); ([s[0]] + r.0, r.1)
    else if |s| == 1 then ("", "")
    else var r := Quoted(s[2..], quote); ([Unescape(s[1])] + r.0, r.1)
  }

  function StringLiteral(c: Cursor): (r: (string, Cursor))
    ensures Onward(c, r.1) && (Peek(Skip(c.rest)) in {'\'', '"'} ==> |r.1.rest| < |c.rest|)
  {
    var s := Skip(c.rest);
    if Peek(s) != '\'' && Peek(s) != '"' then ("", c.(rest := s))
    else
      var (value, after) := Quoted(s[1..], s[0]);
      if after != "" then (value, c.(rest := after[1..])) else (value, Cursor("", "Unclosed string literal"))
  }

  // ---------------------------------------------------------------- integers

  /** Digit after digit until the value would not fit; None is an overflow. */
  function Digits(s: string, value: nat): (r: (Option<nat>, string))
    ensures |r.1| <= |s| && (s != "" && IsDigit(s[0]) ==> |r.1| < |s|)
  {
    if s == "" || !IsDigit(s[0]) then (Some(value), s)
    else if value > (INT64_MAX - DigitValue(s[0])) / 10 then (None, s[1..])
    else Digits(s[1..], value * 10 + DigitValue(s[0]))
  }

  function Integer(c: Cursor): (r: (int, Cursor))
    ensures Onward(c, r.1)
  {
    var s := Skip(c.rest);
    var negative := Peek(s) == '-';
    var (value, after) := Digits(if negative then s[1..] else s, 0);
    var sign: int := if negative then -1 else 1;
    if value.None? then (if negative then INT64_MIN else INT64_MAX, Cursor(after, "Integer literal overflows int64_t"))
    else (sign * value.value, c.(rest := after))
  }

  lemma {:induction false} NumberLast(d: string, c: char)
    requires AllDigits(d) && IsDigit(c)
    ensures AllDigits(d + [c]) && Number(d + [c]) == 10 * Number(d) + DigitValue(c)
  {
    assert (d + [c])[..|d|] == d;
  }

  lemma {:induction false} NumberGrows(d: string, e: string)
    requires AllDigits(d) && AllDigits(e)
    ensures AllDigits(d + e) && Number(d + e) >= Number(d)
    decreases |e|
  {
    if e == "" {
      assert d + e == d;
    } else {
      NumberGrows(d, e[..|e| - 1]);
      assert d + e == (d + e[..|e| - 1]) + [e[|e| - 1]];
      NumberLast(d + e[..|e| - 1], e[|e| - 1]);
    }
  }

  /** A literal is read if and only if its value is at most INT64_MAX, and then it is the value. */
  lemma {:induction false} DigitsExact(d: string, s: string)
    requires AllDigits(d) && Number(d) <= INT64_MAX
    ensures AllDigits(d + s[..DigitCount(s)])
    ensures var n := Number(d + s[..DigitCount(s)]);
            var r := Digits(s, Number(d));
            if n <= INT64_MAX then r == (Some(n), s[DigitCount(s)..]) else r.0.None?
    decreases |s|
  {
    if s == "" || !IsDigit(s[0]) {
      assert d + s[..0] == d;
    } else {
      var k := DigitCount(s);
      NumberLast(d, s[0]);
      assert s[..k] == [s[0]] + s[1..][..k - 1];
      assert d + s[..k] == (d + [s[0]]) + s[1..][..k - 1];
      if Number(d + [s[0]]) <= INT64_MAX {
        DigitsExact(d + [s[0]], s[1..]);
        assert s[1..][k - 1..] == s[k..];
      } else {
        NumberGrows(d + [s[0]], s[1..][..k - 1]);
      }
    }
  }

  // ---------------------------------------------------------------- the scanner

  /** `CypherParser`, reduced to what moves along the input. */
  class Scanner {
    const input: string
    var pos: nat
    var error: string

    ghost predicate Valid()
      reads this
    {
      pos <= |input|
    }

    ghost function View(): Cursor
      requires Valid()
      reads this
    {
      Cursor(input[pos..], error)
    }

    constructor (input: string)
      ensures Valid() && this.input == input && View() == Cursor(input, "")
    {
      this.input, pos, error := input, 0, "";
    }

    function Next(): (c: char)
      requires Valid()
      reads this
      ensures c == Peek(View().rest)
    {
      if pos < |input| then input[pos] else '\0'
    }

    method Advance()
      requires Valid()
      modifies this
      ensures Valid() && View() == old(Advanced(View()))
    {
      if pos < |input| { pos := pos + 1; }
    }

    method SkipWhitespace()
      requires Valid()
      modifies this
      ensures Valid() && View() == old(View().(rest := SkipSpace(View().rest)))
    {
      while pos < |input| && IsSpace(input[pos])
        invariant Valid() && error == old(error)
        invariant SkipSpace(input[pos..]) == old(SkipSpace(input[pos..]))
      {
        pos := pos + 1;
      }
    }

    method SkipToLineEnd()
      requires Valid()
      modifies this
      ensures Valid() && View() == old(View().(rest := SkipLine(View().rest)))
    {
      while pos < |input| && input[pos] != '\n'
        invariant Valid() && error == old(error)
        invariant SkipLine(input[pos..]) == old(SkipLine(input[pos..]))
      {
        pos := pos + 1;
      }
    }

    method SkipBlanks()
      requires Valid()
      modifies this
      ensures Valid() && View() == old(View().(rest := Skip(View().rest)))
    {
      SkipSpaceTwice(input[pos..]);
      SkipWhitespace();
      while pos + 1 < |input| && input[pos] == '/' && input[pos + 1] == '/'
        invariant Valid() && error == old(error) && SkipSpace(input[pos..]) == input[pos..]
        invariant Skip(input[pos..]) == old(Skip(input[pos..]))
        decreases |input| - pos
      {
        ghost var here := input[pos..];
        SkipToLineEnd();
        SkipWhitespace();
        SkipSpaceTwice(SkipLine(here));
      }
    }

    method MatchKeyword(keyword: string) returns (found: bool)
      requires Valid()
      modifies this
      ensures Valid() && found == old(IsKeyword(View(), keyword)) && View() == old(Keyword(View(), keyword))
    {
      SkipBlanks();
      var word, end := ReadLetters(input, pos);
      Slices(input, pos, end);
      found := word == keyword;
      if found { pos := end; }
    }

    method MatchSymbol(symbol: char) returns (found: bool)
      requires Valid()
      modifies this
      ensures Valid() && found == old(IsSymbol(View(), symbol)) && View() == old(Symbol(View(), symbol))
    {
      SkipBlanks();
      found := pos < |input| && input[pos] == symbol;
      if found { pos := pos + 1; }
    }

    method ExpectSymbol(symbol: char)
      requires Valid()
      modifies this
      ensures Valid() && View() == old(Expect(View(), symbol))
    {
      var found := MatchSymbol(symbol);
      if !found { error := "Expected symbol: " + [symbol]; }
    }

    method ExpectKeyword(keyword: string)
      requires Valid()
      modifies this
      ensures Valid() && View() == old(ExpectWord(View(), keyword))
    {
      var found := MatchKeyword(keyword);
      if !found { error := "Expected keyword: " + keyword; }
    }

    method ParseIdentifier() returns (ident: string)
      requires Valid()
      modifies this
      ensures Valid() && (ident, View()) == old(Identifier(View()))
    {
      SkipBlanks();
      ident := "";
      if pos < |input| && (IsAlpha(input[pos]) || input[pos] == '_') {
        var end := ReadWordChars(input, pos);
        Slices(input, pos, end);
        ident, pos := input[pos..end], end;
      }
    }

    method ParseStringLiteral() returns (value: string)
      requires Valid()
      modifies this
      ensures Valid() && (value, View()) == old(StringLiteral(View()))
    {
      SkipBlanks();
      var quote := Next();
      if quote != '\'' && quote != '"' { return ""; }
      value, pos := ReadQuoted(input, pos + 1, quote);
      if pos < |input| { pos := pos + 1; } else { error := "Unclosed string literal"; }
    }

    method ParseInteger() returns (result: int)
      requires Valid()
      modifies this
      ensures Valid() && (result, View()) == old(Integer(View()))
    {
      SkipBlanks();
      var negative := pos < |input| && input[pos] == '-';
      if negative { pos := pos + 1; }
      var value;
      value, pos := ReadDigits(input, pos);
      if value.None? {
        error := "Integer literal overflows int64_t";
        return if negative then INT64_MIN else INT64_MAX;
      }
      var n: int := value.value;
      result := if negative then -n else n;
    }
  }

  // ---------------------------------------------------------------- loops

  method ReadLetters(input: string, from: nat) returns (word: string, end: nat)
    requires from <= |input|
    ensures end == from + Letters(input[from..]) && end <= |input| && word == Lower(input[from..end])
  {
    word, end := "", from;
    while end < |input| && IsAlpha(input[end])
      invariant from <= end <= |input| && end + Letters(input[end..]) == from + Letters(input[from..])
      invariant word == Lower(input[from..end])
    {
      assert input[from..end + 1] == input[from..end] + [input[end]];
      word := word + [ToLower(input[end])];
      end := end + 1;
    }
  }

  method ReadWordChars(input: string, from: nat) returns (end: nat)
    requires from <= |input|
    ensures end == from + WordChars(input[from..]) && end <= |input|
  {
    end := from;
    while end < |input| && IsWordChar(input[end])
      invariant from <= end <= |input| && end + WordChars(input[end..]) == from + WordChars(input[from..])
    {
      end := end + 1;
    }
  }

  /** s and t have the same rest, and the quoted text of s starts with value. */
  ghost predicate QuotedSoFar(s: string, quote: char, value: string, t: string) {
    Quoted(s, quote).0 == value + Quoted(t, quote).0 && Quoted(s, quote).1 == Quoted(t, quote).1
  }

  lemma QuotedPlain(s: string, quote: char, value: string, t: string)
    requires QuotedSoFar(s, quote, value, t) && t != "" && t[0] != quote && t[0] != '\\'
    ensures QuotedSoFar(s, quote, value + [t[0]], t[1..])
  {
  }

  lemma QuotedEscape(s: string, quote: char, value: string, t: string)
    requires QuotedSoFar(s, quote, value, t) && |t| > 1 && t[0] != quote && t[0] == '\\'
    ensures QuotedSoFar(s, quote, value + [Unescape(t[1])], t[2..])
  {
  }

  lemma QuotedEnds(s: string, quote: char, value: string, t: string)
    requires QuotedSoFar(s, quote, value, t) && (t == "" || t[0] == quote)
    ensures Quoted(s, quote) == (value, t)
  {
    assert value + "" == value;
  }

  lemma QuotedBreaksOff(s: string, quote: char, value: string, t: string)
    requires QuotedSoFar(s, quote, value, t) && |t| == 1 && t[0] != quote && t[0] == '\\'
    ensures QuotedSoFar(s, quote, value, "")
  {
  }

  method ReadQuoted(input: string, from: nat, quote: char) returns (value: string, end: nat)
    requires from <= |input|
    ensures from <= end <= |input| && Quoted(input[from..], quote) == (value, input[end..])
  {
    value, end := "", from;
    ghost var s := input[from..];
    assert "" + Quoted(s, quote).0 == Quoted(s, quote).0;
    while end < |input| && input[end] != quote
      invariant from <= end <= |input| && QuotedSoFar(s, quote, value, input[end..])
    {
      ghost var t := input[end..];
      if input[end] == '\\' {
        end := end + 1;
        if end < |input| {
          QuotedEscape(s, quote, value, t);
          value := value + [Unescape(input[end])];
          end := end + 1;
        } else {
          QuotedBreaksOff(s, quote, value, t);
        }
      } else {
        QuotedPlain(s, quote, value, t);
        value := value + [input[end]];
        end := end + 1;
      }
    }
    QuotedEnds(s, quote, value, input[end..]);
  }

  method ReadDigits(input: string, from: nat) returns (value: Option<nat>, end: nat)
    requires from <= |input|
    ensures from <= end <= |input| && Digits(input[from..], 0) == (value, input[end..])
  {
    var n: nat := 0;
    end := from;
    while end < |input| && IsDigit(input[end])
      invariant from <= end <= |input| && Digits(input[from..], 0) == Digits(input[end..], n)
    {
      var digit := DigitValue(input[end]);
      end := end + 1;
      if n > (INT64_MAX - digit) / 10 { return None, end; }
      n := n * 10 + digit;
    }
    value := Some(n);
  }

  lemma Slices(s: string, from: nat, end: nat)
    requires from <= end <= |s|
    ensures s[from..end] == s[from..][..end - from] && s[end..] == s[from..][end - from..]
  {
  }

  lemma {:induction false} SkipSpaceTwice(s: string)
    ensures SkipSpace(SkipSpace(s)) == SkipSpace(s) && Skip(SkipSpace(s)) == Skip(s)
    decreases |s|
  {
    if s != "" && IsSpace(s[0]) { SkipSpaceTwice(s[1..]); }
  }

  lemma {:induction false} SkipTwice(s: string)
    ensures Skip(Skip(s)) == Skip(s)
    decreases |s|
  {
    var t := SkipSpace(s);
    SkipSpaceTwice(s);
    if Comment(t) { SkipTwice(SkipLine(t)); }
  }
}
