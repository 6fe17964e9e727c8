/** The part of `std::getline` and `std::istringstream` that the manifest reader relies on. */
module TextStream {
  import opened Decimal

  predicate NoSpace(s: string) {
    forall i :: 0 <= i < |s| ==> !IsSpace(s[i])
  }

  /** Characters that are single bytes. */
  predicate Narrow(s: string) {
    forall i :: 0 <= i < |s| ==> s[i] as int < 256
  }

  // ---------------------------------------------------------------- lines

  function FirstIndex(s: string, c: char): (i: nat)
    ensures i <= |s|
    ensures c !in s[..i]
    ensures i < |s| ==> s[i] == c
  {
    if s == [] || s[0] == c then 0 else 1 + FirstIndex(s[1..], c)
  }

  /** The lines that successive calls of `std::getline` return. */
  function Lines(s: string): seq<string>
    decreases |s|
  {
    if s == [] then []
    else var i := FirstIndex(s, '\n');
         if i == |s| then [s] else [s[..i]] + Lines(s[i + 1..])
  }

  lemma {:induction false} FirstIndexAfter(a: string, c: char, rest: string)
    requires c !in a
    ensures FirstIndex(a + [c] + rest, c) == |a|
  {
    if a != [] {
      assert (a + [c] + rest)[1..] == a[1..] + [c] + rest;
      FirstIndexAfter(a[1..], c, rest);
    }
  }

  lemma LinesStep(line: string, rest: string)
    requires '\n' !in line
    ensures Lines(line + "\n" + rest) == [line] + Lines(rest)
  {
    var s := line + "\n" + rest;
    FirstIndexAfter(line, '\n', rest);
    assert s[..|line|] == line && s[|line| + 1..] == rest;
  }

  /** Lines with their terminators, one after the other. */
  function Unlines(lines: seq<string>): string {
    if lines == [] then "" else lines[0] + "\n" + Unlines(lines[1..])
  }

  lemma {:induction false} LinesUnlines(lines: seq<string>)
    requires forall i :: 0 <= i < |lines| ==> '\n' !in lines[i]
    ensures Lines(Unlines(lines)) == lines
  {
    if lines != [] {
      LinesUnlines(lines[1..]);
      LinesStep(lines[0], Unlines(lines[1..]));
    }
  }

  // ---------------------------------------------------------------- fields of a line

  /** What is left of a line, and whether an extraction has failed. */
  datatype Stream = Stream(rest: string, good: bool)

  function WordLength(s: string): (n: nat)
    ensures n <= |s|
  {
    if s == [] || IsSpace(s[0]) then 0 else 1 + WordLength(s[1..])
  }

  /** `in >> word`: a failed extraction leaves the old value in place. */
  function ReadWord(in_: Stream, old_: string): (r: (string, Stream))
  {
    var s := SkipSpace(in_.rest);
    if !in_.good || s == [] then (old_, Stream(in_.rest, false))
    else (s[..WordLength(s)], Stream(s[WordLength(s)..], true))
  }

  /** `in >> number` for an unsigned type with largest value `max`: an optional sign, then digits; no digits give
      zero and a value out of range gives `max`, both with the failure flag. */
  function ReadNumber(in_: Stream, old_: nat, max: nat): (r: (nat, Stream))
  {
    var s := SkipSpace(in_.rest);
    if !in_.good || s == [] then (old_, Stream(in_.rest, false))
    else
      var t := if s[0] == '-' || s[0] == '+' then s[1..] else s;
      var n := DigitCount(t);
      var v := Number(t[..n]);
      if n == 0 then (0, Stream(t, false))
      else if v > max then (max, Stream(t[n..], false))
      else (if s[0] == '-' && v != 0 then max + 1 - v else v, Stream(t[n..], true))
  }

  /** The end of a word: nothing, or white space. */
  predicate Delimited(rest: string) {
    rest == [] || IsSpace(rest[0])
  }

  lemma {:induction false} WordLengthOf(w: string, rest: string)
    requires NoSpace(w) && Delimited(rest)
    ensures WordLength(w + rest) == |w|
  {
    if w != [] {
      assert (w + rest)[1..] == w[1..] + rest;
      WordLengthOf(w[1..], rest);
    }
  }

  lemma ReadWordAt(w: string, rest: string, old_: string)
    requires w != [] && NoSpace(w) && Delimited(rest)
    ensures ReadWord(Stream(w + rest, true), old_) == (w, Stream(rest, true))
    ensures ReadWord(Stream(" " + (w + rest), true), old_) == (w, Stream(rest, true))
  {
    WordLengthOf(w, rest);
    assert (" " + (w + rest))[1..] == w + rest;
    assert (w + rest)[..|w|] == w && (w + rest)[|w|..] == rest;
  }

  lemma ReadNumberAt(n: nat, rest: string, old_: nat, max: nat)
    requires n <= max && Delimited(rest)
    ensures ReadNumber(Stream(" " + (Numeral(n) + rest), true), old_, max) == (n, Stream(rest, true))
  {
    var d := Numeral(n);
    DigitCountOf(d, rest);
    NumberNumeral(n);
    assert (" " + (d + rest))[1..] == d + rest;
    assert (d + rest)[0] == d[0] && IsDigit(d[0]);
    assert SkipSpace(" " + (d + rest)) == SkipSpace(d + rest) == d + rest;
    assert (d + rest)[..|d|] == d && (d + rest)[|d|..] == rest;
  }
}
