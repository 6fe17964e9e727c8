/** Base64 with padding (section 4 of RFC 4648), src/client/jwt_manager.cc. Masks and shifts of bytes are written as
    quotients and remainders. */
module Base64 {
  import opened TextStream

  const PAD: char := '='

  /** The alphabet. */
  function Symbol(v: nat): (c: char)
    requires v < 64
    ensures c != PAD && c != '.'
  {
    if v < 26 then 'A' + v as char
    else if v < 52 then 'a' + (v - 26) as char
    else if v < 62 then '0' + (v - 52) as char
    else if v == 62 then '+'
    else '/'
  }

  /** The place in the alphabet, and 255 for a character that is not in it. */
  function Index(c: char): (v: nat)
    ensures v < 64 || v == 255
  {
    if 'A' <= c <= 'Z' then c as int - 'A' as int
    else if 'a' <= c <= 'z' then c as int - 'a' as int + 26
    else if '0' <= c <= '9' then c as int - '0' as int + 52
    else if c == '+' then 62
    else if c == '/' then 63
    else 255
  }

  lemma SymbolIndex(v: nat)
    requires v < 64
    ensures Index(Symbol(v)) == v
  {
  }

  function Code(c: char): nat { c as int }

  // ---------------------------------------------------------------- three bytes as four symbols

  /** The four six-bit parts of three bytes. */
  function Part(a: nat, b: nat, c: nat, i: nat): (v: nat)
    requires a < 256 && b < 256 && c < 256 && i < 4
    ensures v < 64
  {
    if i == 0 then a / 4
    else if i == 1 then a % 4 * 16 + b / 16
    else if i == 2 then b % 16 * 4 + c / 64
    else c % 64
  }

  /** The three bytes of four parts. */
  function Byte(w: nat, x: nat, y: nat, z: nat, i: nat): (b: nat)
    requires i < 3
    ensures b < 256
  {
    if i == 0 then (w * 4 + x / 16 % 4) % 256
    else if i == 1 then (x % 16 * 16 + y / 4 % 16) % 256
    else (y % 4 * 64 + z) % 256
  }

  lemma PartsMakeBytes(a: nat, b: nat, c: nat)
    requires a < 256 && b < 256 && c < 256
    ensures var w, x, y, z := Part(a, b, c, 0), Part(a, b, c, 1), Part(a, b, c, 2), Part(a, b, c, 3);
            Byte(w, x, y, z, 0) == a && Byte(w, x, y, z, 1) == b && Byte(w, x, y, z, 2) == c
  {
    FirstByte(a, b);
    SecondByte(a, b, c);
    ThirdByte(b, c);
  }

  lemma FirstByte(a: nat, b: nat)
    requires a < 256 && b < 256
    ensures (a / 4 * 4 + (a % 4 * 16 + b / 16) / 16 % 4) % 256 == a
  {
    assert (a % 4 * 16 + b / 16) / 16 == a % 4;
  }

  lemma SecondByte(a: nat, b: nat, c: nat)
    requires a < 256 && b < 256 && c < 256
    ensures ((a % 4 * 16 + b / 16) % 16 * 16 + (b % 16 * 4 + c / 64) / 4 % 16) % 256 == b
  {
    assert (a % 4 * 16 + b / 16) % 16 == b / 16;
    assert (b % 16 * 4 + c / 64) / 4 == b % 16;
  }

  lemma ThirdByte(b: nat, c: nat)
    requires b < 256 && c < 256
    ensures ((b % 16 * 4 + c / 64) % 4 * 64 + c % 64) % 256 == c
  {
    assert (b % 16 * 4 + c / 64) % 4 == c / 64;
  }

  // ---------------------------------------------------------------- encoding

  function Quad(a: nat, b: nat, c: nat): (t: string)
    requires a < 256 && b < 256 && c < 256
    ensures |t| == 4
  {
    [Symbol(Part(a, b, c, 0)), Symbol(Part(a, b, c, 1)), Symbol(Part(a, b, c, 2)), Symbol(Part(a, b, c, 3))]
  }

  /** The symbols of a text: two for a last byte alone, three for two last bytes. */
  function Symbols(s: string): string
    requires Narrow(s)
  {
    if s == "" then ""
    else if |s| == 1 then Quad(Code(s[0]), 0, 0)[..2]
    else if |s| == 2 then Quad(Code(s[0]), Code(s[1]), 0)[..3]
    else Quad(Code(s[0]), Code(s[1]), Code(s[2])) + Symbols(s[3..])
  }

  /** One character for each byte missing in the last group of three. */
  function Padding(n: nat): (p: string)
    ensures p in {"", "=", "=="}
  {
    if n == 0 then "" else if n == 1 then "==" else if n == 2 then "=" else Padding(n - 3)
  }

  function Encode(s: string): string
    requires Narrow(s)
  {
    Symbols(s) + Padding(|s|)
  }

  // ---------------------------------------------------------------- decoding

  function Triple(w: char, x: char, y: char, z: char): (s: string)
    ensures |s| == 3
  {
    var a, b, c, d := Index(w), Index(x), Index(y), Index(z);
    [Byte(a, b, c, d, 0) as char, Byte(a, b, c, d, 1) as char, Byte(a, b, c, d, 2) as char]
  }

  /** Groups of four; a last group of two or three symbols yields one byte less than it has symbols. */
  function Bytes(t: string): string {
    if |t| < 2 then ""
    else if |t| == 2 then Triple(t[0], t[1], 'A', 'A')[..1]
    else if |t| == 3 then Triple(t[0], t[1], t[2], 'A')[..2]
    else Triple(t[0], t[1], t[2], t[3]) + Bytes(t[4..])
  }

  function Unpadded(t: string): string { if t == "" || t[0] == PAD then "" else [t[0]] + Unpadded(t[1..]) }

  function Decode(t: string): string { Bytes(Unpadded(t)) }

  // ---------------------------------------------------------------- round trip

  lemma TripleQuad(a: nat, b: nat, c: nat)
    requires a < 256 && b < 256 && c < 256
    ensures var q := Quad(a, b, c); Triple(q[0], q[1], q[2], q[3]) == [a as char, b as char, c as char]
  {
    SymbolIndex(Part(a, b, c, 0));
    SymbolIndex(Part(a, b, c, 1));
    SymbolIndex(Part(a, b, c, 2));
    SymbolIndex(Part(a, b, c, 3));
    PartsMakeBytes(a, b, c);
  }

  lemma SymbolZero()
    ensures Symbol(0) == 'A'
  {
  }

  lemma {:induction false} BytesSymbolsStep(s: string)
    requires Narrow(s) && |s| > 2 && Bytes(Symbols(s[3..])) == s[3..]
    ensures Bytes(Symbols(s)) == s
  {
    var q, rest := Quad(Code(s[0]), Code(s[1]), Code(s[2])), Symbols(s[3..]);
    TripleQuad(Code(s[0]), Code(s[1]), Code(s[2]));
    BytesOfGroup(q, rest);
    assert s == [s[0], s[1], s[2]] + s[3..];
  }

  lemma {:induction false} BytesSymbols(s: string)
    requires Narrow(s)
    ensures Bytes(Symbols(s)) == s
    decreases |s|
  {
    SymbolZero();
    if |s| == 1 {
      TripleQuad(Code(s[0]), 0, 0);
    } else if |s| == 2 {
      TripleQuad(Code(s[0]), Code(s[1]), 0);
    } else if |s| > 2 {
      BytesSymbols(s[3..]);
      BytesSymbolsStep(s);
    }
  }

  /** Neither padding nor a dot. */
  ghost predicate Plain(t: string) { forall i :: 0 <= i < |t| ==> t[i] != PAD && t[i] != '.' }

  lemma {:induction false} SymbolsPlain(s: string)
    requires Narrow(s)
    ensures Plain(Symbols(s))
    decreases |s|
  {
    if |s| > 2 { SymbolsPlain(s[3..]); }
  }

  lemma {:induction false} UnpaddedPlain(t: string, pad: string)
    requires Plain(t) && (pad == "" || pad[0] == PAD)
    ensures Unpadded(t + pad) == t
    decreases |t|
  {
    if t == "" {
      assert t + pad == pad;
    } else {
      assert (t + pad)[1..] == t[1..] + pad;
      UnpaddedPlain(t[1..], pad);
      assert t == [t[0]] + t[1..];
    }
  }

  /** Decoding what was encoded gives it back, for every string of bytes. */
  lemma {:induction false} DecodeEncode(s: string)
    requires Narrow(s)
    ensures Decode(Encode(s)) == s
  {
    SymbolsPlain(s);
    UnpaddedPlain(Symbols(s), Padding(|s|));
    BytesSymbols(s);
  }

  /** An encoded text has no dot. */
  lemma EncodeHasNoDot(s: string)
    requires Narrow(s)
    ensures forall i :: 0 <= i < |Encode(s)| ==> Encode(s)[i] != '.'
  {
    SymbolsPlain(s);
  }

  // ---------------------------------------------------------------- loops

  lemma NarrowParts(s: string, t: string)
    requires Narrow(s + t)
    ensures Narrow(s) && Narrow(t)
  {
    assert forall i :: 0 <= i < |s| ==> s[i] == (s + t)[i];
    assert forall i :: 0 <= i < |t| ==> t[i] == (s + t)[|s| + i];
  }

  lemma SymbolsOfGroup(group: string, rest: string)
    requires |group| == 3 && Narrow(group + rest)
    ensures Narrow(group) && Narrow(rest)
    ensures Encode(group + rest) == Quad(Code(group[0]), Code(group[1]), Code(group[2])) + Encode(rest)
  {
    NarrowParts(group, rest);
    assert (group + rest)[3..] == rest;
  }

  /** The symbols so far and those of what is left. */
  ghost predicate Encoding(result: string, group: string, rest: string, all: string) {
    Narrow(all) && Narrow(group + rest) && result + Encode(group + rest) == Encode(all)
  }

  lemma EncodingStarts(all: string)
    requires Narrow(all)
    ensures Encoding("", "", all, all)
  {
    assert "" + all == all;
  }

  lemma EncodingTakes(result: string, group: string, rest: string, all: string)
    requires Encoding(result, group, rest, all) && rest != ""
    ensures Encoding(result, group + [rest[0]], rest[1..], all)
  {
    assert group + rest == (group + [rest[0]]) + rest[1..];
  }

  lemma EncodingFlushes(result: string, group: string, rest: string, all: string)
    requires Encoding(result, group, rest, all) && |group| == 3
    ensures Narrow(group)
    ensures Encoding(result + Quad(Code(group[0]), Code(group[1]), Code(group[2])), "", rest, all)
  {
    SymbolsOfGroup(group, rest);
    assert "" + rest == rest;
  }

  /** `Base64Encode`: bytes are collected in a group of three. */
  method EncodeLoop(input: string) returns (result: string)
    requires Narrow(input)
    ensures result == Encode(input)
  {
    var group, k := "", 0;
    result := "";
    EncodingStarts(input);
    while k < |input|
      invariant 0 <= k <= |input| && |group| < 3
      invariant Encoding(result, group, input[k..], input)
    {
      EncodingTakes(result, group, input[k..], input);
      group := group + [input[k]];
      k := k + 1;
      if |group| == 3 {
        EncodingFlushes(result, group, input[k..], input);
        result := result + Quad(Code(group[0]), Code(group[1]), Code(group[2]));
        group := "";
      }
    }
    assert group + input[k..] == group;
    var tail := EncodeTail(group);
    result := result + tail;
  }

  /** The last one or two bytes, and the padding. */
  method EncodeTail(group: string) returns (tail: string)
    requires Narrow(group) && |group| < 3
    ensures tail == Encode(group)
  {
    if group == "" { return ""; }
    var b, i := if |group| == 2 then Code(group[1]) else 0, |group|;
    tail := Quad(Code(group[0]), b, 0)[..i + 1];
    while i < 3
      invariant |group| <= i <= 3
      invariant tail + (if i == 1 then "==" else if i == 2 then "=" else "") == Encode(group)
    {
      tail := tail + [PAD];
      i := i + 1;
    }
  }

  lemma BytesOfGroup(group: string, rest: string)
    requires |group| == 4
    ensures Bytes(group + rest) == Triple(group[0], group[1], group[2], group[3]) + Bytes(rest)
  {
    assert (group + rest)[4..] == rest;
  }

  ghost predicate Decoding(result: string, group: string, rest: string, all: string) {
    result + Bytes(group + Unpadded(rest)) == Decode(all)
  }

  lemma DecodingStarts(all: string)
    ensures Decoding("", "", all, all)
  {
    assert "" + Unpadded(all) == Unpadded(all);
  }

  lemma DecodingTakes(result: string, group: string, rest: string, all: string)
    requires Decoding(result, group, rest, all) && rest != "" && rest[0] != PAD
    ensures Decoding(result, group + [rest[0]], rest[1..], all)
  {
    assert group + Unpadded(rest) == (group + [rest[0]]) + Unpadded(rest[1..]);
  }

  lemma DecodingFlushes(result: string, group: string, rest: string, all: string)
    requires Decoding(result, group, rest, all) && |group| == 4
    ensures Decoding(result + Triple(group[0], group[1], group[2], group[3]), "", rest, all)
  {
    BytesOfGroup(group, Unpadded(rest));
    assert "" + Unpadded(rest) == Unpadded(rest);
  }

  lemma DecodingEnds(result: string, group: string, rest: string, all: string)
    requires Decoding(result, group, rest, all) && (rest == "" || rest[0] == PAD)
    ensures result + Bytes(group) == Decode(all)
  {
    assert group + Unpadded(rest) == group;
  }

  /** `Base64Decode`: symbols are collected in a group of four, up to the first padding character. */
  method DecodeLoop(input: string) returns (result: string)
    ensures result == Decode(input)
  {
    var group, k := "", 0;
    result := "";
    DecodingStarts(input);
    while k < |input| && input[k] != PAD
      invariant 0 <= k <= |input| && |group| < 4
      invariant Decoding(result, group, input[k..], input)
    {
      DecodingTakes(result, group, input[k..], input);
      group := group + [input[k]];
      k := k + 1;
      if |group| == 4 {
        DecodingFlushes(result, group, input[k..], input);
        result := result + Triple(group[0], group[1], group[2], group[3]);
        group := "";
      }
    }
    DecodingEnds(result, group, input[k..], input);
    if |group| > 1 {
      var last := if |group| == 3 then group[2] else 'A';
      result := result + Triple(group[0], group[1], last, 'A')[..|group| - 1];
    }
  }
}
