/** Tokens of src/client/jwt_manager.cc, laid out as in section 7.1 of RFC 7515 but in padded Base64: header, payload
    and signature joined by dots. */
module AccessTokens {
  import opened Base64
  import opened Decimal
  import opened TextStream
  import opened Wrappers

  const INT64_MAX: nat := 0x7FFF_FFFF_FFFF_FFFF

  // ---------------------------------------------------------------- finding

  predicate Starts(s: string, pattern: string) { |pattern| <= |s| && s[..|pattern|] == pattern }

  /** What follows the first occurrence of the pattern. */
  function Behind(s: string, pattern: string): Option<string> {
    if Starts(s, pattern) then Some(s[|pattern|..])
    else if s == "" then None
    else Behind(s[1..], pattern)
  }

  /** What comes before the first c. */
  function UpTo(s: string, c: char): Option<string> {
    if s == "" then None
    else if s[0] == c then Some("")
    else
      var t := UpTo(s[1..], c);
      if t.None? then None else Some([s[0]] + t.value)
  }

  // ---------------------------------------------------------------- JSON fields

  const QUOTE: string := "\""

  function StringPattern(key: string): string { QUOTE + (key + (QUOTE + (":" + QUOTE))) }

  function NumberPattern(key: string): string { QUOTE + (key + (QUOTE + ":")) }

  /** `ExtractJsonString`. */
  function StringField(json: string, key: string): string {
    var s := Behind(json, StringPattern(key));
    if s.None? then "" else var t := UpTo(s.value, '"'); if t.None? then "" else t.value
  }

  /** `ExtractJsonInt64`: digits whose number fits. */
  function NumberField(json: string, key: string): Option<nat> {
    var s := Behind(json, NumberPattern(key));
    if s.None? then None
    else
      var d := s.value[..DigitCount(s.value)];
      if d == "" || Number(d) > INT64_MAX then None else Some(Number(d))
  }

  // ---------------------------------------------------------------- quoted texts

  /** No quote. */
  predicate Unquoted(s: string) { forall i :: 0 <= i < |s| ==> s[i] != '"' }

  lemma {:induction false} UpToQuote(s: string, rest: string)
    requires Unquoted(s)
    ensures UpTo(s + (QUOTE + rest), '"') == Some(s)
    decreases |s|
  {
    if s == "" {
      assert s + (QUOTE + rest) == QUOTE + rest;
    } else {
      assert (s + (QUOTE + rest))[1..] == s[1..] + (QUOTE + rest);
      UpToQuote(s[1..], rest);
      assert s == [s[0]] + s[1..];
    }
  }

  /** Two quoted texts, with something behind each, start alike only if they are the same. */
  lemma {:induction false} SameQuoted(s: string, x: string, t: string, y: string)
    requires Unquoted(s) && Unquoted(t) && Starts(s + (QUOTE + x), t + (QUOTE + y))
    ensures s == t && Starts(x, y)
    decreases |s|
  {
    var a, b := s + (QUOTE + x), t + (QUOTE + y);
    assert a[0] == b[0] by { assert a[..|b|][0] == b[0]; }
    if s == "" || t == "" {
      assert s == "" && t == "";
      assert a == QUOTE + x && b == QUOTE + y;
      assert x[..|y|] == a[..|b|][1..] == b[1..] == y;
    } else {
      assert a[1..] == s[1..] + (QUOTE + x) && b[1..] == t[1..] + (QUOTE + y);
      assert a[1..][..|b| - 1] == a[..|b|][1..];
      SameQuoted(s[1..], x, t[1..], y);
      assert s == [s[0]] + s[1..] && t == [t[0]] + t[1..];
    }
  }

  lemma {:induction false} StartsQuoted(s: string, x: string, y: string)
    requires Starts(x, y)
    ensures Starts(s + x, s + y) && (s + x)[|s + y|..] == x[|y|..]
  {
    assert (s + x)[..|s + y|] == s + x[..|y|];
  }

  lemma StartsAlike(s: string, pattern: string)
    requires s != "" && pattern != ""
    ensures Starts(s, pattern) ==> s[0] == pattern[0]
  {
    if Starts(s, pattern) { assert s[..|pattern|][0] == pattern[0]; }
  }

  /** A pattern that starts with a quote does not start inside a text without one. */
  lemma {:induction false} BehindUnquoted(s: string, rest: string, pattern: string)
    requires Unquoted(s) && pattern != "" && pattern[0] == '"'
    ensures Behind(s + rest, pattern) == Behind(rest, pattern)
    decreases |s|
  {
    if s == "" {
      assert s + rest == rest;
    } else {
      assert (s + rest)[1..] == s[1..] + rest;
      StartsAlike(s + rest, pattern);
      BehindUnquoted(s[1..], rest, pattern);
    }
  }

  /** A quoted text that is not the key, or is not followed as the key is, is passed by. */
  lemma {:induction false} BehindQuoted(s: string, x: string, key: string, y: string)
    requires Unquoted(s) && Unquoted(key) && (s != key || !Starts(x, y))
    ensures Behind(QUOTE + (s + (QUOTE + x)), QUOTE + (key + (QUOTE + y)))
            == Behind(QUOTE + x, QUOTE + (key + (QUOTE + y)))
  {
    var text, pattern := QUOTE + (s + (QUOTE + x)), QUOTE + (key + (QUOTE + y));
    assert text[1..] == s + (QUOTE + x) && pattern[1..] == key + (QUOTE + y);
    assert !Starts(text, pattern) by {
      if Starts(text, pattern) {
        assert text[1..][..|pattern| - 1] == text[..|pattern|][1..] == pattern[1..];
        SameQuoted(s, x, key, y);
      }
    }
    BehindUnquoted(s, QUOTE + x, pattern);
  }

  /** The key itself, followed as the pattern says. */
  lemma {:induction false} BehindKey(key: string, x: string, y: string)
    requires Starts(x, y)
    ensures Behind(QUOTE + (key + (QUOTE + x)), QUOTE + (key + (QUOTE + y))) == Some(x[|y|..])
  {
    StartsQuoted(QUOTE, x, y);
    StartsQuoted(key, QUOTE + x, QUOTE + y);
    StartsQuoted(QUOTE, key + (QUOTE + x), key + (QUOTE + y));
  }

  // ---------------------------------------------------------------- objects

  datatype Field = Str(key: string, value: string) | Num(key: string, number: int)

  /** A field and what follows it. */
  function FieldText(f: Field, rest: string): string {
    match f
    case Str(k, v) => QUOTE + (k + (QUOTE + (":" + (QUOTE + (v + (QUOTE + rest))))))
    case Num(k, n) => QUOTE + (k + (QUOTE + (":" + (Signed(n) + rest))))
  }

  /** The fields separated by commas, and the closing brace. */
  function Fields(fs: seq<Field>): string
    requires fs != []
  {
    FieldText(fs[0], if |fs| == 1 then "}" else "," + Fields(fs[1..]))
  }

  /** A field whose texts hold no quote, under a key that starts with neither `:` nor `,`. */
  predicate Tame(f: Field) { TameKey(f.key) && (f.Str? ==> Unquoted(f.value)) }

  predicate TameKey(k: string) { Unquoted(k) && k != "" && k[0] != ':' && k[0] != ',' }

  function Pattern(key: string, y: string): string { QUOTE + (key + (QUOTE + y)) }

  lemma SignedUnquoted(n: int)
    ensures Unquoted(Signed(n))
  {
  }

  lemma Differs(s: string, key: string)
    requires s != "" && (s[0] == ':' || s[0] == ',') && TameKey(key)
    ensures s != key
  {
  }

  lemma CommaFirst(r: string, y: string)
    requires y != "" && y[0] == ':'
    ensures !Starts("," + r, y)
  {
    StartsAlike("," + r, y);
  }

  lemma {:induction false} SkipString(k: string, v: string, r: string, key: string, y: string)
    requires Tame(Str(k, v)) && TameKey(key) && k != key && y != "" && y[0] == ':'
    ensures Behind(FieldText(Str(k, v), "," + (QUOTE + r)), Pattern(key, y)) == Behind(QUOTE + r, Pattern(key, y))
  {
    var rest := "," + (QUOTE + r);
    BehindQuoted(k, ":" + (QUOTE + (v + (QUOTE + rest))), key, y);
    Differs(":", key);
    BehindQuoted(":", v + (QUOTE + rest), key, y);
    CommaFirst(QUOTE + r, y);
    BehindQuoted(v, rest, key, y);
    Differs(",", key);
    BehindQuoted(",", r, key, y);
  }

  lemma {:induction false} SkipNumber(k: string, n: int, r: string, key: string, y: string)
    requires Tame(Num(k, n)) && TameKey(key) && k != key
    ensures Behind(FieldText(Num(k, n), "," + (QUOTE + r)), Pattern(key, y)) == Behind(QUOTE + r, Pattern(key, y))
  {
    var between := ":" + (Signed(n) + ",");
    SignedUnquoted(n);
    assert ":" + (Signed(n) + ("," + (QUOTE + r))) == between + (QUOTE + r);
    BehindQuoted(k, between + (QUOTE + r), key, y);
    Differs(between, key);
    BehindQuoted(between, r, key, y);
  }

  lemma {:induction false} SkipField(fs: seq<Field>, key: string, y: string)
    requires |fs| > 1 && Tame(fs[0]) && TameKey(key) && fs[0].key != key && y != "" && y[0] == ':'
    ensures Behind(Fields(fs), Pattern(key, y)) == Behind(Fields(fs[1..]), Pattern(key, y))
  {
    var more := Fields(fs[1..]);
    assert more[0] == '"';
    assert more == QUOTE + more[1..];
    match fs[0]
    case Str(k, v) => SkipString(k, v, more[1..], key, y);
    case Num(k, n) => SkipNumber(k, n, more[1..], key, y);
  }

  /** The keys before place i are others. */
  ghost predicate FirstAt(fs: seq<Field>, i: nat) {
    i < |fs| && (forall j :: 0 <= j < |fs| ==> Tame(fs[j])) && forall j :: 0 <= j < i ==> fs[j].key != fs[i].key
  }

  lemma {:induction false} BehindField(fs: seq<Field>, i: nat, y: string)
    requires FirstAt(fs, i) && y != "" && y[0] == ':'
    ensures Behind(Fields(fs), Pattern(fs[i].key, y)) == Behind(Fields(fs[i..]), Pattern(fs[i].key, y))
    decreases i
  {
    if i == 0 {
      assert fs[0..] == fs;
    } else {
      SkipField(fs, fs[i].key, y);
      assert fs[1..][i - 1] == fs[i] && fs[1..][i - 1..] == fs[i..];
      assert FirstAt(fs[1..], i - 1) by {
        assert forall j :: 0 <= j < |fs| - 1 ==> fs[1..][j] == fs[j + 1];
      }
      BehindField(fs[1..], i - 1, y);
    }
  }

  function Object(fs: seq<Field>): string
    requires fs != []
  {
    "{" + Fields(fs)
  }

  /** What follows field i. */
  function FollowingText(fs: seq<Field>, i: nat): string
    requires i < |fs|
  {
    if i + 1 == |fs| then "}" else "," + Fields(fs[i + 1..])
  }

  /** The pattern of a key is found at its field. */
  lemma {:induction false} BehindObject(fs: seq<Field>, i: nat, y: string)
    requires FirstAt(fs, i) && y != "" && y[0] == ':'
    ensures Behind(Object(fs), Pattern(fs[i].key, y)) ==
            Behind(FieldText(fs[i], FollowingText(fs, i)), Pattern(fs[i].key, y))
  {
    BehindUnquoted("{", Fields(fs), Pattern(fs[i].key, y));
    BehindField(fs, i, y);
    assert fs[i..][1..] == fs[i + 1..];
  }

  lemma {:induction false} ValueBehind(k: string, v: string, rest: string)
    requires Unquoted(v)
    ensures Behind(FieldText(Str(k, v), rest), Pattern(k, ":" + QUOTE)) == Some(v + (QUOTE + rest))
  {
    var x, y := ":" + (QUOTE + (v + (QUOTE + rest))), ":" + QUOTE;
    assert x == y + (v + (QUOTE + rest));
    BehindKey(k, x, y);
    assert x[|y|..] == v + (QUOTE + rest);
  }

  lemma {:induction false} StringFieldOf(fs: seq<Field>, i: nat)
    requires FirstAt(fs, i) && fs[i].Str?
    ensures StringField(Object(fs), fs[i].key) == fs[i].value
  {
    var k, v, rest := fs[i].key, fs[i].value, FollowingText(fs, i);
    BehindObject(fs, i, ":" + QUOTE);
    ValueBehind(k, v, rest);
    UpToQuote(v, rest);
  }

  lemma {:induction false} NumberBehind(k: string, n: int, rest: string)
    ensures Behind(FieldText(Num(k, n), rest), Pattern(k, ":")) == Some(Signed(n) + rest)
  {
    var x := ":" + (Signed(n) + rest);
    BehindKey(k, x, ":");
    assert x[1..] == Signed(n) + rest;
  }

  lemma {:induction false} NumberFieldOf(fs: seq<Field>, i: nat)
    requires FirstAt(fs, i) && fs[i].Num?
    ensures NumberField(Object(fs), fs[i].key) == if 0 <= fs[i].number <= INT64_MAX then Some(fs[i].number) else None
  {
    var k, n, rest := fs[i].key, fs[i].number, FollowingText(fs, i);
    BehindObject(fs, i, ":");
    NumberBehind(k, n, rest);
    if n >= 0 {
      DigitCountOf(Numeral(n), rest);
      assert (Numeral(n) + rest)[..|Numeral(n)|] == Numeral(n);
      NumberNumeral(n);
    } else {
      assert (Signed(n) + rest)[0] == '-';
    }
  }

  // ---------------------------------------------------------------- tokens

  /** A string of bytes. */
  type ByteString = s: string | Narrow(s)

  datatype Config = Config(secret: ByteString, issuer: ByteString, audience: ByteString, lifetime: int)

  datatype Claims = Claims(user: string, name: string, issuer: string, audience: string, issued: nat, expires: nat)

  /** HMAC-SHA-256: key and data to digest. */
  type Mac = (string, string) -> ByteString

  /** Clock ticks in a second. */
  const TICKS: nat := 1000000000

  const HEADER: seq<Field> := [Str("alg", "HS256"), Str("typ", "JWT")]

  function Payload(c: Config, user: ByteString, name: ByteString, now: nat): seq<Field> {
    [Str("sub", user), Str("name", name), Str("iss", c.issuer), Str("aud", c.audience), Num("iat", now / TICKS),
     Num("exp", now / TICKS + c.lifetime)]
  }

  function Sign(mac: Mac, c: Config, header: string, payload: string): string {
    var digest := mac(c.secret, header + "." + payload);
    if digest == "" then "" else Encode(digest)
  }

  lemma NarrowConcat(s: string, t: string)
    requires Narrow(s) && Narrow(t)
    ensures Narrow(s + t)
  {
  }

  lemma FieldNarrow(f: Field, rest: string)
    requires Narrow(f.key) && (f.Str? ==> Narrow(f.value)) && Narrow(rest)
    ensures Narrow(FieldText(f, rest))
  {
    assert Narrow(QUOTE) && Narrow(":");
    if f.Str? {
      NarrowConcat(QUOTE, rest);
      NarrowConcat(f.value, QUOTE + rest);
      NarrowConcat(QUOTE, f.value + (QUOTE + rest));
      NarrowConcat(":", QUOTE + (f.value + (QUOTE + rest)));
      KeyNarrow(f.key, ":" + (QUOTE + (f.value + (QUOTE + rest))));
    } else {
      SignedNarrow(f.number);
      NarrowConcat(Signed(f.number), rest);
      NarrowConcat(":", Signed(f.number) + rest);
      KeyNarrow(f.key, ":" + (Signed(f.number) + rest));
    }
  }

  lemma KeyNarrow(k: string, rest: string)
    requires Narrow(k) && Narrow(rest)
    ensures Narrow(QUOTE + (k + (QUOTE + rest)))
  {
    assert Narrow(QUOTE);
    NarrowConcat(QUOTE, rest);
    NarrowConcat(k, QUOTE + rest);
  }

  lemma {:induction false} FieldsNarrow(fs: seq<Field>)
    requires fs != [] && forall i :: 0 <= i < |fs| ==> Narrow(fs[i].key) && (fs[i].Str? ==> Narrow(fs[i].value))
    ensures Narrow(Fields(fs))
    decreases |fs|
  {
    assert Narrow("}") && Narrow(",");
    if |fs| > 1 {
      FieldsNarrow(fs[1..]);
      NarrowConcat(",", Fields(fs[1..]));
    }
    FieldNarrow(fs[0], if |fs| == 1 then "}" else "," + Fields(fs[1..]));
  }

  lemma SignedNarrow(n: int)
    ensures Narrow(Signed(n))
  {
  }

  lemma HeaderNarrow()
    ensures Narrow(Object(HEADER))
  {
    assert Narrow("alg") && Narrow("HS256") && Narrow("typ") && Narrow("JWT");
    FieldsNarrow(HEADER);
    assert Narrow("{");
  }

  lemma PayloadNarrow(c: Config, user: ByteString, name: ByteString, now: nat)
    ensures Narrow(Object(Payload(c, user, name, now)))
  {
    assert Narrow("sub") && Narrow("name") && Narrow("iss") && Narrow("aud") && Narrow("iat") && Narrow("exp");
    FieldsNarrow(Payload(c, user, name, now));
    assert Narrow("{");
  }

  /** The token of `GenerateToken`; without a secret there is none. */
  function Generate(mac: Mac, c: Config, user: ByteString, name: ByteString, now: nat): string {
    if c.secret == "" then ""
    else
      HeaderNarrow();
      PayloadNarrow(c, user, name, now);
      var header, payload := Encode(Object(HEADER)), Encode(Object(Payload(c, user, name, now)));
      header + "." + payload + "." + Sign(mac, c, header, payload)
  }

  /** Three parts without dots. */
  function Split(token: string): Option<(string, string, string)> {
    var a := UpTo(token, '.');
    if a.None? then None
    else
      UpToLength(token, '.');
      var rest := token[|a.value| + 1..];
      var b := UpTo(rest, '.');
      if b.None? then None
      else
        UpToLength(rest, '.');
        var c := rest[|b.value| + 1..];
        if UpTo(c, '.').Some? then None else Some((a.value, b.value, c))
  }

  lemma {:induction false} UpToLength(s: string, c: char)
    ensures UpTo(s, c).Some? ==> |UpTo(s, c).value| < |s|
    decreases |s|
  {
    if s != "" && s[0] != c { UpToLength(s[1..], c); }
  }

  /** The checks on the fields of a payload. */
  function Checked(user: string, name: string, issuer: string, audience: string, issued: Option<nat>,
                   expires: Option<nat>): Option<Claims> {
    if user == "" || name == "" || issuer == "" || audience == "" || issued.None? || expires.None? ||
       expires.value <= issued.value
    then None
    else Some(Claims(user, name, issuer, audience, issued.value, expires.value))
  }

  /** `ParsePayload`. */
  function Parse(payload: string): Option<Claims> {
    var json := Decode(payload);
    Checked(StringField(json, "sub"), StringField(json, "name"), StringField(json, "iss"), StringField(json, "aud"),
            NumberField(json, "iat"), NumberField(json, "exp"))
  }

  predicate HeaderFits(header: string) {
    var json := Decode(header);
    StringField(json, "alg") == "HS256" && StringField(json, "typ") == "JWT"
  }

  /** `ValidateToken` at a later time. */
  predicate Validates(mac: Mac, c: Config, token: string, later: nat) {
    c.secret != "" &&
    var parts := Split(token);
    parts.Some? &&
    var (header, payload, signature) := parts.value;
    HeaderFits(header) && signature == Sign(mac, c, header, payload) &&
    var claims := Parse(payload);
    claims.Some? && claims.value.issuer == c.issuer && claims.value.audience == c.audience &&
    later < claims.value.expires * TICKS
  }

  // ---------------------------------------------------------------- the round trip

  ghost predicate NoDot(s: string) { forall i :: 0 <= i < |s| ==> s[i] != '.' }

  lemma {:induction false} UpToDot(s: string, rest: string)
    requires NoDot(s)
    ensures UpTo(s + ("." + rest), '.') == Some(s) && UpTo(s, '.').None?
    decreases |s|
  {
    if s == "" {
      assert s + ("." + rest) == "." + rest;
    } else {
      assert (s + ("." + rest))[1..] == s[1..] + ("." + rest);
      UpToDot(s[1..], rest);
      assert s == [s[0]] + s[1..];
    }
  }

  /** Splitting undoes joining. */
  lemma {:induction false} SplitJoined(a: string, b: string, c: string)
    requires NoDot(a) && NoDot(b) && NoDot(c)
    ensures Split(a + "." + b + "." + c) == Some((a, b, c))
  {
    var rest := b + ("." + c);
    var token := a + ("." + rest);
    assert a + "." + b + "." + c == token;
    UpToDot(a, rest);
    UpToDot(b, c);
    UpToDot(c, "");
    assert token[|a| + 1..] == rest && rest[|b| + 1..] == c;
  }

  /** s is t, a dot and more. */
  ghost predicate CutAt(s: string, t: string) { |t| < |s| && s[..|t|] == t && s[|t|] == '.' && NoDot(t) }

  lemma {:induction false} UpToMeans(s: string, t: string)
    requires UpTo(s, '.') == Some(t)
    ensures CutAt(s, t)
    decreases |s|
  {
    if s[0] != '.' {
      UpToMeans(s[1..], t[1..]);
      CutLonger(s, t);
    }
  }

  lemma CutSplits(s: string, t: string)
    requires CutAt(s, t)
    ensures s == t + ("." + s[|t| + 1..])
  {
  }

  lemma CutLonger(s: string, t: string)
    requires s != "" && t != "" && s[0] == t[0] != '.' && CutAt(s[1..], t[1..])
    ensures CutAt(s, t)
  {
    assert s == [s[0]] + s[1..] && t == [t[0]] + t[1..];
    assert s[..|t|] == [s[0]] + s[1..][..|t| - 1];
  }

  lemma {:induction false} NoDotFound(s: string)
    requires UpTo(s, '.').None?
    ensures NoDot(s)
    decreases |s|
  {
    if s != "" { NoDotFound(s[1..]); }
  }

  lemma Joined(a: string, b: string, c: string)
    ensures a + "." + b + "." + c == a + ("." + (b + ("." + c)))
  {
  }

  /** What is split is a join of three parts without dots: exactly the texts with two dots. */
  lemma {:induction false} SplitMeans(token: string, a: string, b: string, c: string)
    ensures Split(token) == Some((a, b, c)) <==> token == a + "." + b + "." + c && NoDot(a) && NoDot(b) && NoDot(c)
  {
    Joined(a, b, c);
    if Split(token) == Some((a, b, c)) {
      UpToMeans(token, a);
      CutSplits(token, a);
      var rest := token[|a| + 1..];
      UpToMeans(rest, b);
      CutSplits(rest, b);
      NoDotFound(c);
    }
    if token == a + "." + b + "." + c && NoDot(a) && NoDot(b) && NoDot(c) { SplitJoined(a, b, c); }
  }

  ghost predicate Sound(s: string) { s != "" && Unquoted(s) }

  lemma HeaderTame(i: nat)
    requires i < 2
    ensures FirstAt(HEADER, i)
  {
  }

  lemma HeaderReads()
    ensures Narrow(Object(HEADER)) && HeaderFits(Encode(Object(HEADER)))
  {
    HeaderNarrow();
    DecodeEncode(Object(HEADER));
    HeaderTame(0);
    HeaderTame(1);
    StringFieldOf(HEADER, 0);
    StringFieldOf(HEADER, 1);
  }

  lemma PayloadTame(c: Config, user: ByteString, name: ByteString, now: nat, i: nat)
    requires Unquoted(user) && Unquoted(name) && Unquoted(c.issuer) && Unquoted(c.audience) && i < 6
    ensures FirstAt(Payload(c, user, name, now), i)
  {
  }

  /** A payload reads back if and only if it expires after it was issued and the clock fits. */
  lemma PayloadReads(c: Config, user: ByteString, name: ByteString, now: nat)
    requires Sound(user) && Sound(name) && Sound(c.issuer) && Sound(c.audience)
    ensures var issued := now / TICKS;
            var fs := Payload(c, user, name, now);
            Narrow(Object(fs)) &&
            Parse(Encode(Object(fs))) ==
            if c.lifetime > 0 && issued + c.lifetime <= INT64_MAX
            then Some(Claims(user, name, c.issuer, c.audience, issued, issued + c.lifetime)) else None
  {
    var fs := Payload(c, user, name, now);
    PayloadNarrow(c, user, name, now);
    DecodeEncode(Object(fs));
    PayloadChecked(c, user, name, now);
  }

  lemma PayloadChecked(c: Config, user: ByteString, name: ByteString, now: nat)
    requires Sound(user) && Sound(name) && Sound(c.issuer) && Sound(c.audience)
    ensures var json, issued := Object(Payload(c, user, name, now)), now / TICKS;
            Checked(StringField(json, "sub"), StringField(json, "name"), StringField(json, "iss"),
                StringField(json, "aud"),
                    NumberField(json, "iat"), NumberField(json, "exp")) ==
            if c.lifetime > 0 && issued + c.lifetime <= INT64_MAX
            then Some(Claims(user, name, c.issuer, c.audience, issued, issued + c.lifetime)) else None
  {
    PayloadStrings(c, user, name, now);
    PayloadNumbers(c, user, name, now);
  }

  lemma PayloadStrings(c: Config, user: ByteString, name: ByteString, now: nat)
    requires Unquoted(user) && Unquoted(name) && Unquoted(c.issuer) && Unquoted(c.audience)
    ensures var json := Object(Payload(c, user, name, now));
            StringField(json, "sub") == user && StringField(json, "name") == name &&
            StringField(json, "iss") == c.issuer && StringField(json, "aud") == c.audience
  {
    var fs := Payload(c, user, name, now);
    PayloadTame(c, user, name, now, 0);
    StringFieldOf(fs, 0);
    PayloadTame(c, user, name, now, 1);
    StringFieldOf(fs, 1);
    PayloadTame(c, user, name, now, 2);
    StringFieldOf(fs, 2);
    PayloadTame(c, user, name, now, 3);
    StringFieldOf(fs, 3);
  }

  lemma PayloadNumbers(c: Config, user: ByteString, name: ByteString, now: nat)
    requires Unquoted(user) && Unquoted(name) && Unquoted(c.issuer) && Unquoted(c.audience)
    ensures var json, issued := Object(Payload(c, user, name, now)), now / TICKS;
            NumberField(json, "iat") == (if issued <= INT64_MAX then Some(issued) else None) &&
            NumberField(json, "exp") == if 0 <= issued + c.lifetime <= INT64_MAX then Some(issued + c.lifetime)
                else None
  {
    var fs := Payload(c, user, name, now);
    PayloadTame(c, user, name, now, 4);
    NumberFieldOf(fs, 4);
    PayloadTame(c, user, name, now, 5);
    NumberFieldOf(fs, 5);
  }

  lemma {:induction false} UpToUnquoted(s: string)
    ensures UpTo(s, '"').Some? ==> Unquoted(UpTo(s, '"').value)
    decreases |s|
  {
    if s != "" && s[0] != '"' { UpToUnquoted(s[1..]); }
  }

  /** No field that is read holds a quote. */
  lemma FieldUnquoted(json: string, key: string)
    ensures Unquoted(StringField(json, key))
  {
    var rest := Behind(json, Pattern(key, ":" + QUOTE));
    if rest.Some? { UpToUnquoted(rest.value); }
  }

  /** The claims of a payload read back as they were written if and only if no text is empty or holds a quote, the
      token expires after it was issued, and the expiry fits. */
  lemma PayloadReadsExactly(c: Config, user: ByteString, name: ByteString, now: nat)
    ensures Narrow(Object(Payload(c, user, name, now)))
    ensures var issued := now / TICKS;
            Parse(Encode(Object(Payload(c, user, name, now)))) ==
            Some(Claims(user, name, c.issuer, c.audience, issued, Expiry(c, issued))) <==>
            Sound(user) && Sound(name) && Sound(c.issuer) && Sound(c.audience) && c.lifetime > 0
                && issued + c.lifetime <= INT64_MAX
  {
    var fs, issued := Payload(c, user, name, now), now / TICKS;
    PayloadNarrow(c, user, name, now);
    DecodeEncode(Object(fs));
    if Sound(user) && Sound(name) && Sound(c.issuer) && Sound(c.audience) { PayloadReads(c, user, name, now); }
    FieldUnquoted(Object(fs), "sub");
    FieldUnquoted(Object(fs), "name");
    FieldUnquoted(Object(fs), "iss");
    FieldUnquoted(Object(fs), "aud");
  }

  function Expiry(c: Config, issued: nat): nat { if issued + c.lifetime < 0 then 0 else issued + c.lifetime }

  /** A user name that holds a field of its own. */
  function TwoFields(a: string, b: string): string {
    a + (QUOTE + ("," + (QUOTE + ("name" + (QUOTE + (":" + (QUOTE + b)))))))
  }

  lemma Regroup(a: string, b: string, c: string)
    ensures (a + b) + c == a + (b + c)
  {
  }

  lemma RegroupTwice(a: string, b: string, c: string, d: string)
    ensures (a + (b + c)) + d == a + (b + (c + d))
  {
    Regroup(a, b + c, d);
    Regroup(b, c, d);
  }

  lemma TwoFieldsText(a: string, b: string, t: string)
    ensures TwoFields(a, b) + t == a + (QUOTE + ("," + (QUOTE + ("name" + (QUOTE + (":" + (QUOTE + (b + t))))))))
  {
    var b1 := ":" + (QUOTE + b);
    var b2 := "name" + (QUOTE + b1);
    var b3 := "," + (QUOTE + b2);
    RegroupTwice(a, QUOTE, b3, t);
    RegroupTwice(",", QUOTE, b2, t);
    RegroupTwice("name", QUOTE, b1, t);
    RegroupTwice(":", QUOTE, b, t);
  }

  lemma SplitPayload(c: Config, a: string, b: string, user: ByteString, name: ByteString, now: nat)
    requires user == TwoFields(a, b)
    ensures Object(Payload(c, user, name, now)) ==
            Object([Str("sub", a), Str("name", b)] + Payload(c, user, name, now)[1..])
  {
    var fs, more := Payload(c, user, name, now), Payload(c, user, name, now)[1..];
    var gs := [Str("sub", a), Str("name", b)] + more;
    assert gs[1..] == [Str("name", b)] + more && gs[1..][1..] == more;
    var rest := "," + Fields(more);
    TwoFieldsText(a, b, QUOTE + rest);
    assert Fields(gs[1..]) == FieldText(Str("name", b), rest);
    assert Fields(gs) == FieldText(Str("sub", a), "," + FieldText(Str("name", b), rest));
    assert Fields(fs) == FieldText(Str("sub", user), rest);
  }

  /** Such a user name reads back as its first part, and the name as its second part. */
  lemma QuoteChangesFields(c: Config, a: string, b: string, user: ByteString, name: ByteString, now: nat)
    requires Unquoted(a) && Unquoted(b) && user == TwoFields(a, b)
    requires Unquoted(name) && Unquoted(c.issuer) && Unquoted(c.audience)
    ensures var json := Object(Payload(c, user, name, now));
            StringField(json, "sub") == a && StringField(json, "name") == b
  {
    var gs := [Str("sub", a), Str("name", b)] + Payload(c, user, name, now)[1..];
    SplitPayload(c, a, b, user, name, now);
    assert FirstAt(gs, 0) && FirstAt(gs, 1);
    StringFieldOf(gs, 0);
    StringFieldOf(gs, 1);
  }

  lemma SignHasNoDot(mac: Mac, c: Config, header: string, payload: string)
    ensures NoDot(Sign(mac, c, header, payload))
  {
    var digest := mac(c.secret, header + "." + payload);
    EncodeHasNoDot(digest);
  }

  /** A generated token validates exactly until it expires, and its payload holds the fields it was made from. */
  lemma GeneratedValidates(mac: Mac, c: Config, user: ByteString, name: ByteString, now: nat, later: nat)
    requires Sound(user) && Sound(name) && Sound(c.issuer) && Sound(c.audience) && c.secret != ""
    ensures var expires := now / TICKS + c.lifetime;
            Validates(mac, c, Generate(mac, c, user, name, now), later) <==>
            c.lifetime > 0 && expires <= INT64_MAX && later < expires * TICKS
    ensures var token := Generate(mac, c, user, name, now);
            Split(token).Some? &&
            (c.lifetime > 0 && now / TICKS + c.lifetime <= INT64_MAX ==>
               Parse(Split(token).value.1) ==
               Some(Claims(user, name, c.issuer, c.audience, now / TICKS, now / TICKS + c.lifetime)))
  {
    HeaderReads();
    PayloadReads(c, user, name, now);
    var header, payload := Encode(Object(HEADER)), Encode(Object(Payload(c, user, name, now)));
    EncodeHasNoDot(Object(HEADER));
    EncodeHasNoDot(Object(Payload(c, user, name, now)));
    SignHasNoDot(mac, c, header, payload);
    SplitJoined(header, payload, Sign(mac, c, header, payload));
  }

  // ---------------------------------------------------------------- the manager

  /** `JWTManager`: the last token generated is kept. */
  class Manager {
    const config: Config
    const mac: Mac
    var current: string

    constructor (config: Config, mac: Mac)
      ensures this.config == config && this.mac == mac && current == ""
    {
      this.config, this.mac, current := config, mac, "";
    }

    method GenerateToken(user: ByteString, name: ByteString, now: nat) returns (token: string)
      modifies this
      ensures token == Generate(mac, config, user, name, now)
      ensures current == if config.secret == "" then old(current) else token
    {
      if config.secret == "" { return ""; }
      HeaderNarrow();
      PayloadNarrow(config, user, name, now);
      var header := EncodeLoop(Object(HEADER));
      var payload := EncodeLoop(Object(Payload(config, user, name, now)));
      token := header + "." + payload + "." + Sign(mac, config, header, payload);
      current := token;
    }
  }
}
