/** The CRC of section 12.1 of RFC 3720 as long division of polynomials over GF(2), written with lists of
    coefficients, highest first, and the errors such a remainder is bound to notice. */
module CrcDivision {
  import opened Bytes

  type Poly = seq<bool>

  function Xor(a: Poly, b: Poly): (c: Poly)
    requires |a| == |b|
    ensures |c| == |a|
    ensures forall i :: 0 <= i < |a| ==> c[i] == (a[i] != b[i])
  {
    seq(|a|, i requires 0 <= i < |a| => a[i] != b[i])
  }

  function Zeros(n: nat): (z: Poly)
    ensures |z| == n
    ensures forall i :: 0 <= i < n ==> !z[i]
  {
    seq(n, i => false)
  }

  /** Exponents of the Castagnoli polynomial 0x1EDC6F41 below x^32. */
  const EXPONENTS: set<nat> := {28, 27, 26, 25, 23, 22, 20, 19, 18, 14, 13, 11, 10, 9, 8, 6, 0}

  /** The Castagnoli polynomial without its leading x^32. */
  function Castagnoli(): (p: Poly)
    ensures |p| == 32 && p[31]
  {
    seq(32, i => 31 - i in EXPONENTS)
  }

  /** Multiplies by x, adds b * x^32 and reduces: one step of the division register. */
  function Step(r: Poly, b: bool): (r': Poly)
    requires |r| == 32
    ensures |r'| == 32
  {
    Xor(r[1..] + [false], if r[0] != b then Castagnoli() else Zeros(32))
  }

  /** Feeds message bits, in transmission order, through the register. */
  function Feed(r: Poly, bits: seq<bool>): (r': Poly)
    requires |r| == 32
    ensures |r'| == 32
    decreases |bits|
  {
    if bits == [] then r else Feed(Step(r, bits[0]), bits[1..])
  }

  /** The k low bits of a number, least significant first. */
  function BitsOf(n: nat, k: nat): (bits: seq<bool>)
    ensures |bits| == k
    decreases k
  {
    if k == 0 then [] else [n % 2 == 1] + BitsOf(n / 2, k - 1)
  }

  const BYTE_WIDTH: nat := 8

  /** A byte is transmitted least significant bit first. */
  function ByteBits(b: byte): (bits: seq<bool>)
    ensures |bits| == 8
  {
    BitsOf(b as nat, BYTE_WIDTH)
  }

  function MessageBits(data: Bytes): (bits: seq<bool>)
    ensures |bits| == 8 * |data|
  {
    if data == [] then [] else ByteBits(data[0]) + MessageBits(data[1..])
  }

  lemma {:induction false} FeedConcat(r: Poly, a: seq<bool>, b: seq<bool>)
    requires |r| == 32
    ensures Feed(r, a + b) == Feed(Feed(r, a), b)
    decreases |a|
  {
    if a == [] {
      assert a + b == b;
    } else {
      assert (a + b)[1..] == a[1..] + b;
      FeedConcat(Step(r, a[0]), a[1..], b);
    }
  }

  lemma {:induction false} MessageBitsConcat(a: Bytes, b: Bytes)
    ensures MessageBits(a + b) == MessageBits(a) + MessageBits(b)
  {
    if a == [] {
      assert a + b == b;
    } else {
      assert (a + b)[1..] == a[1..] + b;
      MessageBitsConcat(a[1..], b);
    }
  }

  /** The remainder register after a byte string, byte by byte as the code takes it. */
  function Remainder(r: Poly, data: Bytes): (r': Poly)
    requires |r| == 32
    ensures |r'| == 32
    decreases |data|
  {
    if data == [] then r else Remainder(Feed(r, ByteBits(data[0])), data[1..])
  }

  lemma {:induction false} RemainderIsFeed(r: Poly, data: Bytes)
    requires |r| == 32
    ensures Remainder(r, data) == Feed(r, MessageBits(data))
    decreases |data|
  {
    if data != [] {
      FeedConcat(r, ByteBits(data[0]), MessageBits(data[1..]));
      RemainderIsFeed(Feed(r, ByteBits(data[0])), data[1..]);
    }
  }

  /** Extending over a concatenation is extending twice. */
  lemma {:induction false} RemainderConcat(r: Poly, a: Bytes, b: Bytes)
    requires |r| == 32
    ensures Remainder(r, a + b) == Remainder(Remainder(r, a), b)
    decreases |a|
  {
    if a == [] {
      assert a + b == b;
    } else {
      assert (a + b)[1..] == a[1..] + b;
      RemainderConcat(Feed(r, ByteBits(a[0])), a[1..], b);
    }
  }

  lemma MessageBitsOfParts(a: Bytes, b: Bytes, c: Bytes)
    ensures MessageBits(a + b + c) == MessageBits(a) + MessageBits(b) + MessageBits(c)
  {
    MessageBitsConcat(a + b, c);
    MessageBitsConcat(a, b);
  }

  // ---------------------------------------------------------------- long division

  /** quotient * (x^32 + Castagnoli): the schoolbook sum of shifted divisors. */
  function Product(quotient: Poly): (p: Poly)
    ensures |p| == |quotient| + 32
  {
    if quotient == [] then Zeros(32)
    else Xor(Leading(quotient[0]) + Zeros(|quotient| - 1), [false] + Product(quotient[1..]))
  }

  function Leading(q: bool): (p: Poly)
    ensures |p| == 33
  {
    if q then [true] + Castagnoli() else Zeros(33)
  }

  /** message * x^32, with the initial register added to its 32 leading coefficients. */
  function Dividend(r: Poly, bits: seq<bool>): (d: Poly)
    requires |r| == 32
    ensures |d| == |bits| + 32
  {
    Xor(bits + Zeros(32), r + Zeros(|bits|))
  }

  function Quotient(r: Poly, bits: seq<bool>): (q: Poly)
    requires |r| == 32
    ensures |q| == |bits|
    decreases |bits|
  {
    if bits == [] then [] else [r[0] != bits[0]] + Quotient(Step(r, bits[0]), bits[1..])
  }

  lemma DividendStep(r: Poly, b: bool, rest: seq<bool>)
    requires |r| == 32
    ensures Dividend(r, [b] + rest) ==
            Xor(Leading(r[0] != b) + Zeros(|rest|), [false] + Dividend(Step(r, b), rest))
  {
    var lhs, low := Dividend(r, [b] + rest), [false] + Dividend(Step(r, b), rest);
    var top := Leading(r[0] != b) + Zeros(|rest|);
    forall i | 0 <= i < |rest| + 33
      ensures lhs[i] == (top[i] != low[i])
    {
    }
  }

  lemma XorShift(a: Poly, b: Poly, c: Poly)
    requires |a| == |b| && |c| == |a| + 1
    ensures Xor(c, [false] + Xor(a, b)) == Xor(Xor(c, [false] + a), [false] + b)
  {
  }

  /** dividend = quotient * divisor + register: the register is the remainder of the division. */
  lemma {:induction false} FeedIsRemainder(r: Poly, bits: seq<bool>)
    requires |r| == 32
    ensures Dividend(r, bits) == Xor(Product(Quotient(r, bits)), Zeros(|bits|) + Feed(r, bits))
    decreases |bits|
  {
    if bits == [] {
      RemainderOfNothing(r);
    } else {
      var b, rest := bits[0], bits[1..];
      var q, rem := Quotient(Step(r, b), rest), Feed(Step(r, b), rest);
      FeedIsRemainder(Step(r, b), rest);
      RemainderStep(r, b, rest, q, rem);
      FirstBit(r, bits);
    }
  }

  lemma FirstBit(r: Poly, bits: seq<bool>)
    requires |r| == 32 && bits != []
    ensures bits == [bits[0]] + bits[1..] && |bits| == |bits[1..]| + 1
    ensures Quotient(r, bits) == [r[0] != bits[0]] + Quotient(Step(r, bits[0]), bits[1..])
    ensures Feed(r, bits) == Feed(Step(r, bits[0]), bits[1..])
  {
  }

  lemma RemainderOfNothing(r: Poly)
    requires |r| == 32
    ensures Dividend(r, []) == Xor(Product(Quotient(r, [])), Zeros(0) + Feed(r, []))
  {
    assert [] + Zeros(32) == Zeros(32) == Product([]);
    assert r + Zeros(0) == r == Zeros(0) + r;
    assert Quotient(r, []) == [] && Feed(r, []) == r;
  }

  lemma RemainderStep(r: Poly, b: bool, rest: seq<bool>, q: Poly, rem: Poly)
    requires |r| == |rem| == 32 && |q| == |rest|
    requires Dividend(Step(r, b), rest) == Xor(Product(q), Zeros(|rest|) + rem)
    ensures Dividend(r, [b] + rest) == Xor(Product([r[0] != b] + q), Zeros(|rest| + 1) + rem)
  {
    var c := r[0] != b;
    var top, p, low := Leading(c) + Zeros(|rest|), Product(q), Zeros(|rest|) + rem;
    assert Dividend(r, [b] + rest) == Xor(top, [false] + Xor(p, low)) by { DividendStep(r, b, rest); }
    XorShift(p, low, top);
    assert Xor(top, [false] + p) == Product([c] + q) by { ProductStep(c, q); }
    ZerosShift(|rest|, rem);
  }

  lemma ZerosShift(n: nat, p: Poly)
    ensures [false] + (Zeros(n) + p) == Zeros(n + 1) + p
  {
  }

  lemma ProductStep(c: bool, q: Poly)
    ensures Product([c] + q) == Xor(Leading(c) + Zeros(|q|), [false] + Product(q))
  {
    var f := [c] + q;
    assert f[0] == c && f[1..] == q && |f| - 1 == |q|;
  }

  // ---------------------------------------------------------------- error detection

  lemma StepLinear(r: Poly, s: Poly, b: bool, c: bool)
    requires |r| == |s| == 32
    ensures Step(Xor(r, s), b != c) == Xor(Step(r, b), Step(s, c))
  {
  }

  lemma {:induction false} FeedLinear(r: Poly, s: Poly, a: seq<bool>, b: seq<bool>)
    requires |r| == |s| == 32 && |a| == |b|
    ensures Feed(Xor(r, s), Xor(a, b)) == Xor(Feed(r, a), Feed(s, b))
    decreases |a|
  {
    if a != [] {
      StepLinear(r, s, a[0], b[0]);
      FeedLinear(Step(r, a[0]), Step(s, b[0]), a[1..], b[1..]);
      assert Xor(a, b)[1..] == Xor(a[1..], b[1..]);
    }
  }

  /** A coefficient at distance k from the front cannot be shifted out in fewer than k steps. */
  lemma {:induction false} FeedKeepsLowCoefficient(r: Poly, k: nat, bits: seq<bool>)
    requires |r| == 32 && k < 32 && r[k] && |bits| <= k
    ensures Feed(r, bits) != Zeros(32)
    decreases |bits|
  {
    if bits != [] {
      var r' := Step(r, bits[0]);
      if r[0] != bits[0] {
        assert r'[31];
        FeedKeepsLowCoefficient(r', 31, bits[1..]);
      } else {
        assert r'[k - 1];
        FeedKeepsLowCoefficient(r', k - 1, bits[1..]);
      }
    }
  }

  lemma {:induction false} ShortMessageNotZero(bits: seq<bool>)
    requires |bits| <= 32 && true in bits
    ensures Feed(Zeros(32), bits) != Zeros(32)
    decreases |bits|
  {
    var r := Step(Zeros(32), bits[0]);
    if bits[0] {
      assert r[31];
      FeedKeepsLowCoefficient(r, 31, bits[1..]);
    } else {
      assert r == Zeros(32);
      ShortMessageNotZero(bits[1..]);
    }
  }

  lemma StepInjective(r: Poly, s: Poly, b: bool)
    requires |r| == |s| == 32 && Step(r, b) == Step(s, b)
    ensures r == s
  {
    var r', s' := Step(r, b), Step(s, b);
    assert r'[31] == (r[0] != b) && s'[31] == (s[0] != b);
    forall i | 1 <= i < 32
      ensures r[i] == s[i]
    {
      assert r'[i - 1] == (r[i] != (if r[0] != b then Castagnoli() else Zeros(32))[i - 1]);
      assert s'[i - 1] == (s[i] != (if s[0] != b then Castagnoli() else Zeros(32))[i - 1]);
    }
  }

  lemma {:induction false} FeedInjective(r: Poly, s: Poly, bits: seq<bool>)
    requires |r| == |s| == 32 && Feed(r, bits) == Feed(s, bits)
    ensures r == s
    decreases |bits|
  {
    if bits != [] {
      FeedInjective(Step(r, bits[0]), Step(s, bits[0]), bits[1..]);
      StepInjective(r, s, bits[0]);
    }
  }

  lemma WindowDetected(r: Poly, x: seq<bool>, y: seq<bool>)
    requires |r| == 32 && |x| == |y| <= 32 && x != y
    ensures Feed(r, x) != Feed(r, y)
  {
    var i :| 0 <= i < |x| && x[i] != y[i];
    assert Xor(x, y)[i];
    ShortMessageNotZero(Xor(x, y));
    FeedLinear(r, r, x, y);
    XorSelf(r);
    XorSelf(Feed(r, x));
  }

  lemma XorSelf(a: Poly)
    ensures Xor(a, a) == Zeros(|a|)
  {
  }

  /** Two messages that differ only inside 32 consecutive bits have different remainders. */
  lemma BurstDetected(r: Poly, pre: seq<bool>, x: seq<bool>, y: seq<bool>, post: seq<bool>)
    requires |r| == 32 && |x| == |y| <= 32 && x != y
    ensures Feed(r, pre + x + post) != Feed(r, pre + y + post)
  {
    var s := Feed(r, pre);
    WindowDetected(s, x, y);
    FeedConcat(r, pre + x, post);
    FeedConcat(r, pre + y, post);
    FeedConcat(r, pre, x);
    FeedConcat(r, pre, y);
    if Feed(Feed(s, x), post) == Feed(Feed(s, y), post) {
      FeedInjective(Feed(s, x), Feed(s, y), post);
      assert false;
    }
  }

  /** Two byte strings of one length that differ only inside four consecutive bytes differ in remainder. */
  lemma ByteBurstDetected(r: Poly, pre: Bytes, x: Bytes, y: Bytes, post: Bytes)
    requires |r| == 32 && |x| == |y| <= 4 && x != y
    ensures Remainder(r, pre + x + post) != Remainder(r, pre + y + post)
  {
    MessageBitsDiffer(x, y);
    RemainderOfParts(r, pre, x, post);
    RemainderOfParts(r, pre, y, post);
    BurstDetected(r, MessageBits(pre), MessageBits(x), MessageBits(y), MessageBits(post));
  }

  lemma RemainderOfParts(r: Poly, a: Bytes, b: Bytes, c: Bytes)
    requires |r| == 32
    ensures Remainder(r, a + b + c) == Feed(r, MessageBits(a) + MessageBits(b) + MessageBits(c))
  {
    RemainderIsFeed(r, a + b + c);
    MessageBitsOfParts(a, b, c);
  }

  lemma MessageBitsDiffer(x: Bytes, y: Bytes)
    requires |x| == |y| && x != y
    ensures MessageBits(x) != MessageBits(y)
  {
    if MessageBits(x) == MessageBits(y) { MessageBitsInjective(x, y); }
  }

  function NumberOf(bits: seq<bool>): nat {
    if bits == [] then 0 else (if bits[0] then 1 else 0) + 2 * NumberOf(bits[1..])
  }

  function Pow2(k: nat): nat { if k == 0 then 1 else 2 * Pow2(k - 1) }

  lemma {:induction false} NumberOfBits(n: nat, k: nat)
    requires n < Pow2(k)
    ensures NumberOf(BitsOf(n, k)) == n
    decreases k
  {
    if k > 0 {
      NumberOfBits(n / 2, k - 1);
      assert BitsOf(n, k)[1..] == BitsOf(n / 2, k - 1);
    }
  }

  lemma ByteBitsInjective(a: byte, b: byte)
    requires ByteBits(a) == ByteBits(b)
    ensures a == b
  {
    assert Pow2(8) == 256;
    NumberOfBits(a as nat, 8);
    NumberOfBits(b as nat, 8);
  }

  lemma {:induction false} MessageBitsInjective(x: Bytes, y: Bytes)
    requires |x| == |y| && MessageBits(x) == MessageBits(y)
    ensures x == y
  {
    if x != [] {
      assert MessageBits(x)[..8] == ByteBits(x[0]) && MessageBits(y)[..8] == ByteBits(y[0]);
      assert MessageBits(x)[8..] == MessageBits(x[1..]) && MessageBits(y)[8..] == MessageBits(y[1..]);
      ByteBitsInjective(x[0], y[0]);
      MessageBitsInjective(x[1..], y[1..]);
      assert x == [x[0]] + x[1..] && y == [y[0]] + y[1..];
    }
  }

  // ---------------------------------------------------------------- the checksum of a byte string

  function Flip(p: Poly): (q: Poly)
    ensures |q| == |p|
    ensures forall i :: 0 <= i < |p| ==> q[i] == !p[i]
  {
    seq(|p|, i requires 0 <= i < |p| => !p[i])
  }

  /** The CRC as the 32-bit number stored in a frame: register and result are conditioned by all ones,
      and the coefficient of x^31 is the least significant bit. */
  function Checksum(data: Bytes): (n: nat)
  {
    NumberOf(Flip(Remainder(Flip(Zeros(32)), data)))
  }

  lemma {:induction false} NumberOfInjective(a: seq<bool>, b: seq<bool>)
    requires |a| == |b| && NumberOf(a) == NumberOf(b)
    ensures a == b
  {
    if a != [] {
      NumberOfInjective(a[1..], b[1..]);
      assert a == [a[0]] + a[1..] && b == [b[0]] + b[1..];
    }
  }

  /** Byte strings that differ only inside four consecutive bytes never share a checksum. */
  lemma ChecksumDetectsBurst(pre: Bytes, x: Bytes, y: Bytes, post: Bytes)
    requires |x| == |y| <= 4 && x != y
    ensures Checksum(pre + x + post) != Checksum(pre + y + post)
  {
    var r := Flip(Zeros(32));
    var u, v := Remainder(r, pre + x + post), Remainder(r, pre + y + post);
    ByteBurstDetected(r, pre, x, y, post);
    var i :| 0 <= i < 32 && u[i] != v[i];
    assert Flip(u)[i] != Flip(v)[i];
    if NumberOf(Flip(u)) == NumberOf(Flip(v)) { NumberOfInjective(Flip(u), Flip(v)); }
  }
}
