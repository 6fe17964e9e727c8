/** A register of any machine type read as a list of bits through `low` (its lowest bit) and `half` (a shift to the
    right).  The lemmas here are about every such register, so they need no bit-vector reasoning. */
module BitRegister {
  import opened Bytes
  import opened CrcDivision

  function BitList<S>(low: S -> bool, half: S -> S, s: S, k: nat): (bits: seq<bool>)
    ensures |bits| == k
    decreases k
  {
    if k == 0 then [] else [low(s)] + BitList(low, half, half(s), k - 1)
  }

  function Iterate<S>(half: S -> S, s: S, k: nat): S
    decreases k
  {
    if k == 0 then s else Iterate(half, half(s), k - 1)
  }

  lemma {:induction false} IterateConcat<S>(half: S -> S, s: S, j: nat, k: nat)
    ensures Iterate(half, s, j + k) == Iterate(half, Iterate(half, s, j), k)
    decreases j
  {
    if j > 0 { IterateConcat(half, half(s), j - 1, k); }
  }

  lemma {:induction false} BitListConcat<S>(low: S -> bool, half: S -> S, s: S, j: nat, k: nat)
    ensures BitList(low, half, s, j + k) == BitList(low, half, s, j) + BitList(low, half, Iterate(half, s, j), k)
    decreases j
  {
    if j > 0 { BitListConcat(low, half, half(s), j - 1, k); }
  }

  lemma BitListOfHalf<S>(low: S -> bool, half: S -> S, s: S, k: nat)
    requires k > 0 && !low(Iterate(half, s, k))
    ensures BitList(low, half, half(s), k) == BitList(low, half, s, k)[1..] + [false]
  {
    BitListConcat(low, half, half(s), k - 1, 1);
  }

  lemma EightBits<S>(low: S -> bool, half: S -> S, s0: S, s1: S, s2: S, s3: S, s4: S, s5: S, s6: S, s7: S, s8: S)
    requires half(s0) == s1 && half(s1) == s2 && half(s2) == s3 && half(s3) == s4
    requires half(s4) == s5 && half(s5) == s6 && half(s6) == s7 && half(s7) == s8
    ensures BitList(low, half, s0, 8) == [low(s0), low(s1), low(s2), low(s3), low(s4), low(s5), low(s6), low(s7)]
    ensures Iterate(half, s0, 8) == s8
  {
    assert BitList(low, half, s4, 4) == [low(s4), low(s5), low(s6), low(s7)] && Iterate(half, s4, 4) == s8;
    assert BitList(low, half, s0, 4) == [low(s0), low(s1), low(s2), low(s3)] && Iterate(half, s0, 4) == s4;
    BitListConcat(low, half, s0, 4, 4);
    IterateConcat(half, s0, 4, 4);
  }

  lemma EightTimes<S>(step: S -> S, s: S)
    ensures Iterate(step, s, 8) == step(step(step(step(step(step(step(step(s))))))))
  {
    var m := step(step(step(step(s))));
    assert Iterate(step, s, 4) == m && Iterate(step, m, 4) == step(step(step(step(m))));
    IterateConcat(step, s, 4, 4);
  }

  lemma FourOctets<S>(low: S -> bool, half: S -> S, s0: S, s1: S, s2: S, s3: S, n: nat)
    requires Iterate(half, s0, n) == s1 && Iterate(half, s1, n) == s2 && Iterate(half, s2, n) == s3
    ensures BitList(low, half, s0, n + (n + (n + n))) ==
            BitList(low, half, s0, n) + (BitList(low, half, s1, n)
                + (BitList(low, half, s2, n) + BitList(low, half, s3, n)))
  {
    BitListConcat(low, half, s0, n, n + (n + n));
    BitListConcat(low, half, s1, n, n + n);
    BitListConcat(low, half, s2, n, n);
  }

  lemma FourTimes<S>(half: S -> S, s0: S, s1: S, s2: S, s3: S, s4: S, n: nat)
    requires Iterate(half, s0, n) == s1 && Iterate(half, s1, n) == s2
    requires Iterate(half, s2, n) == s3 && Iterate(half, s3, n) == s4
    ensures Iterate(half, s0, n + (n + (n + n))) == s4
  {
    IterateConcat(half, s0, n, n + (n + n));
    IterateConcat(half, s1, n, n + n);
    IterateConcat(half, s2, n, n);
  }

  ghost predicate Linear<S(!new)>(low: S -> bool, half: S -> S, plus: (S, S) -> S) {
    && (forall x, y :: low(plus(x, y)) == (low(x) != low(y)))
    && (forall x, y :: half(plus(x, y)) == plus(half(x), half(y)))
  }

  lemma {:induction false} BitListOfSum<S(!new)>(low: S -> bool, half: S -> S, plus: (S, S) -> S, x: S, y: S, k: nat)
    requires Linear(low, half, plus)
    ensures BitList(low, half, plus(x, y), k) == Xor(BitList(low, half, x, k), BitList(low, half, y, k))
    decreases k
  {
    if k > 0 { BitListOfSum(low, half, plus, half(x), half(y), k - 1); }
  }

  lemma StepOf(r: Poly, shifted: Poly, b: bool)
    requires |r| == 32 && shifted == r[1..] + [false]
    ensures Step(r, b) == if r[0] != b then Xor(shifted, Castagnoli()) else shifted
  {
    XorZeros(shifted);
  }

  lemma FirstBit<S>(low: S -> bool, half: S -> S, s: S, k: nat)
    requires k > 0
    ensures BitList(low, half, s, k)[0] == low(s)
  {
  }

  /** Shifting out one bit and adding the reflected divisor when it differs from the message bit is one step of
      the division. */
  lemma ShiftAndAdd<S(!new)>(low: S -> bool, half: S -> S, plus: (S, S) -> S, divisor: S, s: S, b: bool, k: nat)
    requires k == 32 && Linear(low, half, plus)
    requires BitList(low, half, divisor, k) == Castagnoli() && !low(Iterate(half, s, k))
    ensures BitList(low, half, if low(s) != b then plus(half(s), divisor) else half(s), k)
            == Step(BitList(low, half, s, k), b)
  {
    var r, shifted := BitList(low, half, s, k), BitList(low, half, half(s), k);
    BitListOfHalf(low, half, s, k);
    FirstBit(low, half, s, k);
    StepOf(r, shifted, b);
    if low(s) != b { BitListOfSum(low, half, plus, half(s), divisor, k); }
  }

  /** Feeds bits to a register with transition `next`. */
  function Run<R>(next: (R, bool) -> R, r: R, bits: seq<bool>): R
    decreases |bits|
  {
    if bits == [] then r else Run(next, next(r, bits[0]), bits[1..])
  }

  lemma {:induction false} RunOfZeros<R(!new)>(next: (R, bool) -> R, step: R -> R, r: R, k: nat)
    requires forall x: R :: next(x, false) == step(x)
    ensures Run(next, r, Zeros(k)) == Iterate(step, r, k)
    decreases k
  {
    if k > 0 {
      assert Zeros(k)[1..] == Zeros(k - 1);
      RunOfZeros(next, step, step(r), k - 1);
    }
  }

  /** A register whose transition is the division step runs the division. */
  lemma {:induction false} RunDivides<R(!new)>(next: (R, bool) -> R, view: R -> Poly, r: R, bits: seq<bool>)
    requires forall x: R :: |view(x)| == 32
    requires forall x: R, b: bool :: view(next(x, b)) == Step(view(x), b)
    ensures view(Run(next, r, bits)) == Feed(view(r), bits)
    decreases |bits|
  {
    if bits != [] { RunDivides(next, view, next(r, bits[0]), bits[1..]); }
  }

  ghost predicate PeelsOne<R(!new), W(!new)>(
    low: W -> bool, half: W -> W, plus: (W, W) -> W, step: W -> W, embed: R -> W, next: (R, bool) -> R)
  {
    forall x: R, v: W :: step(plus(embed(x), v)) == plus(embed(next(x, low(v))), half(v))
  }

  /** Adding a word to the register and stepping it k times feeds the word's k low bits one by one. */
  lemma {:induction false} WordAtOnce<R(!new), W(!new)>(
    low: W -> bool, half: W -> W, plus: (W, W) -> W, step: W -> W, embed: R -> W, next: (R, bool) -> R,
    r: R, w: W, k: nat)
    requires PeelsOne(low, half, plus, step, embed, next)
    ensures Iterate(step, plus(embed(r), w), k)
            == plus(embed(Run(next, r, BitList(low, half, w, k))), Iterate(half, w, k))
    decreases k
  {
    if k > 0 {
      WordAtOnce(low, half, plus, step, embed, next, next(r, low(w)), half(w), k - 1);
      assert BitList(low, half, w, k)[1..] == BitList(low, half, half(w), k - 1);
    }
  }

  ghost predicate Injects<S(!new)>(low: S -> bool, half: S -> S, plus: (S, S) -> S, inject: bool -> S) {
    && (forall b :: low(inject(b)) == b)
    && (forall b, x :: half(plus(x, inject(b))) == half(x))
  }

  function ShiftStep<S>(low: S -> bool, half: S -> S, plus: (S, S) -> S, divisor: S, s: S): S {
    if low(s) then plus(half(s), divisor) else half(s)
  }

  /** Bits of an added word that are above the lowest one are shifted, not divided. */
  lemma Peel<S(!new)>(low: S -> bool, half: S -> S, plus: (S, S) -> S, inject: bool -> S, divisor: S, x: S, w: S)
    requires Linear(low, half, plus) && Injects(low, half, plus, inject)
    requires plus(plus(half(x), half(w)), divisor) == plus(plus(half(x), divisor), half(w))
    ensures ShiftStep(low, half, plus, divisor, plus(x, w))
            == plus(ShiftStep(low, half, plus, divisor, plus(x, inject(low(w)))), half(w))
  {
    var b := inject(low(w));
    assert low(plus(x, w)) == low(plus(x, b));
    assert half(plus(x, w)) == plus(half(x), half(w)) && half(plus(x, b)) == half(x);
  }

  predicate Swaps<S(==)>(plus: (S, S) -> S, divisor: S, x: S, y: S) {
    plus(plus(x, y), divisor) == plus(plus(x, divisor), y)
  }

  predicate Shifts<S(==)>(low: S -> bool, half: S -> S, plus: (S, S) -> S, divisor: S, step: S -> S, x: S) {
    step(x) == ShiftStep(low, half, plus, divisor, x)
  }

  predicate Injected<S(==)>(plus: (S, S) -> S, inject: bool -> S, step: S -> S, next: (S, bool) -> S, x: S, b: bool) {
    next(x, b) == step(plus(x, inject(b)))
  }

  lemma PeelOne<S(!new)>(low: S -> bool, half: S -> S, plus: (S, S) -> S, inject: bool -> S, divisor: S, step: S -> S,
                         next: (S, bool) -> S, x: S, v: S)
    requires Linear(low, half, plus) && Injects(low, half, plus, inject)
    requires Swaps(plus, divisor, half(x), half(v)) && Injected(plus, inject, step, next, x, low(v))
    requires Shifts(low, half, plus, divisor, step, plus(x, v))
             && Shifts(low, half, plus, divisor, step, plus(x, inject(low(v))))
    ensures step(plus(x, v)) == plus(next(x, low(v)), half(v))
  {
    Peel(low, half, plus, inject, divisor, x, v);
  }

  /** A shifting register peels a word bit by bit. */
  lemma ShiftPeels<S(!new)>(low: S -> bool, half: S -> S, plus: (S, S) -> S, inject: bool -> S, divisor: S,
                     step: S -> S,
                            embed: S -> S, next: (S, bool) -> S)
    requires Linear(low, half, plus) && Injects(low, half, plus, inject)
    requires forall x, y :: Swaps(plus, divisor, x, y)
    requires forall x :: Shifts(low, half, plus, divisor, step, x)
    requires forall x, b :: Injected(plus, inject, step, next, x, b)
    requires forall x :: embed(x) == x
    ensures PeelsOne(low, half, plus, step, embed, next)
  {
    forall x, v
      ensures step(plus(embed(x), v)) == plus(embed(next(x, low(v))), half(v))
    {
      PeelOne(low, half, plus, inject, divisor, step, next, x, v);
    }
  }

  /** Feeds bytes to a register with transition `next`. */
  function RunBytes<R>(next: (R, byte) -> R, r: R, data: Bytes): R
    decreases |data|
  {
    if data == [] then r else RunBytes(next, next(r, data[0]), data[1..])
  }

  lemma {:induction false} RunBytesLast<R>(next: (R, byte) -> R, r: R, data: Bytes, b: byte)
    ensures RunBytes(next, r, data + [b]) == next(RunBytes(next, r, data), b)
    decreases |data|
  {
    if data != [] {
      assert (data + [b])[1..] == data[1..] + [b];
      RunBytesLast(next, next(r, data[0]), data[1..], b);
    }
  }

  lemma {:induction false} RunBytesDivides<R(!new)>(next: (R, byte) -> R, view: R -> Poly, r: R, data: Bytes)
    requires forall x: R :: |view(x)| == 32
    requires forall x: R, b: byte :: view(next(x, b)) == Feed(view(x), ByteBits(b))
    ensures view(RunBytes(next, r, data)) == Remainder(view(r), data)
    decreases |data|
  {
    if data != [] { RunBytesDivides(next, view, next(r, data[0]), data[1..]); }
  }

  /** The byte-at-a-time loop over a register of any machine type. */
  method ByteLoop<R>(next: (R, byte) -> R, start: R, data: Bytes) returns (l: R)
    ensures l == RunBytes(next, start, data)
  {
    l := start;
    var p := 0;
    while p != |data|
      invariant 0 <= p <= |data|
      invariant l == RunBytes(next, start, data[..p])
    {
      RunBytesLast(next, start, data[..p], data[p]);
      assert data[..p] + [data[p]] == data[..p + 1];
      l := next(l, data[p]);
      p := p + 1;
    }
    assert data[..p] == data;
  }

  /** The crc32 instruction on 1, 2, 4 or 8 bytes of memory: the remainder of the bytes after the register. */
  ghost predicate Instruction<R(!new)>(op: (R, Bytes) -> R, view: R -> Poly) {
    && (forall l: R :: |view(l)| == 32)
    && (forall l: R, chunk: Bytes :: view(op(l, chunk)) == Remainder(view(l), chunk))
  }

  ghost predicate Divided<R>(view: R -> Poly, start: R, l: R, data: Bytes, p: nat)
    requires p <= |data| && |view(start)| == 32
  {
    view(l) == Remainder(view(start), data[..p])
  }

  /** One instruction on the next n bytes, if there are that many. */
  method Chunk<R(!new)>(op: (R, Bytes) -> R, ghost view: R -> Poly, ghost start: R, l: R, data: Bytes, p: nat, n: nat)
    returns (l': R, p': nat)
    requires Instruction(op, view) && p <= |data| && Divided(view, start, l, data, p)
    ensures p' == (if p + n <= |data| then p + n else p) && Divided(view, start, l', data, p')
  {
    if p + n <= |data| {
      ChunkDivides(op, view, l, start, data, p, n);
      l', p' := op(l, data[p..p + n]), p + n;
    } else {
      l', p' := l, p;
    }
  }

  /** The chunked loop: chunks of 8 bytes, then at most one of 4, of 2 and of 1. */
  method ChunkLoop<R(!new)>(op: (R, Bytes) -> R, ghost view: R -> Poly, start: R, data: Bytes) returns (l: R)
    requires Instruction(op, view)
    ensures view(l) == Remainder(view(start), data)
  {
    l := start;
    var p := 0;
    while p + 8 <= |data|
      invariant 0 <= p <= |data| && Divided(view, start, l, data, p)
    {
      l, p := Chunk(op, view, start, l, data, p, 8);
    }
    l, p := Chunk(op, view, start, l, data, p, 4);
    l, p := Chunk(op, view, start, l, data, p, 2);
    l, p := Chunk(op, view, start, l, data, p, 1);
    assert data[..p] == data;
  }

  lemma ChunkDivides<R(!new)>(op: (R, Bytes) -> R, view: R -> Poly, l: R, start: R, data: Bytes, p: nat, n: nat)
    requires Instruction(op, view) && p + n <= |data|
    requires view(l) == Remainder(view(start), data[..p])
    ensures view(op(l, data[p..p + n])) == Remainder(view(start), data[..p + n])
  {
    var r, done, chunk := view(start), data[..p], data[p..p + n];
    assert data[..p + n] == done + chunk;
    RemainderConcat(r, done, chunk);
    assert view(op(l, chunk)) == Remainder(view(l), chunk);
  }

  lemma XorZeros(p: Poly)
    ensures Xor(p, Zeros(|p|)) == p
  {
  }
}

/** src/core/crc32c.cc: the table loop and the chunked hardware loop, both proved to compute the remainder of
    polynomial long division. */
module Crc32c {
  import opened Bytes
  import opened Crc32cTable
  import opened CrcDivision
  import opened BitRegister

  const Ones: bv32 := 0xffff_ffff

  function Low(l: bv32): bool { l & 1 == 1 }
  function Half(l: bv32): bv32 { l >> 1 }
  function Plus(l: bv32, m: bv32): bv32 { l ^ m }

  /** The register is bit-reflected: its low bit is the coefficient of x^31. */
  function Coefficients(l: bv32): (c: CrcDivision.Poly)
    ensures |c| == 32
  {
    BitList(Low, Half, l, WIDTH)
  }

  lemma RegisterLinear()
    ensures Linear(Low, Half, Plus)
  {
    forall x: bv32, y: bv32
      ensures Low(Plus(x, y)) == (Low(x) != Low(y)) && Half(Plus(x, y)) == Plus(Half(x), Half(y))
    {
      XorBits(x, y);
    }
  }

  lemma XorBits(l: bv32, m: bv32)
    ensures (l ^ m) >> 1 == (l >> 1) ^ (m >> 1)
    ensures (l ^ m) & 1 == 1 <==> (l & 1 == 1) != (m & 1 == 1)
  {
  }

  const OCTET: nat := 8
  const WIDTH: nat := 32

  lemma FirstByte(l: bv32)
    ensures BitList(Low, Half, l, OCTET) == [Low(l), Low(l >> 1), Low(l >> 2), Low(l >> 3),
                                         Low(l >> 4), Low(l >> 5), Low(l >> 6), Low(l >> 7)]
  {
    EightBits(Low, Half, l, l >> 1, l >> 2, l >> 3, l >> 4, l >> 5, l >> 6, l >> 7, l >> 8);
  }

  lemma ShiftByte(l: bv32, m: bv32)
    requires m == l >> 8
    ensures Iterate(Half, l, OCTET) == m
  {
    EightBits(Low, Half, l, l >> 1, l >> 2, l >> 3, l >> 4, l >> 5, l >> 6, l >> 7, m);
  }

  lemma FourShifts(l: bv32, l1: bv32, l2: bv32, l3: bv32)
    requires l >> 8 == l1 && l1 >> 8 == l2 && l2 >> 8 == l3
    ensures Coefficients(l) == BitList(Low, Half, l, OCTET) + (BitList(Low, Half, l1, OCTET)
                               + (BitList(Low, Half, l2, OCTET) + BitList(Low, Half, l3, OCTET)))
  {
    ShiftByte(l, l1);
    ShiftByte(l1, l2);
    ShiftByte(l2, l3);
    FourOctets(Low, Half, l, l1, l2, l3, OCTET);
  }

  lemma FourShiftsOut(l: bv32)
    ensures (((l >> 8) >> 8) >> 8) >> 8 == 0
  {
  }

  /** 32 shifts empty the register. */
  lemma ShiftedOut(l: bv32)
    ensures Iterate(Half, l, WIDTH) == 0
  {
    var l1 := l >> 8;
    var l2 := l1 >> 8;
    var l3 := l2 >> 8;
    FourShiftsOut(l);
    ShiftByte(l, l1);
    ShiftByte(l1, l2);
    ShiftByte(l2, l3);
    ShiftByte(l3, 0);
    FourTimes(Half, l, l1, l2, l3, 0, OCTET);
  }

  lemma PolyIsCastagnoli()
    ensures Coefficients(Crc32cTable.Poly) == Castagnoli()
  {
    FourShifts(0x82f63b78, 0x82f63b, 0x82f6, 0x82);
    FirstByte(0x82f63b78);
    FirstByte(0x82f63b);
    FirstByte(0x82f6);
    FirstByte(0x82);
    assert BitList(Low, Half, 0x82f63b78, OCTET) == [false, false, false, true, true, true, true, false];
    assert BitList(Low, Half, 0x82f63b, OCTET) == [true, true, false, true, true, true, false, false];
    assert BitList(Low, Half, 0x82f6, OCTET) == [false, true, true, false, true, true, true, true];
    assert BitList(Low, Half, 0x82, OCTET) == [false, true, false, false, false, false, false, true];
    CastagnoliBits();
  }

  lemma CastagnoliBits()
    ensures Castagnoli() == [false, false, false, true, true, true, true, false]
                            + ([true, true, false, true, true, true, false, false]
                            + ([false, true, true, false, true, true, true, true]
                            + [false, true, false, false, false, false, false, true]))
  {
  }

  lemma FirstBit(l: bv32, b: bool)
    ensures BitStep(l ^ Bit(b)) == if Low(l) != b then Plus(Half(l), Crc32cTable.Poly) else Half(l)
  {
    ClearLow(l, b);
  }

  lemma ClearLow(l: bv32, b: bool)
    ensures (l ^ Bit(b)) & 1 == 1 <==> (l & 1 == 1) != b
    ensures (l ^ Bit(b)) >> 1 == l >> 1
  {
  }

  function Bit(b: bool): bv32 { if b then 1 else 0 }

  /** One bit step of the register is one step of the division. */
  lemma BitStepDivides(l: bv32, b: bool)
    ensures Coefficients(BitStep(l ^ Bit(b))) == Step(Coefficients(l), b)
  {
    RegisterLinear();
    PolyIsCastagnoli();
    ShiftedOut(l);
    FirstBit(l, b);
    ShiftAndAdd(Low, Half, Plus, Crc32cTable.Poly, l, b, WIDTH);
  }

  // ---------------------------------------------------------------- bytes

  function Identity(l: bv32): bv32 { l }
  function NextBit(l: bv32, b: bool): bv32 { BitStep(l ^ Bit(b)) }

  lemma NextBitDivides()
    ensures forall l: bv32 :: |Coefficients(l)| == 32
    ensures forall l: bv32, b: bool :: Coefficients(NextBit(l, b)) == Step(Coefficients(l), b)
  {
    forall l: bv32, b: bool
      ensures Coefficients(NextBit(l, b)) == Step(Coefficients(l), b)
    {
      BitStepDivides(l, b);
    }
  }

  lemma RegisterInjects()
    ensures Injects(Low, Half, Plus, Bit)
  {
    forall b: bool
      ensures Low(Bit(b)) == b
    {
    }
    forall b: bool, x: bv32
      ensures Half(Plus(x, Bit(b))) == Half(x)
    {
      ClearLow(x, b);
    }
  }

  lemma XorSwap(x: bv32, y: bv32, p: bv32)
    ensures (x ^ y) ^ p == (x ^ p) ^ y
  {
  }

  lemma PlusSwap(x: bv32, y: bv32, p: bv32)
    ensures Plus(Plus(x, y), p) == Plus(Plus(x, p), y)
  {
    calc {
      Plus(Plus(x, y), p);
      Plus(x, y) ^ p;
      (x ^ y) ^ p;
      { XorSwap(x, y, p); }
      (x ^ p) ^ y;
      Plus(x, p) ^ y;
      Plus(Plus(x, p), y);
    }
  }

  lemma IsShiftStep(l: bv32)
    ensures BitStep(l) == ShiftStep(Low, Half, Plus, Crc32cTable.Poly, l)
  {
  }

  lemma IsNextBit(l: bv32, b: bool)
    ensures NextBit(l, b) == BitStep(Plus(l, Bit(b)))
  {
  }

  lemma RegisterShifts()
    ensures forall x: bv32 :: Shifts(Low, Half, Plus, Crc32cTable.Poly, BitStep, x)
    ensures forall x: bv32, b: bool :: Injected(Plus, Bit, BitStep, NextBit, x, b)
    ensures forall x: bv32, y: bv32 :: Swaps(Plus, Crc32cTable.Poly, x, y)
  {
    forall x: bv32
      ensures Shifts(Low, Half, Plus, Crc32cTable.Poly, BitStep, x)
    {
      IsShiftStep(x);
    }
    forall x: bv32, b: bool
      ensures Injected(Plus, Bit, BitStep, NextBit, x, b)
    {
      IsNextBit(x, b);
    }
    forall x: bv32, y: bv32
      ensures Swaps(Plus, Crc32cTable.Poly, x, y)
    {
      PlusSwap(x, y, Crc32cTable.Poly);
    }
  }

  lemma RegisterPeels()
    ensures PeelsOne(Low, Half, Plus, BitStep, Identity, NextBit)
  {
    RegisterLinear();
    RegisterInjects();
    RegisterShifts();
    ShiftPeels(Low, Half, Plus, Bit, Crc32cTable.Poly, BitStep, Identity, NextBit);
  }

  lemma IteratePeels(l: bv32, w: bv32)
    ensures Iterate(BitStep, Plus(l, w), OCTET)
            == Plus(Run(NextBit, l, BitList(Low, Half, w, OCTET)), Iterate(Half, w, OCTET))
  {
    RegisterPeels();
    WordAtOnce(Low, Half, Plus, BitStep, Identity, NextBit, l, w, OCTET);
  }

  lemma ByteStepIterates(z: bv32)
    ensures ByteStep(z) == Iterate(BitStep, z, OCTET)
  {
    EightTimes(BitStep, z);
  }

  // ---------------------------------------------------------------- the table loop

  /** The byte that the loop reads, as a 32-bit word: its bits, lowest first. */
  function ByteWord(bits: seq<bool>): bv32
    requires |bits| == 8
  {
    (if bits[0] then 0x01 else 0) | (if bits[1] then 0x02 else 0) | (if bits[2] then 0x04 else 0)
    | (if bits[3] then 0x08 else 0) | (if bits[4] then 0x10 else 0) | (if bits[5] then 0x20 else 0)
    | (if bits[6] then 0x40 else 0) | (if bits[7] then 0x80 else 0)
  }

  lemma WordOfBits(b0: bool, b1: bool, b2: bool, b3: bool, b4: bool, b5: bool, b6: bool, b7: bool)
    ensures var w: bv32 := (if b0 then 0x01 else 0) | (if b1 then 0x02 else 0) | (if b2 then 0x04 else 0)
                     | (if b3 then 0x08 else 0) | (if b4 then 0x10 else 0) | (if b5 then 0x20 else 0)
                     | (if b6 then 0x40 else 0) | (if b7 then 0x80 else 0);
            && w & 1 == (if b0 then 1 else 0) && (w >> 1) & 1 == (if b1 then 1 else 0)
            && (w >> 2) & 1 == (if b2 then 1 else 0) && (w >> 3) & 1 == (if b3 then 1 else 0)
            && (w >> 4) & 1 == (if b4 then 1 else 0) && (w >> 5) & 1 == (if b5 then 1 else 0)
            && (w >> 6) & 1 == (if b6 then 1 else 0) && (w >> 7) & 1 == (if b7 then 1 else 0)
            && w >> 8 == 0 && w & 0xff == w
  {
  }

  lemma WordLows(bits: seq<bool>, w: bv32)
    requires |bits| == 8 && w == ByteWord(bits)
    ensures Low(w) == bits[0] && Low(w >> 1) == bits[1] && Low(w >> 2) == bits[2] && Low(w >> 3) == bits[3]
    ensures Low(w >> 4) == bits[4] && Low(w >> 5) == bits[5] && Low(w >> 6) == bits[6] && Low(w >> 7) == bits[7]
    ensures w >> 8 == 0 && w & 0xff == w
  {
    WordOfBits(bits[0], bits[1], bits[2], bits[3], bits[4], bits[5], bits[6], bits[7]);
  }

  lemma WordBits(bits: seq<bool>, w: bv32)
    requires |bits| == 8 && w == ByteWord(bits)
    ensures BitList(Low, Half, w, OCTET) == bits
  {
    WordLows(bits, w);
    FirstByte(w);
  }

  lemma WordShifted(bits: seq<bool>, w: bv32)
    requires |bits| == 8 && w == ByteWord(bits)
    ensures Iterate(Half, w, OCTET) == 0
  {
    WordLows(bits, w);
    ShiftByte(w, 0);
  }

  /** Stepping the register plus a byte divides by that byte. */
  lemma ByteStepRuns(l: bv32, bits: seq<bool>)
    requires |bits| == 8
    ensures ByteStep(Plus(l, ByteWord(bits))) == Run(NextBit, l, bits)
  {
    var w := ByteWord(bits);
    WordBits(bits, w);
    WordShifted(bits, w);
    IteratePeels(l, w);
    ByteStepIterates(Plus(l, w));
    PlusZero(Run(NextBit, l, bits));
  }

  lemma PlusZero(l: bv32)
    ensures Plus(l, 0) == l
  {
  }

  lemma HighPart(z: bv32, low: bv32, high: bv32)
    requires low == z & 0xff && high == z & 0xffff_ff00
    ensures z == low ^ high && high >> 8 == z >> 8 && low < 0x100
    ensures high & 1 == 0 && (high >> 1) & 1 == 0 && (high >> 2) & 1 == 0 && (high >> 3) & 1 == 0
    ensures (high >> 4) & 1 == 0 && (high >> 5) & 1 == 0 && (high >> 6) & 1 == 0 && (high >> 7) & 1 == 0
  {
  }

  lemma HighBits(z: bv32, low: bv32, high: bv32)
    requires low == z & 0xff && high == z & 0xffff_ff00
    ensures BitList(Low, Half, high, OCTET) == Zeros(OCTET)
  {
    HighPart(z, low, high);
    FirstByte(high);
  }

  lemma HighShifted(z: bv32, low: bv32, high: bv32)
    requires low == z & 0xff && high == z & 0xffff_ff00
    ensures Iterate(Half, high, OCTET) == z >> 8
  {
    HighPart(z, low, high);
    ShiftByte(high, z >> 8);
  }

  /** The table turns eight bit steps into one look-up: the low byte is divided, the rest only shifted. */
  lemma TableStep(z: bv32, low: bv32, high: bv32)
    requires low == z & 0xff && high == z & 0xffff_ff00
    ensures low < 0x100 && ByteStep(Plus(low, high)) == Plus(Table(low), z >> 8)
  {
    HighPart(z, low, high);
    TableChecked(low);
    HighBits(z, low, high);
    HighShifted(z, low, high);
    IteratePeels(low, high);
    ByteStepIterates(Plus(low, high));
    ByteStepIterates(low);
    NextBitOfZero();
    RunOfZeros(NextBit, BitStep, low, OCTET);
  }

  lemma NextBitOfZero()
    ensures forall l: bv32 :: NextBit(l, false) == BitStep(l)
  {
    forall l: bv32
      ensures NextBit(l, false) == BitStep(l)
    {
      XorZero(l);
    }
  }

  lemma XorZero(l: bv32)
    ensures l ^ 0 == l
  {
  }

  lemma LowByteOfSum(l: bv32, w: bv32)
    ensures (l ^ w) & 0xff == (l & 0xff) ^ (w & 0xff)
  {
  }

  lemma HighBytesOfSum(l: bv32, w: bv32)
    ensures (l ^ w) >> 8 == (l >> 8) ^ (w >> 8)
  {
  }

  lemma LowBytesInRange(l: bv32, w: bv32)
    ensures (l & 0xff) ^ (w & 0xff) < 0x100
  {
  }

  lemma SplitWord(z: bv32)
    ensures (z & 0xff) ^ (z & 0xffff_ff00) == z
  {
  }

  lemma IndexInRange(l: bv32, bits: seq<bool>, w: bv32)
    requires |bits| == 8 && w == ByteWord(bits)
    ensures (l & 0xff) ^ w < 0x100
  {
    WordLows(bits, w);
    LowBytesInRange(l, w);
  }

  /** What one pass of the software loop makes of the register. */
  function NextByte(l: bv32, b: byte): bv32
  {
    var w := ByteWord(ByteBits(b));
    IndexInRange(l, ByteBits(b), w);
    Plus(Table((l & 0xff) ^ w), l >> 8)
  }

  lemma IndexParts(l: bv32, bits: seq<bool>, w: bv32, z: bv32)
    requires |bits| == 8 && w == ByteWord(bits) && z == Plus(l, w)
    ensures z & 0xff == (l & 0xff) ^ w && z >> 8 == l >> 8
  {
    WordLows(bits, w);
    LowByteOfSum(l, w);
    HighBytesOfSum(l, w);
    XorZero(l >> 8);
  }

  /** One pass of the software loop divides by one byte. */
  lemma NextByteRuns(l: bv32, b: byte)
    ensures NextByte(l, b) == Run(NextBit, l, ByteBits(b))
  {
    var w := ByteWord(ByteBits(b));
    var z := Plus(l, w);
    var low, high := z & 0xff, z & 0xffff_ff00;
    IndexParts(l, ByteBits(b), w, z);
    TableStep(z, low, high);
    SplitWord(z);
    ByteStepRuns(l, ByteBits(b));
  }

  lemma NextByteDivides(l: bv32, b: byte)
    ensures Coefficients(NextByte(l, b)) == Feed(Coefficients(l), ByteBits(b))
  {
    NextByteRuns(l, b);
    NextBitDivides();
    RunDivides(NextBit, Coefficients, l, ByteBits(b));
  }

  lemma OnesAreOnes()
    ensures Coefficients(Ones) == Flip(Zeros(32))
  {
    FourShifts(0xffff_ffff, 0xff_ffff, 0xffff, 0xff);
    FirstByte(0xffff_ffff);
    FirstByte(0xff_ffff);
    FirstByte(0xffff);
    FirstByte(0xff);
    assert BitList(Low, Half, 0xffff_ffff, OCTET) == Flip(Zeros(8));
    assert BitList(Low, Half, 0xff_ffff, OCTET) == Flip(Zeros(8));
    assert BitList(Low, Half, 0xffff, OCTET) == Flip(Zeros(8));
    assert BitList(Low, Half, 0xff, OCTET) == Flip(Zeros(8));
    assert Flip(Zeros(8)) + (Flip(Zeros(8)) + (Flip(Zeros(8)) + Flip(Zeros(8)))) == Flip(Zeros(32));
  }

  lemma ConditionFlips(l: bv32)
    ensures Coefficients(Plus(l, Ones)) == Flip(Coefficients(l))
  {
    RegisterLinear();
    OnesAreOnes();
    BitListOfSum(Low, Half, Plus, l, Ones, WIDTH);
  }

  // ---------------------------------------------------------------- the register is its coefficients

  lemma NoBits(l: bv32)
    requires l & 1 == 0 && (l >> 1) & 1 == 0 && (l >> 2) & 1 == 0 && (l >> 3) & 1 == 0
    requires (l >> 4) & 1 == 0 && (l >> 5) & 1 == 0 && (l >> 6) & 1 == 0 && (l >> 7) & 1 == 0
    ensures l & 0xff == 0
  {
  }

  lemma NoByte(l: bv32)
    requires BitList(Low, Half, l, OCTET) == Zeros(8)
    ensures l & 0xff == 0
  {
    FirstByte(l);
    var bits := BitList(Low, Half, l, OCTET);
    assert !bits[0] && !bits[1] && !bits[2] && !bits[3] && !bits[4] && !bits[5] && !bits[6] && !bits[7];
    NoBits(l);
  }

  lemma NoBytes(l: bv32, l1: bv32, l2: bv32, l3: bv32)
    requires l >> 8 == l1 && l1 >> 8 == l2 && l2 >> 8 == l3
    requires l & 0xff == 0 && l1 & 0xff == 0 && l2 & 0xff == 0 && l3 & 0xff == 0
    ensures l == 0
  {
  }

  lemma FourParts(a: CrcDivision.Poly, b: CrcDivision.Poly, c: CrcDivision.Poly, d: CrcDivision.Poly)
    requires |a| == |b| == |c| == |d| == 8 && a + (b + (c + d)) == Zeros(32)
    ensures a == Zeros(8) && b == Zeros(8) && c == Zeros(8) && d == Zeros(8)
  {
    var z := a + (b + (c + d));
    assert z[..8] == a && z[8..16] == b && z[16..24] == c && z[24..] == d;
  }

  lemma ZerosAreZero(l: bv32)
    requires Coefficients(l) == Zeros(32)
    ensures l == 0
  {
    var l1 := l >> 8;
    var l2 := l1 >> 8;
    var l3 := l2 >> 8;
    FourShifts(l, l1, l2, l3);
    FirstByte(l);
    FirstByte(l1);
    FirstByte(l2);
    FirstByte(l3);
    FourParts(BitList(Low, Half, l, OCTET), BitList(Low, Half, l1, OCTET), BitList(Low, Half, l2, OCTET),
              BitList(Low, Half, l3, OCTET));
    NoByte(l);
    NoByte(l1);
    NoByte(l2);
    NoByte(l3);
    NoBytes(l, l1, l2, l3);
  }

  lemma SumIsZero(l: bv32, m: bv32)
    requires Plus(l, m) == 0
    ensures l == m
  {
  }

  /** Two registers with the same coefficients are the same. */
  lemma CoefficientsInjective(l: bv32, m: bv32)
    requires Coefficients(l) == Coefficients(m)
    ensures l == m
  {
    RegisterLinear();
    BitListOfSum(Low, Half, Plus, l, m, WIDTH);
    assert Coefficients(Plus(l, m)) == Zeros(32);
    ZerosAreZero(Plus(l, m));
    SumIsZero(l, m);
  }

  // ---------------------------------------------------------------- the two paths

  /** `Extend`: the checksum of data that follows what crc is the checksum of. */
  function Extend(crc: bv32, data: Bytes): bv32 { Plus(RunBytes(NextByte, Plus(crc, Ones), data), Ones) }

  lemma FlipTwice(p: CrcDivision.Poly)
    ensures Flip(Flip(p)) == p
  {
  }

  /** Extending by one string and then by another is extending by both. */
  lemma ExtendConcat(crc: bv32, a: Bytes, b: Bytes)
    ensures Extend(Extend(crc, a), b) == Extend(crc, a + b)
  {
    SoftwareDivides(crc, a);
    SoftwareDivides(Extend(crc, a), b);
    SoftwareDivides(crc, a + b);
    FlipTwice(Remainder(Flip(Coefficients(crc)), a));
    RemainderConcat(Flip(Coefficients(crc)), a, b);
    CoefficientsInjective(Extend(Extend(crc, a), b), Extend(crc, a + b));
  }

  /** There is such an instruction: the software loop is one. */
  lemma InstructionExists()
    ensures Instruction((l: bv32, chunk: Bytes) => RunBytes(NextByte, l, chunk), Coefficients)
  {
    forall l: bv32, b: byte
      ensures Coefficients(NextByte(l, b)) == Feed(Coefficients(l), ByteBits(b))
    {
      NextByteDivides(l, b);
    }
    forall l: bv32, chunk: Bytes
      ensures Coefficients(RunBytes(NextByte, l, chunk)) == Remainder(Coefficients(l), chunk)
    {
      RunBytesDivides(NextByte, Coefficients, l, chunk);
    }
  }

  /** The software path: one table look-up per byte. */
  method ExtendSW(crc: bv32, data: Bytes) returns (r: bv32)
    ensures Coefficients(r) == Flip(Remainder(Flip(Coefficients(crc)), data))
    ensures r == Extend(crc, data)
  {
    var l := ByteLoop(NextByte, Plus(crc, Ones), data);
    SoftwareDivides(crc, data);
    r := Plus(l, Ones);
  }

  lemma SoftwareDivides(crc: bv32, data: Bytes)
    ensures Coefficients(Plus(RunBytes(NextByte, Plus(crc, Ones), data), Ones))
            == Flip(Remainder(Flip(Coefficients(crc)), data))
  {
    forall l: bv32, b: byte
      ensures Coefficients(NextByte(l, b)) == Feed(Coefficients(l), ByteBits(b))
    {
      NextByteDivides(l, b);
    }
    RunBytesDivides(NextByte, Coefficients, Plus(crc, Ones), data);
    ConditionFlips(crc);
    ConditionFlips(RunBytes(NextByte, Plus(crc, Ones), data));
  }

  /** The hardware path, for any instruction that divides as the architecture manuals define it. */
  method ExtendHW(op: (bv32, Bytes) -> bv32, crc: bv32, data: Bytes) returns (r: bv32)
    requires Instruction(op, Coefficients)
    ensures Coefficients(r) == Flip(Remainder(Flip(Coefficients(crc)), data))
    ensures r == Extend(crc, data)
  {
    var l := ChunkLoop(op, Coefficients, Plus(crc, Ones), data);
    ConditionFlips(crc);
    ConditionFlips(l);
    r := Plus(l, Ones);
    SoftwareDivides(crc, data);
    CoefficientsInjective(r, Extend(crc, data));
  }

  /** `Value`: the stored checksum, with the register starting at zero. */
  method Value(data: Bytes) returns (r: bv32)
    ensures NumberOf(Coefficients(r)) == Checksum(data)
  {
    r := ExtendSW(0, data);
    ZeroIsZeros();
  }

  lemma ZeroIsZeros()
    ensures Coefficients(0) == Zeros(32)
  {
    FourShifts(0, 0, 0, 0);
    FirstByte(0);
    assert BitList(Low, Half, 0, OCTET) == Zeros(8);
    assert Zeros(8) + (Zeros(8) + (Zeros(8) + Zeros(8))) == Zeros(32);
  }
}
