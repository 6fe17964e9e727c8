/** How the change log delimits records on disk: what the log needs of a framing, and the checksummed framing of
    src/cdc/partition_change_log.cc. */
module Framings {
  import opened Bytes
  import opened ChangeRecords
  import opened Wrappers

  /** What a reader can meet at a frame boundary. */
  datatype FrameRead = AtEnd | Torn | Damaged | Got(record: ChangeRecord, size: nat)

  /** `frame` writes one record that `fits`, `read` looks at the start of what is left of a file. */
  datatype Framing = Framing(fits: ChangeRecord -> bool, frame: ChangeRecord -> Bytes, read: Bytes -> FrameRead)

  const HEADER_BYTES: nat := 16

  ghost predicate Sound(f: Framing) {
    && f.read([]) == AtEnd
    && (forall r: ChangeRecord, rest: Bytes :: f.fits(r) ==> f.read(f.frame(r) + rest) == Got(r, |f.frame(r)|))
    && (forall r: ChangeRecord, n: nat :: f.fits(r) && 0 < n < |f.frame(r)| ==> f.read(f.frame(r)[..n]) == Torn)
    && (forall r: ChangeRecord :: f.fits(r) ==> HEADER_BYTES <= |f.frame(r)| < 0x8000_0000 + HEADER_BYTES)
    && Progresses(f)
  }

  ghost predicate Progresses(f: Framing) {
    forall b: Bytes :: f.read(b).Got? ==> 0 < f.read(b).size <= |b|
  }

  predicate AllFit(f: Framing, rs: seq<ChangeRecord>) {
    forall i :: 0 <= i < |rs| ==> f.fits(rs[i])
  }

  function FrameList(f: Framing, rs: seq<ChangeRecord>): Bytes {
    if rs == [] then [] else f.frame(rs[0]) + FrameList(f, rs[1..])
  }

  lemma {:induction false} FrameListConcat(f: Framing, a: seq<ChangeRecord>, b: seq<ChangeRecord>)
    ensures FrameList(f, a + b) == FrameList(f, a) + FrameList(f, b)
  {
    if a == [] {
      assert a + b == b;
    } else {
      assert (a + b)[1..] == a[1..] + b;
      FrameListConcat(f, a[1..], b);
    }
  }

  lemma FrameListOne(f: Framing, r: ChangeRecord)
    ensures FrameList(f, [r]) == f.frame(r)
  {
    assert FrameList(f, []) == [];
  }

  /** Reads frames to the end of the file and accepts nothing else: `ReadSegmentRange`,
      `ReadRecordFrameFile`. */
  function ReadAll(f: Framing, b: Bytes): (rs: Option<seq<ChangeRecord>>)
    decreases |b|
  {
    match f.read(b)
    case AtEnd => Some([])
    case Torn => None
    case Damaged => None
    case Got(r, n) =>
      if !(0 < n <= |b|) then None
      else match ReadAll(f, b[n..])
           case None => None
           case Some(rs) => Some([r] + rs)
  }

  lemma ReadAllStep(f: Framing, r: ChangeRecord, rest: Bytes)
    requires Sound(f) && f.fits(r)
    ensures ReadAll(f, f.frame(r) + rest) ==
            match ReadAll(f, rest) case None => None case Some(rs) => Some([r] + rs)
  {
    var b := f.frame(r);
    assert f.read(b + rest) == Got(r, |b|);
    assert (b + rest)[|b|..] == rest;
  }

  lemma {:induction false} ReadAllFrames(f: Framing, rs: seq<ChangeRecord>)
    requires Sound(f) && AllFit(f, rs)
    ensures ReadAll(f, FrameList(f, rs)) == Some(rs)
  {
    if rs != [] {
      ReadAllFrames(f, rs[1..]);
      ReadAllStep(f, rs[0], FrameList(f, rs[1..]));
      assert rs == [rs[0]] + rs[1..];
    }
  }

  /** A file that ends in a torn frame is refused by the strict readers. */
  lemma {:induction false} ReadAllTorn(f: Framing, rs: seq<ChangeRecord>, r: ChangeRecord, n: nat)
    requires Sound(f) && AllFit(f, rs) && f.fits(r) && 0 < n < |f.frame(r)|
    ensures ReadAll(f, FrameList(f, rs) + f.frame(r)[..n]) == None
  {
    var tail := f.frame(r)[..n];
    if rs == [] {
      assert FrameList(f, rs) + tail == tail;
    } else {
      ReadAllTorn(f, rs[1..], r, n);
      ReadAllStep(f, rs[0], FrameList(f, rs[1..]) + tail);
      assert FrameList(f, rs) + tail == f.frame(rs[0]) + (FrameList(f, rs[1..]) + tail);
    }
  }
}

/** The framing of the change log: a 16-byte header and a serialised record. */
module Frames {
  import opened Bytes
  import opened ChangeRecords
  import opened Framings
  import CrcDivision
  import opened Wrappers

  const MAGIC: nat := 0x43444331
  const VERSION: nat := 1
  const WORD: nat := 4
  const HALF: nat := 2

  /** `static_cast<uint32_t>`. */
  function Truncate(n: nat): nat {
    if n < 0x1_0000_0000 then n else n % 0x1_0000_0000
  }

  /** magic, version, flags, payload size and checksum, in the byte order of a little-endian host. */
  function Header(size: nat, crc: nat): (h: Bytes)
    ensures |h| == HEADER_BYTES
  {
    ToLE(MAGIC, WORD) + ToLE(VERSION, HALF) + ToLE(0, HALF) + ToLE(Truncate(size), WORD) + ToLE(crc, WORD)
  }

  function Frame(c: Codec, r: ChangeRecord): (b: Bytes)
    ensures |b| == HEADER_BYTES + |c.encode(r)|
  {
    var payload := c.encode(r);
    Header(|payload|, c.crc(payload)) + payload
  }

  function ReadPayload(b: Bytes): (p: Option<Bytes>)
    requires |b| >= HEADER_BYTES
    ensures p.Some? ==> HEADER_BYTES + |p.value| <= |b|
  {
    var size := FromLE(b[8..12]);
    if |b| - HEADER_BYTES < size then None else Some(b[HEADER_BYTES..HEADER_BYTES + size])
  }

  /** Header, then payload, then checksum, then record: the order in which all three readers look. */
  function ReadFrame(c: Codec, b: Bytes): (f: FrameRead)
    ensures f.Got? ==> HEADER_BYTES <= f.size <= |b|
  {
    if b == [] then AtEnd
    else if |b| < HEADER_BYTES then Torn
    else if FromLE(b[0..4]) != MAGIC || FromLE(b[4..6]) != VERSION then Damaged
    else
      match ReadPayload(b)
      case None => Torn
      case Some(payload) =>
        if c.crc(payload) != FromLE(b[12..16]) then Damaged
        else match c.decode(payload)
             case None => Damaged
             case Some(r) => Got(r, HEADER_BYTES + |payload|)
  }

  function LogFraming(c: Codec): Framing {
    Framing(r => c.fits(r), r => Frame(c, r), b => ReadFrame(c, b))
  }

  lemma FieldSlices(magic: Bytes, version: Bytes, flags: Bytes, size: Bytes, crc: Bytes, rest: Bytes)
    requires |magic| == |size| == |crc| == 4 && |version| == |flags| == 2
    ensures var b := magic + version + flags + size + crc + rest;
            b[0..4] == magic && b[4..6] == version && b[8..12] == size && b[12..16] == crc
  {
  }

  lemma WordValue(field: Bytes, n: nat)
    requires n < 0x1_0000_0000 && field == ToLE(n, WORD)
    ensures FromLE(field) == n
  {
    Pow256Values();
    FromToLE(n, WORD);
  }

  lemma HalfValue(field: Bytes, n: nat)
    requires n < 0x1_0000 && field == ToLE(n, HALF)
    ensures FromLE(field) == n
  {
    Pow256Values();
    FromToLE(n, HALF);
  }

  lemma HeaderSlices(size: nat, crc: nat, rest: Bytes)
    requires size < 0x1_0000_0000
    ensures var b := Header(size, crc) + rest;
            && b[0..4] == ToLE(MAGIC, WORD) && b[4..6] == ToLE(VERSION, HALF)
            && b[8..12] == ToLE(size, WORD) && b[12..16] == ToLE(crc, WORD)
  {
    var m, v, f, n, k := ToLE(MAGIC, WORD), ToLE(VERSION, HALF), ToLE(0, HALF), ToLE(size, WORD), ToLE(crc, WORD);
    FieldSlices(m, v, f, n, k, rest);
  }

  lemma HeaderFields(size: nat, crc: nat, rest: Bytes)
    requires size < 0x1_0000_0000 && crc < 0x1_0000_0000
    ensures var b := Header(size, crc) + rest;
            FromLE(b[0..4]) == MAGIC && FromLE(b[4..6]) == VERSION && FromLE(b[8..12]) == size
                && FromLE(b[12..16]) == crc
  {
    var b := Header(size, crc) + rest;
    HeaderSlices(size, crc, rest);
    WordValue(b[0..4], MAGIC);
    HalfValue(b[4..6], VERSION);
    WordValue(b[8..12], size);
    WordValue(b[12..16], crc);
  }

  lemma PayloadAfterHeader(h: Bytes, p: Bytes, rest: Bytes)
    requires |h| == HEADER_BYTES
    ensures (h + p + rest)[HEADER_BYTES..HEADER_BYTES + |p|] == p
    ensures h + p + rest == h + (p + rest)
  {
  }

  /** A whole frame is read back whatever follows it. */
  lemma ReadWholeFrame(c: Codec, r: ChangeRecord, rest: Bytes)
    requires Faithful(c) && c.fits(r)
    ensures ReadFrame(c, Frame(c, r) + rest) == Got(r, |Frame(c, r)|)
  {
    var p := c.encode(r);
    var h := Header(|p|, c.crc(p));
    HeaderFields(|p|, c.crc(p), p + rest);
    PayloadAfterHeader(h, p, rest);
  }

  /** A frame cut anywhere inside is recognised as torn. */
  lemma ReadTornFrame(c: Codec, r: ChangeRecord, n: nat)
    requires Faithful(c) && c.fits(r) && 0 < n < |Frame(c, r)|
    ensures ReadFrame(c, Frame(c, r)[..n]) == Torn
  {
    var p := c.encode(r);
    if n >= HEADER_BYTES {
      var q := p[..n - HEADER_BYTES];
      HeaderFields(|p|, c.crc(p), q);
      assert Frame(c, r)[..n] == Header(|p|, c.crc(p)) + q;
    }
  }

  /** The framing that the log writes is one it can read back and whose torn ends it recognises. */
  lemma LogFramingSound(c: Codec)
    requires Faithful(c)
    ensures Sound(LogFraming(c))
  {
    var f := LogFraming(c);
    forall r: ChangeRecord, rest: Bytes | f.fits(r)
      ensures f.read(f.frame(r) + rest) == Got(r, |f.frame(r)|)
    {
      ReadWholeFrame(c, r, rest);
    }
    forall r: ChangeRecord, n: nat | f.fits(r) && 0 < n < |f.frame(r)|
      ensures f.read(f.frame(r)[..n]) == Torn
    {
      ReadTornFrame(c, r, n);
    }
    forall r: ChangeRecord | f.fits(r)
      ensures HEADER_BYTES <= |f.frame(r)| < 0x8000_0000 + HEADER_BYTES
    {
    }
  }

  ghost predicate UsesCrc32c(c: Codec) {
    forall b: Bytes :: c.crc(b) == CrcDivision.Checksum(b)
  }

  /** Damage of a stored payload inside four consecutive bytes is recognised by the checksum. */
  lemma ReadDamagedFrame(c: Codec, pre: Bytes, x: Bytes, y: Bytes, post: Bytes, rest: Bytes)
    requires Faithful(c) && UsesCrc32c(c) && |x| == |y| <= 4 && x != y && |pre + x + post| < 0x1_0000_0000
    ensures ReadFrame(c, Header(|pre + x + post|, c.crc(pre + x + post)) + (pre + y + post) + rest) == Damaged
  {
    var p, q := pre + x + post, pre + y + post;
    assert c.crc(p) != c.crc(q) by { CrcDivision.ChecksumDetectsBurst(pre, x, y, post); }
    HeaderFields(|p|, c.crc(p), q + rest);
    PayloadAfterHeader(Header(|p|, c.crc(p)), q, rest);
  }
}
