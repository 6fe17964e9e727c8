/** The intent files of tools/storaged.cc: what a commit is about to append to the change log of a partition. */
module Intents {
  import opened Bytes
  import opened ChangeRecords
  import opened Manifests
  import Frames
  import LogFormats
  import opened Wrappers

  /** Transaction, version, and the records with their storage timestamps. */
  datatype IntentBatch = IntentBatch(txnId: nat, version: nat, records: seq<(nat, ChangeRecord)>)

  const WORD: nat := 4
  const LONG: nat := 8
  const MAGIC: string := "CEDAR_CDC_INTENT_V1"
  const MAX_MAGIC: nat := 1024
  const MAX_RECORDS: nat := 1000000
  const MAX_SIZE: nat := 16 * 1024 * 1024

  // ---------------------------------------------------------------- writing

  function EncodeRecord(c: Codec, r: (nat, ChangeRecord)): Bytes {
    ToLE(r.0, LONG) + ToLE(Frames.Truncate(|c.encode(r.1)|), WORD) + c.encode(r.1)
  }

  function EncodeRecords(c: Codec, rs: seq<(nat, ChangeRecord)>): Bytes {
    if rs == [] then [] else EncodeRecord(c, rs[0]) + EncodeRecords(c, rs[1..])
  }

  function EncodeHeader(b: IntentBatch): Bytes {
    ToLE(|MAGIC|, WORD) + LogFormats.ToBytes(MAGIC) + ToLE(b.txnId, LONG) + ToLE(b.version, LONG)
        + ToLE(Frames.Truncate(|b.records|), WORD)
  }

  function Encode(c: Codec, b: IntentBatch): Bytes { EncodeHeader(b) + EncodeRecords(c, b.records) }

  // ---------------------------------------------------------------- reading

  datatype Read<+T> = Fail | Ok(value: T, rest: Bytes)

  function Take(n: nat, b: Bytes): Read<Bytes> { if |b| < n then Fail else Ok(b[..n], b[n..]) }

  function TakeNumber(k: nat, b: Bytes): Read<nat> {
    match Take(k, b)
    case Fail => Fail
    case Ok(v, rest) => Ok(FromLE(v), rest)
  }

  function TakePayload(c: Codec, size: nat, b: Bytes): Read<ChangeRecord> {
    if size == 0 || size > MAX_SIZE then Fail
    else match Take(size, b)
         case Fail => Fail
         case Ok(payload, rest) =>
           match c.decode(payload)
           case None => Fail
           case Some(r) => Ok(r, rest)
  }

  function TakeRecord(c: Codec, b: Bytes): Read<(nat, ChangeRecord)> {
    match TakeNumber(LONG, b)
    case Fail => Fail
    case Ok(stamp, b1) =>
      match TakeNumber(WORD, b1)
      case Fail => Fail
      case Ok(size, b2) =>
        match TakePayload(c, size, b2)
        case Fail => Fail
        case Ok(r, rest) => Ok((stamp, r), rest)
  }

  function TakeRecords(c: Codec, n: nat, b: Bytes): Read<seq<(nat, ChangeRecord)>> {
    if n == 0 then Ok([], b)
    else match TakeRecord(c, b)
         case Fail => Fail
         case Ok(r, rest) =>
           match TakeRecords(c, n - 1, rest)
           case Fail => Fail
           case Ok(rs, end) => Ok([r] + rs, end)
  }

  function TakeMagic(b: Bytes): Read<()> {
    match TakeNumber(WORD, b)
    case Fail => Fail
    case Ok(n, b1) =>
      if n == 0 || n > MAX_MAGIC then Fail
      else match Take(n, b1)
           case Fail => Fail
           case Ok(magic, rest) => if magic == LogFormats.ToBytes(MAGIC) then Ok((), rest) else Fail
  }

  datatype Counts = Counts(txnId: nat, version: nat, count: nat)

  function TakeCounts(b: Bytes): Read<Counts> {
    match TakeNumber(LONG, b)
    case Fail => Fail
    case Ok(txnId, b1) =>
      match TakeNumber(LONG, b1)
      case Fail => Fail
      case Ok(version, b2) =>
        match TakeNumber(WORD, b2)
        case Fail => Fail
        case Ok(n, rest) => if n > MAX_RECORDS then Fail else Ok(Counts(txnId, version, n), rest)
  }

  function TakeIntent(c: Codec, b: Bytes): Read<IntentBatch> {
    match TakeMagic(b)
    case Fail => Fail
    case Ok(_, b1) =>
      match TakeCounts(b1)
      case Fail => Fail
      case Ok(h, b2) =>
        match TakeRecords(c, h.count, b2)
        case Fail => Fail
        case Ok(rs, rest) => Ok(IntentBatch(h.txnId, h.version, rs), rest)
  }

  /** `ReadCdcIntent`; whatever follows the last record is ignored. */
  function Decode(c: Codec, b: Bytes): Option<IntentBatch> {
    match TakeIntent(c, b)
    case Fail => None
    case Ok(batch, _) => Some(batch)
  }

  // ---------------------------------------------------------------- more bytes change nothing

  /** Reading with x behind the input: the same value, and x behind the rest. */
  predicate Extends<T(==)>(r: Read<T>, s: Read<T>, x: Bytes) {
    r.Ok? ==> s.Ok? && s.value == r.value && s.rest == r.rest + x
  }

  lemma TakeExtends(n: nat, b: Bytes, x: Bytes)
    ensures Extends(Take(n, b), Take(n, b + x), x)
  {
    if n <= |b| { assert (b + x)[..n] == b[..n] && (b + x)[n..] == b[n..] + x; }
  }

  lemma NumberExtends(k: nat, b: Bytes, x: Bytes)
    ensures Extends(TakeNumber(k, b), TakeNumber(k, b + x), x)
  {
    TakeExtends(k, b, x);
  }

  lemma PayloadExtends(c: Codec, size: nat, b: Bytes, x: Bytes)
    ensures Extends(TakePayload(c, size, b), TakePayload(c, size, b + x), x)
  {
    TakeExtends(size, b, x);
  }

  lemma RecordExtends(c: Codec, b: Bytes, x: Bytes)
    ensures Extends(TakeRecord(c, b), TakeRecord(c, b + x), x)
  {
    NumberExtends(LONG, b, x);
    if TakeNumber(LONG, b).Ok? {
      var b1 := TakeNumber(LONG, b).rest;
      NumberExtends(WORD, b1, x);
      if TakeNumber(WORD, b1).Ok? { PayloadExtends(c, TakeNumber(WORD, b1).value, TakeNumber(WORD, b1).rest, x); }
    }
  }

  lemma {:induction false} RecordsExtend(c: Codec, n: nat, b: Bytes, x: Bytes)
    ensures Extends(TakeRecords(c, n, b), TakeRecords(c, n, b + x), x)
    decreases n
  {
    if n > 0 {
      RecordExtends(c, b, x);
      if TakeRecord(c, b).Ok? { RecordsExtend(c, n - 1, TakeRecord(c, b).rest, x); }
    }
  }

  lemma MagicExtends(b: Bytes, x: Bytes)
    ensures Extends(TakeMagic(b), TakeMagic(b + x), x)
  {
    NumberExtends(WORD, b, x);
    if TakeNumber(WORD, b).Ok? { TakeExtends(TakeNumber(WORD, b).value, TakeNumber(WORD, b).rest, x); }
  }

  lemma CountsExtend(b: Bytes, x: Bytes)
    ensures Extends(TakeCounts(b), TakeCounts(b + x), x)
  {
    NumberExtends(LONG, b, x);
    if TakeNumber(LONG, b).Ok? {
      var b1 := TakeNumber(LONG, b).rest;
      NumberExtends(LONG, b1, x);
      if TakeNumber(LONG, b1).Ok? { NumberExtends(WORD, TakeNumber(LONG, b1).rest, x); }
    }
  }

  lemma IntentExtends(c: Codec, b: Bytes, x: Bytes)
    ensures Extends(TakeIntent(c, b), TakeIntent(c, b + x), x)
  {
    MagicExtends(b, x);
    if TakeMagic(b).Ok? {
      var b1 := TakeMagic(b).rest;
      CountsExtend(b1, x);
      if TakeCounts(b1).Ok? { RecordsExtend(c, TakeCounts(b1).value.count, TakeCounts(b1).rest, x); }
    }
  }

  // ---------------------------------------------------------------- what was written is read

  /** What the reader accepts: at most a million records of 1 byte to 16 MiB, and numbers that fit their fields. */
  predicate RecordInRange(c: Codec, r: (nat, ChangeRecord)) {
    r.0 <= UINT64_MAX && c.fits(r.1) && 0 < |c.encode(r.1)| <= MAX_SIZE
  }

  predicate InRange(c: Codec, b: IntentBatch) {
    && b.txnId <= UINT64_MAX && b.version <= UINT64_MAX && |b.records| <= MAX_RECORDS
    && AllInRange(c, b.records)
  }

  lemma TakeBack(v: Bytes, x: Bytes)
    ensures Take(|v|, v + x) == Ok(v, x)
  {
  }

  lemma LongBack(n: nat, x: Bytes)
    requires n <= UINT64_MAX
    ensures TakeNumber(LONG, ToLE(n, LONG) + x) == Ok(n, x)
  {
    TakeBack(ToLE(n, LONG), x);
    Pow256Values();
    FromToLE(n, LONG);
  }

  lemma WordBack(n: nat, x: Bytes)
    requires n <= UINT32_MAX
    ensures TakeNumber(WORD, ToLE(n, WORD) + x) == Ok(n, x)
  {
    TakeBack(ToLE(n, WORD), x);
    Pow256Values();
    FromToLE(n, WORD);
  }

  lemma PayloadBack(c: Codec, r: ChangeRecord, x: Bytes)
    requires Faithful(c) && c.fits(r) && 0 < |c.encode(r)| <= MAX_SIZE
    ensures TakePayload(c, |c.encode(r)|, c.encode(r) + x) == Ok(r, x)
  {
    TakeBack(c.encode(r), x);
  }

  lemma RecordApart(c: Codec, r: (nat, ChangeRecord), x: Bytes)
    requires RecordInRange(c, r)
    ensures EncodeRecord(c, r) + x ==
            ToLE(r.0, LONG) + (ToLE(|c.encode(r.1)|, WORD) + (c.encode(r.1) + x))
  {
    assert Frames.Truncate(|c.encode(r.1)|) == |c.encode(r.1)|;
  }

  lemma RecordBack(c: Codec, r: (nat, ChangeRecord), x: Bytes)
    requires Faithful(c) && RecordInRange(c, r)
    ensures TakeRecord(c, EncodeRecord(c, r) + x) == Ok(r, x)
  {
    var payload := c.encode(r.1);
    RecordApart(c, r, x);
    LongBack(r.0, ToLE(|payload|, WORD) + (payload + x));
    WordBack(|payload|, payload + x);
    PayloadBack(c, r.1, x);
  }

  predicate AllInRange(c: Codec, rs: seq<(nat, ChangeRecord)>) {
    forall i :: 0 <= i < |rs| ==> RecordInRange(c, rs[i])
  }

  lemma FirstRecord(c: Codec, rs: seq<(nat, ChangeRecord)>, x: Bytes)
    requires rs != []
    ensures EncodeRecords(c, rs) + x == EncodeRecord(c, rs[0]) + (EncodeRecords(c, rs[1..]) + x)
  {
  }

  lemma RecordsBackMore(c: Codec, rs: seq<(nat, ChangeRecord)>, x: Bytes)
    requires Faithful(c) && rs != [] && RecordInRange(c, rs[0])
    requires TakeRecords(c, |rs| - 1, EncodeRecords(c, rs[1..]) + x) == Ok(rs[1..], x)
    ensures TakeRecords(c, |rs|, EncodeRecords(c, rs) + x) == Ok(rs, x)
  {
    FirstRecord(c, rs, x);
    RecordBack(c, rs[0], EncodeRecords(c, rs[1..]) + x);
    assert rs == [rs[0]] + rs[1..];
  }

  lemma {:induction false} RecordsBack(c: Codec, rs: seq<(nat, ChangeRecord)>, x: Bytes)
    requires Faithful(c) && AllInRange(c, rs)
    ensures TakeRecords(c, |rs|, EncodeRecords(c, rs) + x) == Ok(rs, x)
  {
    if rs == [] {
      assert EncodeRecords(c, rs) + x == x;
    } else {
      var rest := rs[1..];
      RecordsBack(c, rest, x);
      assert |rest| == |rs| - 1;
      RecordsBackMore(c, rs, x);
    }
  }

  lemma MagicBack(x: Bytes)
    ensures TakeMagic(ToLE(|MAGIC|, WORD) + (LogFormats.ToBytes(MAGIC) + x)) == Ok((), x)
  {
    WordBack(|MAGIC|, LogFormats.ToBytes(MAGIC) + x);
    TakeBack(LogFormats.ToBytes(MAGIC), x);
  }

  lemma CountsBack(b: IntentBatch, x: Bytes)
    requires b.txnId <= UINT64_MAX && b.version <= UINT64_MAX && |b.records| <= MAX_RECORDS
    ensures TakeCounts(ToLE(b.txnId, LONG) + (ToLE(b.version, LONG) + (ToLE(|b.records|, WORD) + x))) ==
            Ok(Counts(b.txnId, b.version, |b.records|), x)
  {
    LongBack(b.txnId, ToLE(b.version, LONG) + (ToLE(|b.records|, WORD) + x));
    LongBack(b.version, ToLE(|b.records|, WORD) + x);
    WordBack(|b.records|, x);
  }

  lemma HeaderApart(b: IntentBatch, x: Bytes)
    requires |b.records| <= MAX_RECORDS
    ensures EncodeHeader(b) + x ==
            ToLE(|MAGIC|, WORD) +
            (LogFormats.ToBytes(MAGIC) + (ToLE(b.txnId, LONG)
                + (ToLE(b.version, LONG) + (ToLE(|b.records|, WORD) + x))))
  {
  }

  /** Reading an intent consumes exactly what was written for it. */
  lemma IntentBack(c: Codec, b: IntentBatch, x: Bytes)
    requires Faithful(c) && InRange(c, b)
    ensures TakeIntent(c, Encode(c, b) + x) == Ok(b, x)
  {
    var records := EncodeRecords(c, b.records);
    assert Encode(c, b) + x == EncodeHeader(b) + (records + x);
    HeaderApart(b, records + x);
    MagicBack(ToLE(b.txnId, LONG) + (ToLE(b.version, LONG) + (ToLE(|b.records|, WORD) + (records + x))));
    CountsBack(b, records + x);
    RecordsBack(c, b.records, x);
  }

  /** A persisted intent reads back as what it was. */
  lemma RoundTrip(c: Codec, b: IntentBatch)
    requires Faithful(c) && InRange(c, b)
    ensures Decode(c, Encode(c, b)) == Some(b)
  {
    IntentBack(c, b, []);
    assert Encode(c, b) + [] == Encode(c, b);
  }

  lemma CutRefused(c: Codec, b: IntentBatch, p: Bytes, x: Bytes)
    requires TakeIntent(c, p + x) == Ok(b, []) && x != []
    ensures Decode(c, p) == None
  {
    IntentExtends(c, p, x);
  }

  /** A file that was cut anywhere is refused. */
  lemma PrefixRefused(c: Codec, b: IntentBatch, n: nat)
    requires Faithful(c) && InRange(c, b) && n < |Encode(c, b)|
    ensures Decode(c, Encode(c, b)[..n]) == None
  {
    var whole := Encode(c, b);
    IntentBack(c, b, []);
    assert whole + [] == whole == whole[..n] + whole[n..];
    CutRefused(c, b, whole[..n], whole[n..]);
  }

  // ---------------------------------------------------------------- the loops

  /** `PersistCdcIntent`: what is written to the temporary file before the rename; None if a record cannot be
      serialised. */
  method Write(c: Codec, b: IntentBatch) returns (out: Option<Bytes>)
    ensures (forall i :: 0 <= i < |b.records| ==> c.fits(b.records[i].1)) ==> out == Some(Encode(c, b))
    ensures out.Some? ==> out.value == Encode(c, b)
  {
    var header := EncodeHeader(b);
    var body: Bytes := [];
    var i := 0;
    assert b.records[..0] == [];
    while i < |b.records|
      invariant i <= |b.records| && body == EncodeRecords(c, b.records[..i])
    {
      var r := b.records[i];
      if !c.fits(r.1) { return None; }
      EncodeMore(c, b.records, i);
      body := body + EncodeRecord(c, r);
      i := i + 1;
    }
    assert b.records[..i] == b.records;
    return Some(header + body);
  }

  lemma {:induction false} EncodeConcat(c: Codec, a: seq<(nat, ChangeRecord)>, b: seq<(nat, ChangeRecord)>)
    ensures EncodeRecords(c, a + b) == EncodeRecords(c, a) + EncodeRecords(c, b)
  {
    if a == [] {
      assert a + b == b;
    } else {
      assert (a + b)[1..] == a[1..] + b;
      EncodeConcat(c, a[1..], b);
    }
  }

  lemma EncodeMore(c: Codec, rs: seq<(nat, ChangeRecord)>, i: nat)
    requires i < |rs|
    ensures EncodeRecords(c, rs[..i + 1]) == EncodeRecords(c, rs[..i]) + EncodeRecord(c, rs[i])
  {
    assert rs[..i + 1] == rs[..i] + [rs[i]];
    EncodeConcat(c, rs[..i], [rs[i]]);
    assert EncodeRecords(c, [rs[i]]) == EncodeRecord(c, rs[i]) + [];
  }

  function ReadOn(done: seq<(nat, ChangeRecord)>, rest: Read<seq<(nat, ChangeRecord)>>): Read<seq<(nat,
                  ChangeRecord)>> {
    match rest
    case Fail => Fail
    case Ok(rs, end) => Ok(done + rs, end)
  }

  lemma ReadOnStep(c: Codec, n: nat, b: Bytes, done: seq<(nat, ChangeRecord)>)
    requires n > 0
    ensures var r := TakeRecord(c, b);
            ReadOn(done, TakeRecords(c, n, b)) == if r.Fail? then Fail
                else ReadOn(done + [r.value], TakeRecords(c, n - 1, r.rest))
  {
    var r := TakeRecord(c, b);
    if r.Ok? {
      var t := TakeRecords(c, n - 1, r.rest);
      if t.Ok? { assert done + ([r.value] + t.value) == done + [r.value] + t.value; }
    }
  }

  /** The records read so far and those still in the rest are all the records. */
  ghost predicate Reading(c: Codec, all: Read<seq<(nat, ChangeRecord)>>, done: seq<(nat, ChangeRecord)>, left: nat,
                          rest: Bytes) {
    all == ReadOn(done, TakeRecords(c, left, rest))
  }

  lemma ReadingStarts(c: Codec, n: nat, b: Bytes)
    ensures Reading(c, TakeRecords(c, n, b), [], n, b)
  {
    var all := TakeRecords(c, n, b);
    if all.Ok? { assert [] + all.value == all.value; }
  }

  lemma ReadingGoesOn(c: Codec, all: Read<seq<(nat, ChangeRecord)>>, done: seq<(nat, ChangeRecord)>, left: nat,
                      rest: Bytes)
    requires left > 0 && Reading(c, all, done, left, rest)
    ensures var r := TakeRecord(c, rest);
            if r.Fail? then all.Fail? else Reading(c, all, done + [r.value], left - 1, r.rest)
  {
    ReadOnStep(c, left, rest, done);
  }

  lemma ReadingEnds(c: Codec, all: Read<seq<(nat, ChangeRecord)>>, done: seq<(nat, ChangeRecord)>, rest: Bytes)
    requires Reading(c, all, done, 0, rest)
    ensures all == Ok(done, rest)
  {
    assert done + [] == done;
  }

  method ReadBack(c: Codec, b: Bytes) returns (batch: Option<IntentBatch>)
    ensures batch == Decode(c, b)
  {
    var m := TakeMagic(b);
    if m.Fail? { return None; }
    var h := TakeCounts(m.rest);
    if h.Fail? { return None; }
    var records := ReadRecords(c, h.value.count, h.rest);
    if records.None? { return None; }
    return Some(IntentBatch(h.value.txnId, h.value.version, records.value));
  }

  method ReadRecords(c: Codec, count: nat, b: Bytes) returns (records: Option<seq<(nat, ChangeRecord)>>)
    ensures var all := TakeRecords(c, count, b); if all.Fail? then records.None? else records == Some(all.value)
  {
    ghost var all := TakeRecords(c, count, b);
    var done: seq<(nat, ChangeRecord)>, rest, i := [], b, 0;
    ReadingStarts(c, count, b);
    while i < count
      invariant i <= count && Reading(c, all, done, count - i, rest)
    {
      ReadingGoesOn(c, all, done, count - i, rest);
      var r := TakeRecord(c, rest);
      if r.Fail? { return None; }
      done, rest, i := done + [r.value], r.rest, i + 1;
    }
    ReadingEnds(c, all, done, rest);
    return Some(done);
  }
}
