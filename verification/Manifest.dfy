/** The MANIFEST file: `PersistManifestLocked` writes it, `ReadManifest` reads it. */
module Manifests {
  import opened Decimal
  import opened TextStream
  import opened Wrappers

  const UINT64_MAX: nat := 0xffff_ffff_ffff_ffff
  const UINT32_MAX: nat := 0xffff_ffff

  datatype SegmentInfo = SegmentInfo(name: string, first: nat, last: nat, bytes: nat)

  datatype Manifest = Manifest(
    partitionId: nat,
    partitionEpoch: nat,
    earliest: nat,
    highWatermark: nat,
    committed: nat,
    segments: seq<SegmentInfo>)

  // ---------------------------------------------------------------- writing

  function Scalar(key: string, n: nat): string { key + (" " + (Numeral(n) + "")) }

  /** A label, a number, and what follows on the line. */
  function Field(key: string, n: nat, rest: string): string { (" " + key) + (" " + (Numeral(n) + rest)) }

  function SegmentLine(s: SegmentInfo): string {
    s.name + Field("first_offset", s.first, Field("last_offset", s.last, Field("bytes", s.bytes, "")))
  }

  function SegmentLines(ss: seq<SegmentInfo>): (lines: seq<string>)
    ensures |lines| == |ss|
  {
    if ss == [] then [] else [SegmentLine(ss[0])] + SegmentLines(ss[1..])
  }

  function ManifestLines(m: Manifest): seq<string> {
    [Scalar("version", 1), Scalar("partition_id", m.partitionId), Scalar("partition_epoch", m.partitionEpoch),
     Scalar("earliest_offset", m.earliest), Scalar("high_watermark", m.highWatermark),
     Scalar("committed_version", m.committed), "segments"] + SegmentLines(m.segments)
  }

  function Print(m: Manifest): string { Unlines(ManifestLines(m)) }

  // ---------------------------------------------------------------- reading

  /** The scalars read so far and the set of keys seen. */
  datatype Scalars = Scalars(
    partitionId: nat, partitionEpoch: nat, earliest: nat, highWatermark: nat, committed: nat, seen: set<string>)

  const INITIAL: Scalars := Scalars(0, 0, 1, 0, 0, {})

  const REQUIRED: set<string> :=
    {"version", "partition_id", "partition_epoch", "earliest_offset", "high_watermark", "committed_version"}

  /** One line of the first pass; only a version other than 1 is refused here. */
  function ReadScalar(line: string, s: Scalars): (r: Option<Scalars>)
  {
    var (key, rest) := ReadWord(Stream(line, true), "");
    var t := s.(seen := s.seen + {key});
    if key == "version" then (if ReadNumber(rest, 0, UINT64_MAX).0 != 1 then None else Some(t))
    else if key == "partition_id" then Some(t.(partitionId := ReadNumber(rest, s.partitionId, UINT32_MAX).0))
    else if key == "partition_epoch" then Some(t.(partitionEpoch := ReadNumber(rest, s.partitionEpoch, UINT64_MAX).0))
    else if key == "earliest_offset" then Some(t.(earliest := ReadNumber(rest, s.earliest, UINT64_MAX).0))
    else if key == "high_watermark" then Some(t.(highWatermark := ReadNumber(rest, s.highWatermark, UINT64_MAX).0))
    else if key == "committed_version" then Some(t.(committed := ReadNumber(rest, s.committed, UINT64_MAX).0))
    else Some(s)
  }

  /** First pass: every line up to the one that says "segments". */
  function ReadScalars(lines: seq<string>, s: Scalars): (r: Option<Scalars>)
    decreases |lines|
  {
    if lines == [] || lines[0] == "segments" then Some(s)
    else match ReadScalar(lines[0], s)
         case None => None
         case Some(t) => ReadScalars(lines[1..], t)
  }

  function ReadField(in_: Stream, oldWord: string): (r: (string, nat, Stream))
  {
    var (word, s) := ReadWord(in_, oldWord);
    var (n, t) := ReadNumber(s, 0, UINT64_MAX);
    (word, n, t)
  }

  function ReadSegment(line: string): (r: Option<SegmentInfo>)
  {
    var (name, s0) := ReadWord(Stream(line, true), "");
    var (label1, first, s1) := ReadField(s0, "");
    if label1 != "first_offset" then None else
    var (label2, last, s2) := ReadField(s1, label1);
    if label2 != "last_offset" then None else
    var (label3, bytes, s3) := ReadField(s2, label2);
    if label3 != "bytes" || name == "" then None else
    Some(SegmentInfo(name, first, last, bytes))
  }

  /** Second pass: every non-empty line after "segments". */
  function ReadSegments(lines: seq<string>, inSegments: bool): (r: Option<seq<SegmentInfo>>)
    decreases |lines|
  {
    if lines == [] then Some([])
    else if lines[0] == "segments" then ReadSegments(lines[1..], true)
    else if !inSegments || lines[0] == "" then ReadSegments(lines[1..], inSegments)
    else match ReadSegment(lines[0])
         case None => None
         case Some(s) =>
           match ReadSegments(lines[1..], inSegments)
           case None => None
           case Some(ss) => Some([s] + ss)
  }

  function ParseLines(lines: seq<string>): (m: Option<Manifest>)
  {
    match ReadScalars(lines, INITIAL)
    case None => None
    case Some(s) =>
      match ReadSegments(lines, false)
      case None => None
      case Some(ss) =>
        if REQUIRED <= s.seen
        then Some(Manifest(s.partitionId, s.partitionEpoch, s.earliest, s.highWatermark, s.committed, ss))
        else None
  }

  /** None stands for every status `ReadManifest` reports as corruption. */
  function Parse(text: string): (m: Option<Manifest>) { ParseLines(Lines(text)) }

  // ---------------------------------------------------------------- reading what was written

  /** The manifests that fit the file's number types. */
  predicate InRange(m: Manifest) {
    && m.partitionId <= UINT32_MAX && m.partitionEpoch <= UINT64_MAX && m.earliest <= UINT64_MAX
    && m.highWatermark <= UINT64_MAX && m.committed <= UINT64_MAX
    && forall i :: 0 <= i < |m.segments| ==> SegmentInRange(m.segments[i])
  }

  predicate SegmentInRange(s: SegmentInfo) {
    && s.name != "" && NoSpace(s.name) && Narrow(s.name) && s.name != "segments"
    && s.first <= UINT64_MAX && s.last <= UINT64_MAX && s.bytes <= UINT64_MAX
  }

  lemma ReadBackField(key: string, n: nat, rest: string, oldWord: string)
    requires key != "" && NoSpace(key) && n <= UINT64_MAX && Delimited(rest)
    ensures ReadField(Stream(Field(key, n, rest), true), oldWord) == (key, n, Stream(rest, true))
    ensures Delimited(Field(key, n, rest))
  {
    var t := " " + (Numeral(n) + rest);
    assert (" " + key) + t == " " + (key + t);
    ReadWordAt(key, t, oldWord);
    ReadNumberAt(n, rest, 0, UINT64_MAX);
  }

  lemma LabelsHaveNoSpace()
    ensures NoSpace("first_offset") && NoSpace("last_offset") && NoSpace("bytes")
  {
  }

  lemma ReadBackFields(s: SegmentInfo, r1: string, r2: string, r3: string)
    requires SegmentInRange(s)
    requires r3 == Field("bytes", s.bytes, "") && r2 == Field("last_offset", s.last, r3)
    requires r1 == Field("first_offset", s.first, r2)
    ensures Delimited(r1)
    ensures ReadField(Stream(r1, true), "") == ("first_offset", s.first, Stream(r2, true))
    ensures ReadField(Stream(r2, true), "first_offset") == ("last_offset", s.last, Stream(r3, true))
    ensures ReadField(Stream(r3, true), "last_offset") == ("bytes", s.bytes, Stream("", true))
  {
    LabelsHaveNoSpace();
    ReadBackField("bytes", s.bytes, "", "last_offset");
    ReadBackField("last_offset", s.last, r3, "first_offset");
    ReadBackField("first_offset", s.first, r2, "");
  }

  lemma ReadBackSegment(s: SegmentInfo)
    requires SegmentInRange(s)
    ensures ReadSegment(SegmentLine(s)) == Some(s)
  {
    var r3 := Field("bytes", s.bytes, "");
    var r2 := Field("last_offset", s.last, r3);
    var r1 := Field("first_offset", s.first, r2);
    ReadBackFields(s, r1, r2, r3);
    ReadWordAt(s.name, r1, "");
  }

  lemma ReadBackScalar(key: string, n: nat, old_: nat, max: nat)
    requires key != "" && NoSpace(key) && n <= max
    ensures ReadWord(Stream(Scalar(key, n), true), "") == (key, Stream(" " + (Numeral(n) + ""), true))
    ensures ReadNumber(Stream(" " + (Numeral(n) + ""), true), old_, max).0 == n
  {
    var t := " " + (Numeral(n) + "");
    ReadWordAt(key, t, "");
    ReadNumberAt(n, "", old_, max);
  }

  /** A line that the reader takes as one line and not as the "segments" marker. */
  predicate PlainLine(line: string) { '\n' !in line && line != "segments" }

  lemma ScalarIsPlain(key: string, n: nat)
    requires NoSpace(key)
    ensures PlainLine(Scalar(key, n))
  {
    NumeralHasNoSpace(n);
    assert Scalar(key, n)[|key|] == ' ';
    assert ' ' !in "segments";
  }

  lemma NumeralHasNoSpace(n: nat)
    ensures NoSpace(Numeral(n))
  {
  }

  lemma KeysHaveNoSpace()
    ensures NoSpace("version") && NoSpace("partition_id") && NoSpace("partition_epoch")
    ensures NoSpace("earliest_offset") && NoSpace("high_watermark") && NoSpace("committed_version")
  {
    KeysHaveNoSpaceA();
    KeysHaveNoSpaceB();
  }

  lemma KeysHaveNoSpaceA()
    ensures NoSpace("version") && NoSpace("partition_id") && NoSpace("partition_epoch")
  {
  }

  lemma KeysHaveNoSpaceB()
    ensures NoSpace("earliest_offset") && NoSpace("high_watermark") && NoSpace("committed_version")
  {
  }

  /** The scalar lines of a manifest. */
  function ScalarLines(m: Manifest): (lines: seq<string>)
    ensures |lines| == 6
  {
    [Scalar("version", 1), Scalar("partition_id", m.partitionId), Scalar("partition_epoch", m.partitionEpoch),
     Scalar("earliest_offset", m.earliest), Scalar("high_watermark", m.highWatermark),
     Scalar("committed_version", m.committed)]
  }

  lemma ScalarLinesArePlain(m: Manifest)
    ensures forall i :: 0 <= i < 6 ==> PlainLine(ScalarLines(m)[i])
  {
    KeysHaveNoSpace();
    ScalarIsPlain("version", 1);
    ScalarIsPlain("partition_id", m.partitionId);
    ScalarIsPlain("partition_epoch", m.partitionEpoch);
    ScalarIsPlain("earliest_offset", m.earliest);
    ScalarIsPlain("high_watermark", m.highWatermark);
    ScalarIsPlain("committed_version", m.committed);
  }

  lemma ReadBackScalarA(m: Manifest, s: Scalars)
    requires InRange(m)
    ensures ReadScalar(Scalar("version", 1), s) == Some(s.(seen := s.seen + {"version"}))
    ensures ReadScalar(Scalar("partition_id", m.partitionId), s)
            == Some(s.(seen := s.seen + {"partition_id"}, partitionId := m.partitionId))
    ensures ReadScalar(Scalar("partition_epoch", m.partitionEpoch), s)
            == Some(s.(seen := s.seen + {"partition_epoch"}, partitionEpoch := m.partitionEpoch))
  {
    KeysHaveNoSpace();
    ReadBackScalar("version", 1, 0, UINT64_MAX);
    ReadBackScalar("partition_id", m.partitionId, s.partitionId, UINT32_MAX);
    ReadBackScalar("partition_epoch", m.partitionEpoch, s.partitionEpoch, UINT64_MAX);
  }

  lemma ReadBackScalarB(m: Manifest, s: Scalars)
    requires InRange(m)
    ensures ReadScalar(Scalar("earliest_offset", m.earliest), s)
            == Some(s.(seen := s.seen + {"earliest_offset"}, earliest := m.earliest))
    ensures ReadScalar(Scalar("high_watermark", m.highWatermark), s)
            == Some(s.(seen := s.seen + {"high_watermark"}, highWatermark := m.highWatermark))
    ensures ReadScalar(Scalar("committed_version", m.committed), s)
            == Some(s.(seen := s.seen + {"committed_version"}, committed := m.committed))
  {
    KeysHaveNoSpace();
    ReadBackScalar("earliest_offset", m.earliest, s.earliest, UINT64_MAX);
    ReadBackScalar("high_watermark", m.highWatermark, s.highWatermark, UINT64_MAX);
    ReadBackScalar("committed_version", m.committed, s.committed, UINT64_MAX);
  }

  lemma ThreeScalars(a: string, b: string, c: string, rest: seq<string>, s: Scalars, t: Scalars, u: Scalars, v: Scalars)
    requires PlainLine(a) && PlainLine(b) && PlainLine(c)
    requires ReadScalar(a, s) == Some(t) && ReadScalar(b, t) == Some(u) && ReadScalar(c, u) == Some(v)
    ensures ReadScalars([a, b, c] + rest, s) == ReadScalars(rest, v)
  {
    var r1 := [c] + rest;
    var r2 := [b] + r1;
    OneScalar(c, rest, u, v);
    OneScalar(b, r1, t, u);
    OneScalar(a, r2, s, t);
    assert [a] + r2 == [a, b, c] + rest;
  }

  lemma OneScalar(a: string, rest: seq<string>, s: Scalars, t: Scalars)
    requires PlainLine(a) && ReadScalar(a, s) == Some(t)
    ensures ReadScalars([a] + rest, s) == ReadScalars(rest, t)
  {
    assert ([a] + rest)[1..] == rest;
  }

  lemma ReadBackFirst(m: Manifest, rest: seq<string>, v: Scalars)
    requires InRange(m)
    requires v == INITIAL.(partitionId := m.partitionId, partitionEpoch := m.partitionEpoch,
                           seen := {"version", "partition_id", "partition_epoch"})
    ensures ReadScalars(ScalarLines(m)[..3] + rest, INITIAL) == ReadScalars(rest, v)
  {
    var t := INITIAL.(seen := INITIAL.seen + {"version"});
    var u := t.(seen := t.seen + {"partition_id"}, partitionId := m.partitionId);
    ReadBackScalarA(m, INITIAL);
    ReadBackScalarA(m, t);
    ReadBackScalarA(m, u);
    ScalarLinesArePlain(m);
    assert u.seen + {"partition_epoch"} == v.seen;
    var l := ScalarLines(m);
    assert PlainLine(l[0]) && PlainLine(l[1]) && PlainLine(l[2]);
    ThreeScalars(l[0], l[1], l[2], rest, INITIAL, t, u, v);
    assert l[..3] == [l[0], l[1], l[2]];
  }

  lemma ReadBackSecond(m: Manifest, rest: seq<string>, s: Scalars, v: Scalars)
    requires InRange(m)
    requires v == s.(earliest := m.earliest, highWatermark := m.highWatermark, committed := m.committed,
                     seen := s.seen + {"earliest_offset", "high_watermark", "committed_version"})
    ensures ReadScalars(ScalarLines(m)[3..] + rest, s) == ReadScalars(rest, v)
  {
    var t := s.(seen := s.seen + {"earliest_offset"}, earliest := m.earliest);
    var u := t.(seen := t.seen + {"high_watermark"}, highWatermark := m.highWatermark);
    ReadBackScalarB(m, s);
    ReadBackScalarB(m, t);
    ReadBackScalarB(m, u);
    ScalarLinesArePlain(m);
    assert u.seen + {"committed_version"} == v.seen;
    var l := ScalarLines(m);
    assert PlainLine(l[3]) && PlainLine(l[4]) && PlainLine(l[5]);
    ThreeScalars(l[3], l[4], l[5], rest, s, t, u, v);
    assert l[3..] == [l[3], l[4], l[5]];
  }

  lemma ReadBackScalars(m: Manifest, tail: seq<string>)
    requires InRange(m)
    ensures ReadScalars(ScalarLines(m) + ["segments"] + tail, INITIAL)
            == Some(Scalars(m.partitionId, m.partitionEpoch, m.earliest, m.highWatermark, m.committed, REQUIRED))
  {
    var l := ScalarLines(m);
    var s := INITIAL.(partitionId := m.partitionId, partitionEpoch := m.partitionEpoch,
                      seen := {"version", "partition_id", "partition_epoch"});
    var v := Scalars(m.partitionId, m.partitionEpoch, m.earliest, m.highWatermark, m.committed, REQUIRED);
    assert s.seen + {"earliest_offset", "high_watermark", "committed_version"} == v.seen;
    ReadBackFirst(m, l[3..] + (["segments"] + tail), s);
    ReadBackSecond(m, ["segments"] + tail, s, v);
    assert l[..3] + (l[3..] + (["segments"] + tail)) == l + ["segments"] + tail;
  }

  lemma {:induction false} ReadBackSegmentLines(ss: seq<SegmentInfo>)
    requires forall i :: 0 <= i < |ss| ==> SegmentInRange(ss[i])
    ensures ReadSegments(SegmentLines(ss), true) == Some(ss)
  {
    if ss != [] {
      ReadBackSegment(ss[0]);
      ReadBackSegmentLines(ss[1..]);
      SegmentLineIsPlain(ss[0]);
      ReadSegmentsStep(SegmentLines(ss), ss);
    }
  }

  lemma ReadSegmentsStep(lines: seq<string>, ss: seq<SegmentInfo>)
    requires lines != [] && ss != [] && PlainLine(lines[0]) && lines[0] != ""
    requires ReadSegment(lines[0]) == Some(ss[0]) && ReadSegments(lines[1..], true) == Some(ss[1..])
    ensures ReadSegments(lines, true) == Some(ss)
  {
    assert ss == [ss[0]] + ss[1..];
  }

  lemma SegmentLineIsPlain(s: SegmentInfo)
    requires SegmentInRange(s)
    ensures PlainLine(SegmentLine(s)) && SegmentLine(s) != ""
  {
    NumeralHasNoSpace(s.first);
    NumeralHasNoSpace(s.last);
    NumeralHasNoSpace(s.bytes);
    assert SegmentLine(s)[|s.name|] == ' ';
    assert ' ' !in "segments";
  }

  lemma {:induction false} SkipScalarLines(lines: seq<string>, rest: seq<string>)
    requires forall i :: 0 <= i < |lines| ==> PlainLine(lines[i])
    ensures ReadSegments(lines + rest, false) == ReadSegments(rest, false)
  {
    if lines == [] {
      assert lines + rest == rest;
    } else {
      assert (lines + rest)[1..] == lines[1..] + rest;
      SkipScalarLines(lines[1..], rest);
    }
  }

  lemma ScalarsOfLines(m: Manifest)
    requires InRange(m)
    ensures ReadScalars(ManifestLines(m), INITIAL) ==
            Some(Scalars(m.partitionId, m.partitionEpoch, m.earliest, m.highWatermark, m.committed, REQUIRED))
  {
    assert ManifestLines(m) == ScalarLines(m) + ["segments"] + SegmentLines(m.segments);
    ReadBackScalars(m, SegmentLines(m.segments));
  }

  lemma SegmentsOfLines(m: Manifest)
    requires InRange(m)
    ensures ReadSegments(ManifestLines(m), false) == Some(m.segments)
  {
    var scalars, rest := ScalarLines(m), ["segments"] + SegmentLines(m.segments);
    assert ManifestLines(m) == scalars + rest;
    ScalarLinesArePlain(m);
    SkipScalarLines(scalars, rest);
    assert rest[1..] == SegmentLines(m.segments);
    ReadBackSegmentLines(m.segments);
  }

  lemma LinesOfPrint(m: Manifest)
    requires InRange(m)
    ensures Lines(Print(m)) == ManifestLines(m)
  {
    ManifestLinesAreLines(m);
    LinesUnlines(ManifestLines(m));
  }

  lemma ParsedLines(lines: seq<string>, s: Scalars, m: Manifest)
    requires ReadScalars(lines, INITIAL) == Some(s) && ReadSegments(lines, false) == Some(m.segments)
    requires s == Scalars(m.partitionId, m.partitionEpoch, m.earliest, m.highWatermark, m.committed, REQUIRED)
    ensures ParseLines(lines) == Some(m)
  {
  }

  /** Reading the manifest that was written gives back every field and every segment. */
  lemma ParsePrint(m: Manifest)
    requires InRange(m)
    ensures Parse(Print(m)) == Some(m)
  {
    var lines := ManifestLines(m);
    LinesOfPrint(m);
    ScalarsOfLines(m);
    SegmentsOfLines(m);
    ParsedLines(lines, Scalars(m.partitionId, m.partitionEpoch, m.earliest, m.highWatermark, m.committed, REQUIRED), m);
  }

  lemma {:induction false} SegmentLinesArePlain(ss: seq<SegmentInfo>)
    requires forall i :: 0 <= i < |ss| ==> SegmentInRange(ss[i])
    ensures forall i :: 0 <= i < |ss| ==> PlainLine(SegmentLines(ss)[i])
  {
    if ss != [] {
      SegmentLineIsPlain(ss[0]);
      SegmentLinesArePlain(ss[1..]);
    }
  }

  lemma ManifestLinesAreLines(m: Manifest)
    requires InRange(m)
    ensures forall i :: 0 <= i < |ManifestLines(m)| ==> '\n' !in ManifestLines(m)[i]
  {
    var lines := ManifestLines(m);
    ScalarLinesArePlain(m);
    SegmentLinesArePlain(m.segments);
    assert lines == ScalarLines(m) + ["segments"] + SegmentLines(m.segments);
    forall i | 0 <= i < |lines|
      ensures '\n' !in lines[i]
    {
      if i < 6 {
        assert lines[i] == ScalarLines(m)[i];
      } else if i == 6 {
        assert lines[i] == "segments";
      } else {
        assert lines[i] == SegmentLines(m.segments)[i - 7];
      }
    }
  }
}
