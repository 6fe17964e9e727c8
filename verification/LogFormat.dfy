/** Everything the change log knows about bytes and names, and the format of src/cdc/partition_change_log.cc. */
module LogFormats {
  import opened Bytes
  import opened ChangeRecords
  import opened Decimal
  import opened Framings
  import opened Manifests
  import opened TextStream
  import Frames
  import opened Wrappers

  const MANIFEST: string := "MANIFEST"
  const SNAPSHOT: string := "SNAPSHOT"

  datatype Format = Format(
    framing: Framing,
    encode: Manifest -> Bytes,
    decode: Bytes -> Option<Manifest>,
    name: nat -> string,
    number: string -> nat,
    isSegment: string -> bool)

  /** Frames and manifests read back; segment names sort by offset and are told apart from the other files. */
  ghost predicate Good(f: Format) {
    && Sound(f.framing)
    && (forall m: Manifest :: InRange(m) ==> f.decode(f.encode(m)) == Some(m))
    && (forall m: nat, n: nat {:trigger Before(f.name(m), f.name(n))} ::
          m < n <= UINT64_MAX ==> Before(f.name(m), f.name(n)))
    && (forall n: nat :: n <= UINT64_MAX ==>
          f.isSegment(f.name(n)) && UsableName(f.name(n)) && f.number(f.name(n)) == n)
    && !f.isSegment(MANIFEST) && !f.isSegment(SNAPSHOT)
  }

  predicate UsableName(s: string) { s != "" && NoSpace(s) && Narrow(s) && s != "segments" }

  lemma NamesDiffer(f: Format, m: nat, n: nat)
    requires Good(f) && m <= UINT64_MAX && n <= UINT64_MAX && m != n
    ensures f.name(m) != f.name(n)
  {
    BeforeTotal(f.name(m), f.name(n));
    if m < n { assert Before(f.name(m), f.name(n)); } else { assert Before(f.name(n), f.name(m)); }
  }

  // ---------------------------------------------------------------- the format on disk

  const NAME_WIDTH: nat := 20

  /** Twenty digits, zero-padded, and the extension. */
  function SegmentFileName(firstOffset: nat): string { Padded(firstOffset, NAME_WIDTH) + ".seg" }

  /** `std::stoull(name.substr(0, 20))` of a name that starts with twenty digits. */
  function NameOffset(name: string): nat {
    if |name| >= NAME_WIDTH && AllDigits(name[..NAME_WIDTH]) then Number(name[..NAME_WIDTH]) else 0
  }

  /** `path.extension() == ".seg"`: the part from the last dot, unless the name starts there. */
  predicate IsSegmentFile(name: string) { |name| > 4 && name[|name| - 4..] == ".seg" }

  function ToBytes(s: string): (b: Bytes)
    ensures |b| == |s|
  {
    seq(|s|, i requires 0 <= i < |s| => (s[i] as int % 256) as byte)
  }

  function ToText(b: Bytes): (s: string)
    ensures |s| == |b|
  {
    seq(|b|, i requires 0 <= i < |b| => b[i] as int as char)
  }

  lemma TextOfBytes(s: string)
    requires Narrow(s)
    ensures ToText(ToBytes(s)) == s
  {
  }

  function LogFormat(c: Codec): Format {
    Format(Frames.LogFraming(c),
           m => ToBytes(Print(m)),
           b => Parse(ToText(b)),
           (n: nat) => SegmentFileName(n),
           s => NameOffset(s),
           s => IsSegmentFile(s))
  }

  lemma NameBound()
    ensures UINT64_MAX < Pow10(NAME_WIDTH)
  {
    assert Pow10(4) == 10000;
    assert Pow10(8) == 1_0000_0000 by { Pow10Sum(4, 4); }
    assert Pow10(16) == 1_0000_0000_0000_0000 by { Pow10Sum(8, 8); }
    Pow10Sum(16, 4);
  }

  lemma {:induction false} Pow10Sum(a: nat, b: nat)
    ensures Pow10(a + b) == Pow10(a) * Pow10(b)
    decreases a
  {
    if a > 0 { Pow10Sum(a - 1, b); }
  }

  /** File names sort in offset order. */
  lemma SegmentFileNamesSort(m: nat, n: nat)
    requires m < n <= UINT64_MAX
    ensures Before(SegmentFileName(m), SegmentFileName(n))
  {
    NameBound();
    PaddedFits(m, NAME_WIDTH);
    PaddedFits(n, NAME_WIDTH);
    SameWidthOrder(Padded(m, NAME_WIDTH), Padded(n, NAME_WIDTH));
    BeforeAppend(Padded(m, NAME_WIDTH), Padded(n, NAME_WIDTH), ".seg", ".seg");
  }

  lemma NarrowText(d: string, e: string)
    requires NoSpace(d) && Narrow(d) && NoSpace(e) && Narrow(e)
    ensures NoSpace(d + e) && Narrow(d + e)
  {
  }

  /** Digits and an extension are a usable name. */
  lemma DigitsAndExtension(d: string, e: string)
    requires d != "" && AllDigits(d) && NoSpace(e) && Narrow(e)
    ensures UsableName(d + e)
  {
    DigitsAreNarrow(d);
    NarrowText(d, e);
    assert (d + e)[0] == d[0] && IsDigit(d[0]);
    assert "segments"[0] == 's';
  }

  lemma SegmentFileNameUsable(n: nat)
    requires n <= UINT64_MAX
    ensures UsableName(SegmentFileName(n)) && IsSegmentFile(SegmentFileName(n))
  {
    NameBound();
    PaddedFits(n, NAME_WIDTH);
    ExtensionOf(Padded(n, NAME_WIDTH));
    DigitsAndExtension(Padded(n, NAME_WIDTH), ".seg");
  }

  lemma ExtensionOf(d: string)
    requires d != ""
    ensures IsSegmentFile(d + ".seg") && NoSpace(".seg") && Narrow(".seg")
  {
    assert (d + ".seg")[|d|..] == ".seg";
  }

  lemma SegmentFileNameNumber(n: nat)
    requires n <= UINT64_MAX
    ensures NameOffset(SegmentFileName(n)) == n
  {
    NameBound();
    PaddedFits(n, NAME_WIDTH);
    assert SegmentFileName(n)[..NAME_WIDTH] == Padded(n, NAME_WIDTH);
  }

  lemma DigitsAreNarrow(d: string)
    requires AllDigits(d)
    ensures NoSpace(d) && Narrow(d)
  {
  }

  lemma {:induction false} UnlinesNarrow(lines: seq<string>)
    requires forall i :: 0 <= i < |lines| ==> Narrow(lines[i])
    ensures Narrow(Unlines(lines))
  {
    if lines != [] {
      UnlinesNarrow(lines[1..]);
      assert Narrow("\n");
    }
  }

  lemma ScalarNarrow(key: string, n: nat)
    requires Narrow(key)
    ensures Narrow(Scalar(key, n))
  {
    DigitsAreNarrow(Numeral(n));
    assert Narrow(" ");
  }

  lemma FieldNarrow(key: string, n: nat, rest: string)
    requires Narrow(key) && Narrow(rest)
    ensures Narrow(Field(key, n, rest))
  {
    DigitsAreNarrow(Numeral(n));
    assert Narrow(" ");
  }

  lemma LabelsNarrow()
    ensures Narrow("first_offset") && Narrow("last_offset") && Narrow("bytes") && Narrow("")
  {
  }

  lemma KeysNarrowA()
    ensures Narrow("version") && Narrow("partition_id") && Narrow("partition_epoch") && Narrow("segments")
  {
  }

  lemma KeysNarrowB()
    ensures Narrow("earliest_offset") && Narrow("high_watermark") && Narrow("committed_version")
  {
  }

  lemma SegmentLineNarrow(s: SegmentInfo)
    requires SegmentInRange(s)
    ensures Narrow(SegmentLine(s))
  {
    LabelsNarrow();
    FieldNarrow("bytes", s.bytes, "");
    FieldNarrow("last_offset", s.last, Field("bytes", s.bytes, ""));
    FieldNarrow("first_offset", s.first, Field("last_offset", s.last, Field("bytes", s.bytes, "")));
  }

  lemma {:induction false} SegmentLinesNarrow(ss: seq<SegmentInfo>)
    requires forall i :: 0 <= i < |ss| ==> SegmentInRange(ss[i])
    ensures forall i :: 0 <= i < |ss| ==> Narrow(SegmentLines(ss)[i])
  {
    if ss != [] {
      SegmentLineNarrow(ss[0]);
      SegmentLinesNarrow(ss[1..]);
    }
  }

  lemma ScalarLinesNarrow(m: Manifest)
    ensures forall i :: 0 <= i < 6 ==> Narrow(ScalarLines(m)[i])
  {
    KeysNarrowA();
    KeysNarrowB();
    ScalarNarrow("version", 1);
    ScalarNarrow("partition_id", m.partitionId);
    ScalarNarrow("partition_epoch", m.partitionEpoch);
    ScalarNarrow("earliest_offset", m.earliest);
    ScalarNarrow("high_watermark", m.highWatermark);
    ScalarNarrow("committed_version", m.committed);
  }

  lemma PrintNarrow(m: Manifest)
    requires InRange(m)
    ensures Narrow(Print(m))
  {
    var lines := ManifestLines(m);
    ScalarLinesNarrow(m);
    SegmentLinesNarrow(m.segments);
    KeysNarrowA();
    assert lines == ScalarLines(m) + ["segments"] + SegmentLines(m.segments);
    forall i | 0 <= i < |lines|
      ensures Narrow(lines[i])
    {
      if i < 6 {
        assert lines[i] == ScalarLines(m)[i];
      } else if i == 6 {
        assert lines[i] == "segments";
      } else {
        assert lines[i] == SegmentLines(m.segments)[i - 7];
      }
    }
    UnlinesNarrow(lines);
  }

  lemma ManifestReadsBack(m: Manifest)
    requires InRange(m)
    ensures Parse(ToText(ToBytes(Print(m)))) == Some(m)
  {
    PrintNarrow(m);
    TextOfBytes(Print(m));
    ParsePrint(m);
  }

  /** The format of the code is a good one for every faithful serialisation. */
  lemma LogFormatGood(c: Codec)
    requires Faithful(c)
    ensures Good(LogFormat(c))
  {
    var f := LogFormat(c);
    Frames.LogFramingSound(c);
    forall m: Manifest | InRange(m)
      ensures f.decode(f.encode(m)) == Some(m)
    {
      ManifestReadsBack(m);
    }
    forall m: nat, n: nat | m < n <= UINT64_MAX
      ensures Before(f.name(m), f.name(n))
    {
      SegmentFileNamesSort(m, n);
    }
    forall n: nat | n <= UINT64_MAX
      ensures f.isSegment(f.name(n)) && UsableName(f.name(n)) && f.number(f.name(n)) == n
    {
      SegmentFileNameUsable(n);
      SegmentFileNameNumber(n);
    }
  }
}
