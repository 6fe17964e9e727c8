/** The invariant that ties a log in memory to its directory, and the operations that keep it. */
module LogInvariant {
  import opened Bytes
  import opened ChangeRecords
  import opened Decimal
  import opened Framings
  import opened LogFormats
  import opened Manifests
  import opened Segments
  import opened LogSpec
  import opened Wrappers

  function Packed(log: Log): seq<Segment> {
    Pack(log.options.format.framing, log.options.maxSegmentBytes, log.records)
  }

  function NameOf(o: Options, s: Segment): string
    requires s != []
  {
    o.format.name(s[0].offset)
  }

  /** A record of this partition that can be serialised. */
  predicate Ours(o: Options, r: ChangeRecord) {
    r.partitionId == o.partitionId && r.partitionEpoch == o.partitionEpoch && o.format.framing.fits(r)
  }

  predicate Owned(o: Options, rs: seq<ChangeRecord>) {
    forall i :: 0 <= i < |rs| ==> Ours(o, rs[i])
  }

  predicate SegmentsOwned(o: Options, segments: seq<Segment>) {
    forall i :: 0 <= i < |segments| ==> Owned(o, segments[i])
  }

  lemma {:induction false} OwnedParts(o: Options, segments: seq<Segment>)
    requires Owned(o, Flatten(segments))
    ensures SegmentsOwned(o, segments)
  {
    if segments != [] {
      var rest := Flatten(segments[1..]);
      forall i | 0 <= i < |rest|
        ensures Ours(o, rest[i])
      {
        assert rest[i] == Flatten(segments)[|segments[0]| + i];
      }
      OwnedParts(o, segments[1..]);
      forall i | 0 <= i < |segments|
        ensures Owned(o, segments[i])
      {
        if i == 0 {
          assert forall j :: 0 <= j < |segments[0]| ==> segments[0][j] == Flatten(segments)[j];
        } else {
          assert segments[i] == segments[1..][i - 1];
        }
      }
    }
  }

  /** names[i] is named after the first offset of segment i, and the file holds exactly that segment's frames. */
  predicate SegmentStored(o: Options, names: seq<string>, d: Disk, segments: seq<Segment>, i: nat)
    requires i < |segments| == |names|
  {
    && segments[i] != [] && names[i] == NameOf(o, segments[i])
    && names[i] in d && d[names[i]] == FrameList(o.format.framing, segments[i])
  }

  predicate Stored(o: Options, names: seq<string>, d: Disk, segments: seq<Segment>) {
    && |names| == |segments|
    && forall i :: 0 <= i < |segments| ==> SegmentStored(o, names, d, segments, i)
  }

  /** The first offset that is still free. */
  function End(log: Log): nat { log.earliest + |log.records| }

  /** A segment file that is not in use is named after an offset that is no longer free. */
  ghost predicate OnlyStale(o: Options, names: seq<string>, d: Disk, end: nat) {
    forall f :: f in d && o.format.isSegment(f) && f !in names ==> StaleName(o, f, end)
  }

  ghost predicate StaleName(o: Options, f: string, end: nat) {
    exists n: nat :: 1 <= n < end && f == o.format.name(n)
  }

  /** Where the next frame goes. */
  predicate ActiveIsLast(log: Log, segments: seq<Segment>) {
    if segments == [] then log.activeFirst == 1 && log.activeSize == 0
    else
      var last := segments[|segments| - 1];
      last != [] && log.activeFirst == last[0].offset && log.activeSize == Size(log.options.format.framing, last)
  }

  /** Everything about records and segment files. */
  ghost predicate Layout(log: Log) {
    var o := log.options;
    && Good(o.format) && log.earliest >= 1
    && log.earliest + |log.records| <= UINT64_MAX
    && Contiguous(log.records, log.earliest) && Owned(o, log.records)
    && (log.records == [] ==> log.earliest == 1)
    && Stored(o, log.names, log.disk, Packed(log))
    && ActiveIsLast(log, Packed(log))
    && OnlyStale(o, log.names, log.disk, End(log))
  }

  lemma FrameNotEmpty(o: Options, r: ChangeRecord)
    requires Good(o.format) && Ours(o, r)
    ensures |o.format.framing.frame(r)| > 0
  {
  }

  lemma SizePositive(o: Options, s: Segment)
    requires Good(o.format) && s != [] && Owned(o, s)
    ensures Size(o.format.framing, s) > 0
  {
    FrameNotEmpty(o, s[0]);
  }

  lemma PackedFacts(log: Log)
    requires Layout(log)
    ensures Chained(Packed(log), log.earliest) && Flatten(Packed(log)) == log.records
    ensures log.records == [] <==> Packed(log) == []
    ensures SegmentsOwned(log.options, Packed(log))
  {
    PackChained(log.options.format.framing, log.options.maxSegmentBytes, log.records, log.earliest);
    PackFlattens(log.options.format.framing, log.options.maxSegmentBytes, log.records);
    OwnedParts(log.options, Packed(log));
  }

  /** The file name of the i-th segment is the name of an offset inside the log. */
  lemma NameAt(log: Log, i: nat) returns (n: nat)
    requires Layout(log) && i < |log.names|
    ensures |Packed(log)| == |log.names| && Packed(log)[i] != []
    ensures n == Packed(log)[i][0].offset && log.names[i] == log.options.format.name(n)
    ensures log.earliest <= n < log.earliest + |log.records|
  {
    PackedFacts(log);
    assert SegmentStored(log.options, log.names, log.disk, Packed(log), i);
    ChainedBounds(Packed(log), log.earliest, i);
    n := Packed(log)[i][0].offset;
  }

  /** The name of an offset past the end is neither in use nor on disk. */
  lemma FreshName(log: Log, n: nat)
    requires Layout(log) && log.earliest + |log.records| <= n <= UINT64_MAX
    ensures log.options.format.name(n) !in log.names && log.options.format.name(n) !in log.disk
  {
    var f := log.options.format;
    var name := f.name(n);
    if name in log.names {
      var i :| 0 <= i < |log.names| && log.names[i] == name;
      var m := NameAt(log, i);
      NamesDiffer(f, m, n);
      assert false;
    }
    if name in log.disk {
      assert StaleName(log.options, name, End(log));
      var m: nat :| 1 <= m < End(log) && name == f.name(m);
      NamesDiffer(f, m, n);
      assert false;
    }
  }

  predicate Opens(log: Log, r: ChangeRecord) {
    log.records == [] || Rolls(log, log.options.format.framing.frame(r))
  }

  predicate Next(log: Log, r: ChangeRecord) {
    r.offset == log.earliest + |log.records| < UINT64_MAX && Ours(log.options, r)
  }

  lemma RollsAsPacked(log: Log, r: ChangeRecord)
    requires Layout(log)
    ensures var f := log.options.format.framing; var s := Packed(log);
            Opens(log, r) <==> s == [] || Size(f, s[|s| - 1]) + |f.frame(r)| > log.options.maxSegmentBytes
  {
    PackedFacts(log);
    var s := Packed(log);
    if s != [] { SizePositive(log.options, s[|s| - 1]); }
  }

  /** A frame that opens a segment makes one new file, named after it. */
  lemma OpeningBytes(log: Log, r: ChangeRecord, part: Bytes)
    requires Layout(log) && Next(log, r) && Opens(log, r)
    ensures var name := log.options.format.name(r.offset);
            && name !in log.names && name !in log.disk
            && AppendBytes(log, r, part) ==
               log.(activeFirst := r.offset, activeSize := |part|, names := log.names + [name],
                   disk := log.disk[name := part])
  {
    PackedFacts(log);
    FreshName(log, r.offset);
    assert [] + part == part;
  }

  /** Any other frame goes to the end of the last file. */
  lemma ExtendingBytes(log: Log, r: ChangeRecord, part: Bytes)
    requires Layout(log) && Next(log, r) && !Opens(log, r)
    ensures log.names != []
    ensures var name := log.names[|log.names| - 1];
            && name in log.disk
            && AppendBytes(log, r, part) ==
               log.(activeSize := log.activeSize + |part|, disk := log.disk[name := log.disk[name] + part])
  {
    PackedFacts(log);
    var s := Packed(log);
    var i := |s| - 1;
    assert SegmentStored(log.options, log.names, log.disk, s, i);
    SizePositive(log.options, s[i]);
  }

  lemma PackedAfter(log: Log, r: ChangeRecord)
    requires Layout(log)
    ensures var s := Packed(log);
            Packed(AppendFrame(log, r)) ==
            if Opens(log, r) then s + [[r]]
            else if s == [] then s + [[r]] else s[..|s| - 1] + [s[|s| - 1] + [r]]
  {
    RollsAsPacked(log, r);
    PackLast(log.options.format.framing, log.options.maxSegmentBytes, log.records, r);
  }

  lemma NamesDistinct(log: Log, i: nat, j: nat)
    requires Layout(log) && i < j < |log.names|
    ensures Before(log.names[i], log.names[j]) && log.names[i] != log.names[j]
  {
    PackedFacts(log);
    var m := NameAt(log, i);
    var n := NameAt(log, j);
    ChainedAscends(Packed(log), log.earliest, i, j);
    NamesDiffer(log.options.format, m, n);
  }

  lemma StoredAfterOpening(log: Log, r: ChangeRecord)
    requires Layout(log) && Next(log, r) && Opens(log, r)
    ensures var l := AppendFrame(log, r); Stored(l.options, l.names, l.disk, Packed(l)) && ActiveIsLast(l, Packed(l))
  {
    var o, f := log.options, log.options.format.framing;
    OpeningBytes(log, r, f.frame(r));
    PackedAfter(log, r);
    FrameListOne(f, r);
    var l := AppendFrame(log, r);
    var s := Packed(log);
    forall i | 0 <= i < |s| + 1
      ensures SegmentStored(o, l.names, l.disk, s + [[r]], i)
    {
      if i < |s| { assert SegmentStored(o, log.names, log.disk, s, i); }
    }
  }

  lemma ExtendStored(o: Options, names: seq<string>, d: Disk, s: seq<Segment>, r: ChangeRecord)
    requires Stored(o, names, d, s) && s != []
    requires forall i :: 0 <= i < |s| - 1 ==> names[i] != names[|s| - 1]
    ensures names[|s| - 1] in d
    ensures var k := |s| - 1;
            Stored(o, names, d[names[k] := d[names[k]] + o.format.framing.frame(r)], s[..k] + [s[k] + [r]])
  {
    var f, k := o.format.framing, |s| - 1;
    assert SegmentStored(o, names, d, s, k);
    FrameListConcat(f, s[k], [r]);
    FrameListOne(f, r);
    var e, t := d[names[k] := d[names[k]] + f.frame(r)], s[..k] + [s[k] + [r]];
    forall i | 0 <= i < |t|
      ensures SegmentStored(o, names, e, t, i)
    {
      if i < k { assert SegmentStored(o, names, d, s, i); }
    }
  }

  lemma LastNameApart(log: Log)
    requires Layout(log) && Packed(log) != []
    ensures var k := |Packed(log)| - 1;
            |log.names| == k + 1 && forall i :: 0 <= i < k ==> log.names[i] != log.names[k]
  {
    var k := |Packed(log)| - 1;
    forall i | 0 <= i < k
      ensures log.names[i] != log.names[k]
    {
      NamesDistinct(log, i, k);
    }
  }

  /** The active segment grows by a frame. */
  lemma ExtendedActive(log: Log, s: seq<Segment>, r: ChangeRecord, size: nat)
    requires s != [] && ActiveIsLast(log, s) && size == log.activeSize + |log.options.format.framing.frame(r)|
    ensures ActiveIsLast(log.(activeSize := size), s[..|s| - 1] + [s[|s| - 1] + [r]])
  {
    SizeOfLast(log.options.format.framing, s[|s| - 1], r);
  }

  lemma StoredAfterExtending(log: Log, r: ChangeRecord)
    requires Layout(log) && Next(log, r) && !Opens(log, r)
    ensures var l := AppendFrame(log, r); Stored(l.options, l.names, l.disk, Packed(l)) && ActiveIsLast(l, Packed(l))
  {
    var s, frame := Packed(log), log.options.format.framing.frame(r);
    ExtendingBytes(log, r, frame);
    PackedAfter(log, r);
    LastNameApart(log);
    ExtendStored(log.options, log.names, log.disk, s, r);
    ExtendedActive(log, s, r, log.activeSize + |frame|);
  }

  lemma OnlyStaleAfter(log: Log, r: ChangeRecord)
    requires Layout(log) && Next(log, r)
    ensures var l := AppendFrame(log, r); OnlyStale(l.options, l.names, l.disk, End(l))
  {
    var b := log.options.format.framing.frame(r);
    var l := AppendFrame(log, r);
    if Opens(log, r) { OpeningBytes(log, r, b); } else { ExtendingBytes(log, r, b); }
    forall f | f in l.disk && l.options.format.isSegment(f) && f !in l.names
      ensures StaleName(l.options, f, End(l))
    {
      assert f in log.disk && f !in log.names;
    }
  }

  /** One frame: the segments stay the packing of the records. */
  lemma AppendFrameKeepsLayout(log: Log, r: ChangeRecord)
    requires Layout(log) && Next(log, r)
    ensures Layout(AppendFrame(log, r))
  {
    if Opens(log, r) { StoredAfterOpening(log, r); } else { StoredAfterExtending(log, r); }
    OnlyStaleAfter(log, r);
    var l := AppendFrame(log, r);
    assert Contiguous(l.records, l.earliest) && Owned(l.options, l.records);
  }

  /** No segment file but the ones in use. */
  predicate Tidy(log: Log) {
    forall f :: f in log.disk && log.options.format.isSegment(f) ==> f in log.names
  }

  lemma AppendFrameTidy(log: Log, r: ChangeRecord)
    requires Layout(log) && Next(log, r) && Tidy(log)
    ensures Tidy(AppendFrame(log, r))
  {
    var b := log.options.format.framing.frame(r);
    if Opens(log, r) { OpeningBytes(log, r, b); } else { ExtendingBytes(log, r, b); }
  }

  predicate NextBatch(log: Log, rs: seq<ChangeRecord>) {
    && log.earliest + |log.records| + |rs| <= UINT64_MAX
    && Contiguous(rs, log.earliest + |log.records|) && Owned(log.options, rs)
  }

  predicate OneVersion(rs: seq<ChangeRecord>, version: nat) {
    forall i :: 0 <= i < |rs| ==> rs[i].commitVersion == version
  }

  lemma {:induction false} AppendFramesTracks(log: Log, rs: seq<ChangeRecord>)
    ensures var l := AppendFrames(log, rs);
            && l.records == log.records + rs && l.history == log.history + rs
            && l.options == log.options && l.earliest == log.earliest
            && l.highWatermark == log.highWatermark && l.committed == log.committed
    decreases |rs|
  {
    if rs == [] {
      assert log.records + rs == log.records && log.history + rs == log.history;
    } else {
      var most, last := rs[..|rs| - 1], rs[|rs| - 1];
      AppendFramesTracks(log, most);
      assert log.records + rs == log.records + most + [last];
      assert log.history + rs == log.history + most + [last];
    }
  }

  lemma {:induction false} AppendFramesKeepsLayout(log: Log, rs: seq<ChangeRecord>)
    requires Layout(log) && NextBatch(log, rs)
    ensures Layout(AppendFrames(log, rs))
    decreases |rs|
  {
    if rs != [] {
      var most, last := rs[..|rs| - 1], rs[|rs| - 1];
      AppendFramesKeepsLayout(log, most);
      AppendFramesTracks(log, most);
      AppendFrameKeepsLayout(AppendFrames(log, most), last);
    }
  }

  lemma {:induction false} AppendFramesTidy(log: Log, rs: seq<ChangeRecord>)
    requires Layout(log) && NextBatch(log, rs) && Tidy(log)
    ensures Tidy(AppendFrames(log, rs))
    decreases |rs|
  {
    if rs != [] {
      var most, last := rs[..|rs| - 1], rs[|rs| - 1];
      AppendFramesTidy(log, most);
      AppendFramesKeepsLayout(log, most);
      AppendFramesTracks(log, most);
      AppendFrameTidy(AppendFrames(log, most), last);
    }
  }

  // ---------------------------------------------------------------- the manifest

  function InfoOf(o: Options, s: Segment): SegmentInfo
    requires s != []
  {
    SegmentInfo(NameOf(o, s), s[0].offset, s[|s| - 1].offset, Size(o.format.framing, s))
  }

  predicate NoneEmpty(segments: seq<Segment>) {
    forall i :: 0 <= i < |segments| ==> segments[i] != []
  }

  function Infos(o: Options, segments: seq<Segment>): (infos: seq<SegmentInfo>)
    requires NoneEmpty(segments)
    ensures |infos| == |segments|
    ensures forall i :: 0 <= i < |segments| ==> infos[i] == InfoOf(o, segments[i])
  {
    seq(|segments|, i requires 0 <= i < |segments| => InfoOf(o, segments[i]))
  }

  /** The range that is read back from a segment file is the one that was written. */
  lemma RangeOfStored(o: Options, d: Disk, name: string, s: Segment)
    requires Sound(o.format.framing) && s != [] && s[0].offset > 0 && Owned(o, s)
    requires name == NameOf(o, s) && name in d && d[name] == FrameList(o.format.framing, s)
    ensures SegmentRange(o.format, d, name) == Some(InfoOf(o, s))
  {
    ReadAllFrames(o.format.framing, s);
  }

  lemma StoredRest(o: Options, d: Disk, names: seq<string>, segments: seq<Segment>)
    requires Stored(o, names, d, segments) && names != []
    ensures Stored(o, names[1..], d, segments[1..])
  {
    forall i | 0 <= i < |segments| - 1
      ensures SegmentStored(o, names[1..], d, segments[1..], i)
    {
      assert SegmentStored(o, names, d, segments, i + 1);
    }
  }

  predicate OffsetsPositive(segments: seq<Segment>)
    requires NoneEmpty(segments)
  {
    forall i :: 0 <= i < |segments| ==> segments[i][0].offset > 0
  }

  lemma InfosRest(o: Options, segments: seq<Segment>)
    requires NoneEmpty(segments) && segments != []
    ensures NoneEmpty(segments[1..]) && Infos(o, segments) == [InfoOf(o, segments[0])] + Infos(o, segments[1..])
  {
  }

  lemma RangesStep(f: Format, d: Disk, names: seq<string>, first: SegmentInfo, rest: seq<SegmentInfo>)
    requires names != [] && SegmentRange(f, d, names[0]) == Some(first) && SegmentRanges(f, d, names[1..]) == Some(rest)
    ensures SegmentRanges(f, d, names) == Some([first] + rest)
  {
  }

  lemma {:induction false} RangesOfStored(o: Options, d: Disk, names: seq<string>, segments: seq<Segment>)
    requires Sound(o.format.framing) && Stored(o, names, d, segments) && NoneEmpty(segments)
             && SegmentsOwned(o, segments)
    requires OffsetsPositive(segments)
    ensures SegmentRanges(o.format, d, names) == Some(Infos(o, segments))
    decreases |names|
  {
    if names == [] {
      assert Infos(o, segments) == [];
    } else {
      assert SegmentStored(o, names, d, segments, 0);
      RangeOfStored(o, d, names[0], segments[0]);
      StoredRest(o, d, names, segments);
      InfosRest(o, segments);
      RangesOfStored(o, d, names[1..], segments[1..]);
      RangesStep(o.format, d, names, InfoOf(o, segments[0]), Infos(o, segments[1..]));
    }
  }

  lemma {:induction false} SortAscending(s: seq<string>)
    requires Ascending(s)
    ensures Sort(s) == s
  {
    if s != [] {
      SortAscending(s[1..]);
      if |s| > 1 { assert Before(s[0], s[1]); }
      assert s == [s[0]] + s[1..];
    }
  }

  lemma NamesAscend(log: Log)
    requires Layout(log)
    ensures Ascending(log.names) && Sort(log.names) == log.names
  {
    forall i, j | 0 <= i < j < |log.names|
      ensures Before(log.names[i], log.names[j])
    {
      NamesDistinct(log, i, j);
    }
    SortAscending(log.names);
  }

  lemma PackedNoneEmpty(log: Log)
    requires Layout(log)
    ensures NoneEmpty(Packed(log))
    ensures forall i :: 0 <= i < |Packed(log)| ==> Packed(log)[i][0].offset > 0
  {
    PackedFacts(log);
    forall i | 0 <= i < |Packed(log)|
      ensures Packed(log)[i] != [] && Packed(log)[i][0].offset > 0
    {
      ChainedBounds(Packed(log), log.earliest, i);
    }
  }

  ghost predicate ManifestStored(log: Log)
    requires Layout(log)
  {
    PackedNoneEmpty(log);
    MANIFEST in log.disk && log.disk[MANIFEST] == log.options.format.encode(ManifestOf(log,
        Infos(log.options, Packed(log))))
  }

  lemma NothingToList(log: Log)
    requires Layout(log) && log.records == []
    ensures log.names == [] && SegmentFiles(log.options.format, log.disk) == {}
  {
    PackedFacts(log);
    assert forall f :: f in SegmentFiles(log.options.format, log.disk) ==>
             f in log.disk && f !in log.names && StaleName(log.options, f, End(log));
  }

  lemma ToPersist(log: Log)
    requires Layout(log)
    ensures NamesToPersist(log) == log.names
  {
    PackedFacts(log);
    NamesAscend(log);
    if log.records == [] { NothingToList(log); }
  }

  /** What is written to the manifest when the listed files hold the given segments. */
  lemma PersistManifestOf(l: Log, segments: seq<Segment>)
    requires Sound(l.options.format.framing) && Stored(l.options, l.names, l.disk, segments)
    requires NoneEmpty(segments) && SegmentsOwned(l.options, segments)
    requires forall i :: 0 <= i < |segments| ==> segments[i][0].offset > 0
    requires NamesToPersist(l) == l.names
    ensures PersistManifest(l) ==
            Outcome(l.(disk := l.disk[MANIFEST := l.options.format.encode(ManifestOf(l, Infos(l.options, segments)))]),
                true)
  {
    RangesOfStored(l.options, l.disk, l.names, segments);
  }

  /** The manifest can always be written, and it lists the segments as packed. */
  lemma PersistManifestStores(log: Log)
    requires Layout(log)
    ensures var p := PersistManifest(log);
            p.ok && Layout(p.log) && p.log == log.(disk := p.log.disk) && ManifestStored(p.log)
  {
    ToPersist(log);
    PackedFacts(log);
    PackedNoneEmpty(log);
    PersistManifestOf(log, Packed(log));
    OtherFileKeepsLayout(log, MANIFEST, PersistManifest(log).log.disk[MANIFEST]);
  }

  lemma OtherFileKeepsLayout(log: Log, name: string, b: Bytes)
    requires Layout(log) && !log.options.format.isSegment(name)
    ensures Layout(log.(disk := log.disk[name := b]))
  {
    var l := log.(disk := log.disk[name := b]);
    var s := Packed(log);
    forall i | 0 <= i < |s|
      ensures SegmentStored(l.options, l.names, l.disk, s, i)
    {
      assert SegmentStored(log.options, log.names, log.disk, s, i);
      var n := NameAt(log, i);
    }
    forall f | f in l.disk && l.options.format.isSegment(f) && f !in l.names
      ensures StaleName(l.options, f, End(l))
    {
      assert f in log.disk;
    }
  }

  // ---------------------------------------------------------------- the invariant

  /** The widths of the fields that go to the manifest. */
  predicate Representable(o: Options) {
    o.partitionId <= UINT32_MAX && o.partitionEpoch <= UINT64_MAX && o.maxSegmentBytes <= UINT64_MAX
  }

  /** The history in memory is the one that recovery will find. */
  predicate HistoryStored(log: Log) {
    && Owned(log.options, log.history)
    && (log.history == [] ==> log.records == [])
    && (if SNAPSHOT in log.disk then log.disk[SNAPSHOT] == FrameList(log.options.format.framing, log.history)
        else log.history == [])
  }

  predicate Counters(log: Log) {
    && log.highWatermark + 1 == log.earliest + |log.records|
    && log.committed == MaxVersion(log.records) <= UINT64_MAX
  }

  ghost predicate Inv(log: Log) {
    Layout(log) && Representable(log.options) && Counters(log) && ManifestStored(log) && HistoryStored(log)
  }

  lemma {:induction false} MaxVersionOfBatch(rs: seq<ChangeRecord>, batch: seq<ChangeRecord>, version: nat)
    requires OneVersion(batch, version)
    ensures MaxVersion(rs + batch) == if batch == [] then MaxVersion(rs) else Max(MaxVersion(rs), version)
    decreases |batch|
  {
    if batch == [] {
      assert rs + batch == rs;
    } else {
      var k := |batch| - 1;
      MaxVersionOfBatch(rs, batch[..k], version);
      assert (rs + batch)[..|rs| + k] == rs + batch[..k];
    }
  }

  lemma AdvanceKeepsLayout(log: Log, version: nat, count: nat)
    requires Layout(log)
    ensures Layout(Advance(log, version, count))
  {
  }

  lemma EnterKeepsLayout(log: Log, version: nat, batch: seq<ChangeRecord>)
    requires Layout(log) && NextBatch(log, batch)
    ensures Layout(Enter(log, version, batch))
  {
    AppendFramesKeepsLayout(log, batch);
    var a := AppendFrames(log, batch);
    AdvanceKeepsLayout(a, version, |batch|);
    var b := Advance(a, version, |batch|);
    OtherFileKeepsLayout(b, SNAPSHOT, FrameList(b.options.format.framing, b.history));
  }

  lemma EnterContents(log: Log, version: nat, batch: seq<ChangeRecord>)
    requires Counters(log) && HistoryStored(log) && log.earliest >= 1
    requires NextBatch(log, batch) && OneVersion(batch, version) && version <= UINT64_MAX
    ensures var l := Enter(log, version, batch);
            && l.options == log.options && l.records == log.records + batch && l.history == log.history + batch
            && l.earliest == log.earliest && Counters(l) && HistoryStored(l)
  {
    AppendFramesTracks(log, batch);
    MaxVersionOfBatch(log.records, batch, version);
  }

  /** Writing the manifest completes the invariant. */
  lemma PersistManifestCompletes(l: Log)
    requires Layout(l) && Representable(l.options) && Counters(l) && HistoryStored(l)
    ensures var out := PersistManifest(l);
            out.ok && Inv(out.log) && out.log == l.(disk := out.log.disk)
  {
    PersistManifestStores(l);
  }

  /** A successful append: nothing but the batch is new. */
  ghost predicate Extends(log: Log, batch: seq<ChangeRecord>, out: Outcome) {
    && out.ok && Inv(out.log)
    && out.log.records == log.records + batch && out.log.history == log.history + batch
    && out.log.earliest == log.earliest && out.log.options == log.options
  }

  /** Appending a batch keeps the invariant and adds exactly the batch. */
  lemma AppendKeepsInv(log: Log, version: nat, batch: seq<ChangeRecord>)
    requires Inv(log) && NextBatch(log, batch) && OneVersion(batch, version) && version <= UINT64_MAX
    ensures Extends(log, batch, Append(log, version, batch))
  {
    EnterKeepsLayout(log, version, batch);
    EnterContents(log, version, batch);
    PersistManifestCompletes(Enter(log, version, batch));
  }

  /** What the code appends is such a batch. */
  lemma StampedIsNext(log: Log, version: nat, rs: seq<ChangeRecord>)
    requires Counters(log) && log.highWatermark + |rs| < UINT64_MAX
    requires AllFit(log.options.format.framing, StampAll(log.options, version, rs, log.highWatermark + 1))
    ensures var batch := StampAll(log.options, version, rs, log.highWatermark + 1);
            NextBatch(log, batch) && OneVersion(batch, version)
  {
  }

  /** So a batch that can be serialised is appended as stamped, and nothing else changes. */
  lemma StampedAppend(log: Log, version: nat, rs: seq<ChangeRecord>)
    requires Inv(log) && log.highWatermark + |rs| < UINT64_MAX && version <= UINT64_MAX
    requires AllFit(log.options.format.framing, StampAll(log.options, version, rs, log.highWatermark + 1))
    ensures var batch := StampAll(log.options, version, rs, log.highWatermark + 1);
            Extends(log, batch, Append(log, version, batch))
  {
    StampedIsNext(log, version, rs);
    AppendKeepsInv(log, version, StampAll(log.options, version, rs, log.highWatermark + 1));
  }
}
