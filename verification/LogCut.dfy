/** Cutting a segment file: which records the scan keeps, and exactly when a log with a cut last segment opens. */
module LogCut {
  import opened Bytes
  import opened ChangeRecords
  import opened Framings
  import opened LogFormats
  import opened Manifests
  import opened Segments
  import opened LogSpec
  import opened LogInvariant
  import opened LogRecovery
  import opened LogCrash
  import opened LogFaults
  import opened Wrappers

  // ---------------------------------------------------------------- cutting a list of frames

  /** How many frames are whole in the first n bytes. */
  function WholeFrames(f: Framing, rs: seq<ChangeRecord>, n: nat): (k: nat)
    ensures k <= |rs|
    decreases |rs|
  {
    if rs == [] || n < |f.frame(rs[0])| then 0 else 1 + WholeFrames(f, rs[1..], n - |f.frame(rs[0])|)
  }

  /** A cut leaves the whole frames and a piece of the next one. */
  predicate CutAt(f: Framing, rs: seq<ChangeRecord>, n: nat, k: nat, tail: Bytes)
    requires n <= Size(f, rs)
  {
    && k <= |rs| && FrameList(f, rs)[..n] == FrameList(f, rs[..k]) + tail
    && (if k < |rs| then |tail| < |f.frame(rs[k])| && tail == f.frame(rs[k])[..|tail|] else tail == [])
  }

  lemma CutFirst(f: Framing, rs: seq<ChangeRecord>, n: nat, k: nat, tail: Bytes)
    requires rs != [] && |f.frame(rs[0])| <= n <= Size(f, rs) && CutAt(f, rs[1..], n - |f.frame(rs[0])|, k, tail)
    ensures CutAt(f, rs, n, k + 1, tail)
  {
    var b, rest := f.frame(rs[0]), FrameList(f, rs[1..]);
    assert rs[..k + 1][0] == rs[0] && rs[..k + 1][1..] == rs[1..][..k];
    assert (b + rest)[..n] == b + rest[..n - |b|];
    assert b + (FrameList(f, rs[1..][..k]) + tail) == b + FrameList(f, rs[1..][..k]) + tail;
  }

  lemma {:induction false} Cut(f: Framing, rs: seq<ChangeRecord>, n: nat) returns (tail: Bytes)
    requires n <= Size(f, rs)
    ensures CutAt(f, rs, n, WholeFrames(f, rs, n), tail)
    decreases |rs|
  {
    if rs == [] {
      tail := [];
    } else if n < |f.frame(rs[0])| {
      tail := f.frame(rs[0])[..n];
      assert FrameList(f, rs)[..n] == tail;
      assert rs[..0] == [] && [] + tail == tail;
    } else {
      tail := Cut(f, rs[1..], n - |f.frame(rs[0])|);
      CutFirst(f, rs, n, WholeFrames(f, rs[1..], n - |f.frame(rs[0])|), tail);
    }
  }

  lemma CutIsTorn(o: Options, rs: seq<ChangeRecord>, n: nat, k: nat, tail: Bytes)
    requires Sound(o.format.framing) && Owned(o, rs) && n <= Size(o.format.framing, rs)
             && CutAt(o.format.framing, rs, n, k, tail)
    ensures TornTail(o.format.framing, tail)
    ensures n == Size(o.format.framing, rs[..k]) + |tail|
  {
  }

  lemma ScanOfCutAt(o: Options, rs: seq<ChangeRecord>, first: nat, n: nat, k: nat, tail: Bytes, expected: nat,
                    promised: Option<nat>)
    requires Sound(o.format.framing) && Owned(o, rs) && Contiguous(rs, first) && n <= Size(o.format.framing, rs)
    requires CutAt(o.format.framing, rs, n, k, tail) && (expected == 0 || expected == first)
    ensures ScanFile(o, FrameList(o.format.framing, rs)[..n], expected, true, promised) ==
            Kept(o, rs[..k], tail, expected, true, promised)
  {
    CutIsTorn(o, rs, n, k, tail);
    ScanFileFrames(o, rs[..k], first, tail, expected, true, promised);
  }

  lemma CutBounds(f: Framing, rs: seq<ChangeRecord>, n: nat, k: nat, tail: Bytes)
    requires n <= Size(f, rs) && CutAt(f, rs, n, k, tail)
    ensures FrameList(f, rs[..k]) <= FrameList(f, rs)[..n]
    ensures k < |rs| ==> n < Size(f, rs[..k + 1])
    ensures tail == [] <==> n == Size(f, rs[..k])
  {
    if k < |rs| {
      assert rs[..k + 1] == rs[..k] + [rs[k]];
      SizeOfLast(f, rs[..k], rs[k]);
    }
  }

  /** However a file is cut, the scan keeps exactly the frames that are whole and reports their total length, as long
      as the manifest promises nothing beyond them. */
  lemma ScanOfCut(o: Options, rs: seq<ChangeRecord>, first: nat, n: nat, k: nat, expected: nat, promised: Option<nat>)
    requires Sound(o.format.framing) && Owned(o, rs) && Contiguous(rs, first) && n <= Size(o.format.framing, rs)
    requires k == WholeFrames(o.format.framing, rs, n) && (expected == 0 || expected == first)
    requires promised.None? || promised.value <= NextExpected(rs[..k], expected)
    ensures ScanFile(o, FrameList(o.format.framing, rs)[..n], expected, true, promised) ==
            Some(FileScan(rs[..k], Size(o.format.framing, rs[..k]), n != Size(o.format.framing, rs[..k])))
    ensures FrameList(o.format.framing, rs[..k]) <= FrameList(o.format.framing, rs)[..n]
    ensures k < |rs| ==> n < Size(o.format.framing, rs[..k + 1])
  {
    var tail := Cut(o.format.framing, rs, n);
    ScanOfCutAt(o, rs, first, n, k, tail, expected, promised);
    CutBounds(o.format.framing, rs, n, k, tail);
  }

  // ---------------------------------------------------------------- a cut last segment

  /** The cut is inside the last frame, and there is a frame before it. */
  predicate LosesOne(f: Framing, s: Segment, n: nat) {
    |s| >= 2 && Size(f, s[..|s| - 1]) < n
  }

  lemma {:induction false} SizeGrows(f: Framing, s: Segment, i: nat, j: nat)
    requires i <= j <= |s|
    ensures Size(f, s[..i]) <= Size(f, s[..j])
  {
    assert s[..j] == s[..i] + s[i..j];
    FrameListConcat(f, s[..i], s[i..j]);
  }

  lemma LosesOneIs(f: Framing, s: Segment, n: nat, k: nat, tail: Bytes)
    requires s != [] && n < Size(f, s) && CutAt(f, s, n, k, tail)
    ensures k < |s|
    ensures LosesOne(f, s, n) <==> k == |s| - 1 && k >= 1 && tail != []
  {
    assert s[..|s|] == s;
    CutBounds(f, s, n, k, tail);
    if k < |s| - 1 { SizeGrows(f, s, k + 1, |s| - 1); }
  }

  lemma CutFileLost(o: Options, m: Manifest, s: Segment, k: nat, tail: Bytes, expected: nat)
    requires s != [] && Contiguous(s, s[0].offset) && s[0].offset > 0 && k == |s| - 1 && k >= 1 && tail != []
    requires m.highWatermark == LastOffset(s) && (expected == 0 || expected == s[0].offset)
    ensures var f := FileScan(s[..k], Size(o.format.framing, s[..k]), true);
            && Kept(o, s[..k], tail, expected, true, Some(m.highWatermark)) == Some(f)
            && SegmentAgrees(m, InfoOf(o, s), f, true, true, NextExpected(f.records, expected))
  {
  }

  lemma CutFileRefused(o: Options, m: Manifest, s: Segment, k: nat, tail: Bytes, expected: nat)
    requires s != [] && Contiguous(s, s[0].offset) && s[0].offset > 0 && k < |s|
             && !(k == |s| - 1 && k >= 1 && tail != [])
    requires m.highWatermark == LastOffset(s) && (expected == 0 || expected == s[0].offset)
    requires Size(o.format.framing, s[..k]) < Size(o.format.framing, s)
    ensures var kept := Kept(o, s[..k], tail, expected, true, Some(m.highWatermark));
            kept.Some? ==> !SegmentAgrees(m, InfoOf(o, s), kept.value, tail != [], true,
                NextExpected(kept.value.records, expected))
  {
  }

  lemma CutScanOne(o: Options, m: Manifest, names: seq<string>, d: Disk, segments: seq<Segment>, first: nat, n: nat)
    requires Sound(o.format.framing) && Proper(o, segments, first) && first > 0 && segments != []
    requires WholeUpTo(o, m, names, d, segments, |segments| - 1)
    requires var k := |segments| - 1;
             && m.segments[k] == InfoOf(o, segments[k]) && m.highWatermark == LastOffset(segments[k])
             && n < Size(o.format.framing, segments[k])
             && names[k] in d && d[names[k]] == FrameList(o.format.framing, segments[k])[..n]
    ensures var k := |segments| - 1; var s := segments[k];
            var f := FileScan(s[..|s| - 1], Size(o.format.framing, s[..|s| - 1]), true);
            && (LosesOne(o.format.framing, s, n) ==> f.validBytes <= |d[names[k]]|)
            && ScanOne(o, Some(m), names, k, ScanAt(segments, k, d)) ==
               if LosesOne(o.format.framing, s, n) then Some(Merge(names[k], ScanAt(segments, k, d), f)) else None
  {
    var i := |segments| - 1;
    var s, at := segments[i], ScanAt(segments, i, d);
    var k := WholeFrames(o.format.framing, s, n);
    ChainedBounds(segments, first, i);
    ExpectedAt(segments, first, i, d);
    var tail := Cut(o.format.framing, s, n);
    ScanOfCutAt(o, s, s[0].offset, n, k, tail, at.expected, Some(m.highWatermark));
    LosesOneIs(o.format.framing, s, n, k, tail);
    CutBounds(o.format.framing, s, n, k, tail);
    if LosesOne(o.format.framing, s, n) {
      CutFileLost(o, m, s, k, tail, at.expected);
    } else {
      CutFileRefused(o, m, s, k, tail, at.expected);
    }
  }

  // ---------------------------------------------------------------- a log that loses its last record

  function Shortened(segments: seq<Segment>): seq<Segment>
    requires segments != [] && segments[|segments| - 1] != []
  {
    var k := |segments| - 1;
    segments[..k] + [segments[k][..|segments[k]| - 1]]
  }

  /** The log without its last record, on the file without its last frame. */
  function Dropped(log: Log, history: seq<ChangeRecord>): Log
    requires log.records != [] && log.names != [] && log.highWatermark > 0
    requires Packed(log) != [] && Packed(log)[|Packed(log)| - 1] != []
  {
    var s := Packed(log)[|Packed(log)| - 1];
    var b := FrameList(log.options.format.framing, s[..|s| - 1]);
    log.(records := log.records[..|log.records| - 1], history := history, highWatermark := log.highWatermark - 1,
         activeSize := |b|, disk := log.disk[log.names[|log.names| - 1] := b])
  }

  lemma {:induction false} FlattenShortened(segments: seq<Segment>)
    requires segments != [] && segments[|segments| - 1] != []
    ensures Flatten(segments) != [] && Flatten(Shortened(segments)) == Flatten(segments)[..|Flatten(segments)| - 1]
  {
    var k := |segments| - 1;
    var s := segments[k];
    assert segments == segments[..k] + [s];
    FlattenLast(segments[..k], s);
    FlattenLast(segments[..k], s[..|s| - 1]);
  }

  lemma PlaceShortened(f: Framing, max: nat, q: seq<Segment>, r: ChangeRecord)
    requires var p := Place(f, max, q, r); |p[|p| - 1]| >= 2
    ensures Shortened(Place(f, max, q, r)) == q
  {
    var p, k := Place(f, max, q, r), |q| - 1;
    assert q != [];
    assert p == q[..k] + [q[k] + [r]];
    assert (q[k] + [r])[..|q[k]|] == q[k];
    assert q == q[..k] + [q[k]];
  }

  /** Without the last record the packing is the same, with one record less in the last segment. */
  lemma PackShortened(f: Framing, max: nat, rs: seq<ChangeRecord>)
    requires rs != []
    requires var p := Pack(f, max, rs); p != [] && |p[|p| - 1]| >= 2
    ensures Pack(f, max, rs[..|rs| - 1]) == Shortened(Pack(f, max, rs))
  {
    var most, r := rs[..|rs| - 1], rs[|rs| - 1];
    assert rs == most + [r];
    PackLast(f, max, most, r);
    PlaceShortened(f, max, Pack(f, max, most), r);
  }

  /** The last segment of a log. */
  function LastSegment(log: Log): Segment
    requires Packed(log) != []
  {
    Packed(log)[|Packed(log)| - 1]
  }

  lemma StoredShortened(o: Options, names: seq<string>, d: Disk, s: seq<Segment>)
    requires Stored(o, names, d, s) && s != [] && |s[|s| - 1]| >= 2
    requires forall i :: 0 <= i < |s| - 1 ==> names[i] != names[|s| - 1]
    ensures var k := |s| - 1; var t := Shortened(s);
            Stored(o, names, d[names[k] := FrameList(o.format.framing, t[k])], t)
  {
    var k, t := |s| - 1, Shortened(s);
    var e := d[names[k] := FrameList(o.format.framing, t[k])];
    forall i | 0 <= i < |t|
      ensures SegmentStored(o, names, e, t, i)
    {
      assert SegmentStored(o, names, d, s, i);
    }
  }

  /** There is a last segment, and it has a record to lose. */
  predicate CanLose(log: Log) {
    && log.names != [] && log.records != [] && log.highWatermark > 0
    && Packed(log) != [] && |LastSegment(log)| >= 2
  }

  lemma DroppedPacked(log: Log, history: seq<ChangeRecord>)
    requires CanLose(log)
    ensures Packed(Dropped(log, history)) == Shortened(Packed(log))
  {
    PackShortened(log.options.format.framing, log.options.maxSegmentBytes, log.records);
  }

  lemma DroppedStored(log: Log, history: seq<ChangeRecord>)
    requires CanLose(log) && Stored(log.options, log.names, log.disk, Packed(log)) && ActiveIsLast(log, Packed(log))
    requires forall i :: 0 <= i < |log.names| - 1 ==> log.names[i] != log.names[|log.names| - 1]
    ensures var l := Dropped(log, history);
            Stored(l.options, l.names, l.disk, Packed(l)) && ActiveIsLast(l, Packed(l))
  {
    DroppedPacked(log, history);
    StoredShortened(log.options, log.names, log.disk, Packed(log));
  }

  /** Where the scan arrives. */
  lemma MergeShort(o: Options, name: string, d: Disk, segments: seq<Segment>, n: nat, f: FileScan)
    requires segments != [] && NoneEmpty(segments) && |segments[|segments| - 1]| >= 2 && name in d
    requires var s := segments[|segments| - 1];
             && f == FileScan(s[..|s| - 1], Size(o.format.framing, s[..|s| - 1]), true)
             && f.validBytes <= n <= Size(o.format.framing, s) && d[name] == FrameList(o.format.framing, s)[..n]
    ensures var k := |segments| - 1; var s := segments[k];
            Merge(name, ScanAt(segments, k, d), f) ==
            Scan(Flatten(Shortened(segments)), s[|s| - 2].offset + 1, s[0].offset, true,
                d[name := FrameList(o.format.framing, f.records)])
  {
    var k := |segments| - 1;
    var s := segments[k];
    FlattenLast(segments[..k], f.records);
    assert s == f.records + [s[|s| - 1]];
    FrameListConcat(o.format.framing, f.records, [s[|s| - 1]]);
    assert FrameList(o.format.framing, s)[..n][..f.validBytes] == FrameList(o.format.framing, f.records);
  }

  /** The directory with the last segment file cut to n bytes. */
  function CutDisk(log: Log, n: nat): Disk
    requires log.names != [] && log.names[|log.names| - 1] in log.disk && n <= |log.disk[log.names[|log.names| - 1]]|
  {
    var name := log.names[|log.names| - 1];
    log.disk[name := log.disk[name][..n]]
  }

  lemma LastFile(log: Log)
    requires Layout(log) && log.records != []
    ensures log.names != [] && Packed(log) != [] && LastSegment(log) != [] && NoneEmpty(Packed(log))
    ensures log.names[|log.names| - 1] in log.disk
    ensures log.disk[log.names[|log.names| - 1]] == FrameList(log.options.format.framing, LastSegment(log))
  {
    PackedFacts(log);
    PackedNoneEmpty(log);
    assert SegmentStored(log.options, log.names, log.disk, Packed(log), |log.names| - 1);
  }

  /** The segments and their manifest, with the last file cut to n bytes. */
  predicate CutFiles(o: Options, m: Manifest, names: seq<string>, d: Disk, segments: seq<Segment>, n: nat)
    requires NoneEmpty(segments)
  {
    && segments != [] && WholeUpTo(o, m, names, d, segments, |segments| - 1)
    && var k := |segments| - 1;
       && m.segments[k] == InfoOf(o, segments[k]) && m.highWatermark == LastOffset(segments[k])
       && n < Size(o.format.framing, segments[k])
       && names[k] in d && d[names[k]] == FrameList(o.format.framing, segments[k])[..n]
  }

  /** All records but the last one, on files without its frame. */
  function ShortScan(o: Options, names: seq<string>, d: Disk, segments: seq<Segment>): Scan
    requires segments != [] && |names| == |segments| && |segments[|segments| - 1]| >= 2
  {
    var k := |segments| - 1;
    var s := segments[k];
    Scan(Flatten(Shortened(segments)), s[|s| - 2].offset + 1, s[0].offset, true,
         d[names[k] := FrameList(o.format.framing, s[..|s| - 1])])
  }

  function DroppedScan(log: Log): Scan
    requires CanLose(log)
  {
    Scan(log.records[..|log.records| - 1], log.highWatermark, log.activeFirst, true, Dropped(log, []).disk)
  }

  lemma CutScanFrom(o: Options, m: Manifest, names: seq<string>, d: Disk, segments: seq<Segment>, first: nat, n: nat)
    requires Sound(o.format.framing) && Proper(o, segments, first) && first > 0 && CutFiles(o, m, names, d, segments, n)
    ensures var k := |segments| - 1; var s := segments[k];
            ScanFrom(o, Some(m), names, 0, ScanAt(segments, 0, d)) ==
            if LosesOne(o.format.framing, s, n)
            then Some(ShortScan(o, names, d, segments))
            else None
  {
    var k := |segments| - 1;
    var s := segments[k];
    CutScanOne(o, m, names, d, segments, first, n);
    ScanTo(o, m, names, d, segments, first, 0, k);
    if LosesOne(o.format.framing, s, n) {
      MergeShort(o, names[k], d, segments, n, FileScan(s[..|s| - 1], Size(o.format.framing, s[..|s| - 1]), true));
    }
  }

  lemma CutFilesOf(log: Log, n: nat)
    requires Inv(log) && log.records != [] && NoneEmpty(Packed(log)) && log.names != []
    requires Packed(log) != [] && n < Size(log.options.format.framing, LastSegment(log))
    requires log.names[|log.names| - 1] in log.disk
    requires log.disk[log.names[|log.names| - 1]] == FrameList(log.options.format.framing, LastSegment(log))
    ensures CutFiles(log.options, ManifestOf(log, Infos(log.options, Packed(log))), log.names, CutDisk(log, n),
            Packed(log), n)
  {
    var o, segments, k := log.options, Packed(log), |log.names| - 1;
    PackedFacts(log);
    LastOfChained(segments, log.earliest);
    EarlierFiles(log, k, log.disk[log.names[k]][..n]);
    WholeBefore(o, ManifestOf(log, Infos(o, segments)), log.names, log.disk, CutDisk(log, n), segments, k);
  }

  lemma CutEnd(log: Log, n: nat)
    requires CanLose(log) && Counters(log) && ActiveIsLast(log, Packed(log))
    requires Chained(Packed(log), log.earliest) && Flatten(Packed(log)) == log.records
    requires log.names[|log.names| - 1] in log.disk && n <= |log.disk[log.names[|log.names| - 1]]|
    ensures |log.names| == |Packed(log)| ==>
              ShortScan(log.options, log.names, CutDisk(log, n), Packed(log)) == DroppedScan(log)
  {
    FlattenShortened(Packed(log));
    ChainedBounds(Packed(log), log.earliest, |Packed(log)| - 1);
    LastOfChained(Packed(log), log.earliest);
  }

  /** Segments, counters and the last file of a log, as far as a cut is concerned. */
  ghost predicate CutReady(log: Log, n: nat) {
    && Inv(log) && log.records != [] && NoneEmpty(Packed(log)) && log.names != []
    && Packed(log) != [] && n < Size(log.options.format.framing, LastSegment(log))
    && log.names[|log.names| - 1] in log.disk
    && log.disk[log.names[|log.names| - 1]] == FrameList(log.options.format.framing, LastSegment(log))
  }

  /** The scan of the cut directory, in terms of the log. */
  lemma CutScanLoses(log: Log, n: nat)
    requires CutReady(log, n) && LosesOne(log.options.format.framing, LastSegment(log), n) && CanLose(log)
    ensures ScanFrom(log.options, Some(ManifestOf(log, Infos(log.options, Packed(log)))), log.names, 0,
                     Scan([], 0, 1, false, CutDisk(log, n))) ==
            Some(DroppedScan(log))
  {
    CutFilesOf(log, n);
    PackedFacts(log);
    CutScanFrom(log.options, ManifestOf(log, Infos(log.options, Packed(log))), log.names, CutDisk(log, n), Packed(log),
                log.earliest, n);
    CutEnd(log, n);
  }

  lemma CutScanRefused(log: Log, n: nat)
    requires CutReady(log, n) && !LosesOne(log.options.format.framing, LastSegment(log), n)
    ensures ScanFrom(log.options, Some(ManifestOf(log, Infos(log.options, Packed(log)))), log.names, 0,
                     Scan([], 0, 1, false, CutDisk(log, n))) == None
  {
    CutFilesOf(log, n);
    PackedFacts(log);
    CutScanFrom(log.options, ManifestOf(log, Infos(log.options, Packed(log))), log.names, CutDisk(log, n), Packed(log),
                log.earliest, n);
  }

  lemma CutIsReady(log: Log, n: nat)
    requires Inv(log) && log.records != [] && Packed(log) != []
             && n < Size(log.options.format.framing, LastSegment(log))
    ensures CutReady(log, n)
    ensures LosesOne(log.options.format.framing, LastSegment(log), n) ==> CanLose(log)
  {
    LastFile(log);
  }

  /** The committed version is still the highest one without the last record. */
  predicate KeepsVersion(log: Log)
    requires log.records != []
  {
    MaxVersion(log.records[..|log.records| - 1]) == log.committed
  }

  lemma SomeLeft(segments: seq<Segment>)
    requires segments != [] && |segments[|segments| - 1]| >= 2
    ensures Flatten(Shortened(segments)) != []
  {
    var k := |segments| - 1;
    FlattenLast(segments[..k], segments[k][..|segments[k]| - 1]);
  }

  lemma BuiltDropped(log: Log)
    requires CanLose(log) && Counters(log) && ActiveIsLast(log, Packed(log)) && Flatten(Packed(log)) == log.records
    requires Contiguous(log.records, log.earliest)
    ensures var l := Built(log.options, log.names, log.names, DroppedScan(log), []);
            l == Dropped(log, []).(committed := MaxVersion(log.records[..|log.records| - 1]))
  {
    FlattenShortened(Packed(log));
    SomeLeft(Packed(log));
  }

  /** The log that opens without its last record. */
  ghost function WithoutLast(log: Log): Log
    requires CanLose(log)
  {
    PersistManifest(Dropped(log, log.history)).log
  }

  lemma HistoryOfDropped(log: Log)
    requires CanLose(log) && Inv(log)
    ensures ReadHistory(log.options, Dropped(log, []).disk, log.records[..|log.records| - 1]) == Some(log.history)
  {
    OtherFilesApart(log, |log.names| - 1);
    SnapshotReads(log.options, Dropped(log, []).disk, log.history, log.records[..|log.records| - 1]);
  }

  lemma ShortenedProper(s: seq<Segment>)
    requires NoneEmpty(s) && s != [] && |s[|s| - 1]| >= 2 && forall i :: 0 <= i < |s| ==> s[i][0].offset > 0
    ensures NoneEmpty(Shortened(s)) && forall i :: 0 <= i < |s| ==> Shortened(s)[i][0].offset > 0
  {
    var t := Shortened(s);
    assert forall i :: 0 <= i < |s| ==> t[i] != [] && t[i][0] == s[i][0];
  }

  lemma PersistShortened(l: Log, s: seq<Segment>)
    requires Sound(l.options.format.framing) && l.names != [] && Ascending(l.names)
    requires SegmentsOwned(l.options, s) && NoneEmpty(s) && s != [] && |s[|s| - 1]| >= 2
    requires Stored(l.options, l.names, l.disk, Shortened(s)) && forall i :: 0 <= i < |s| ==> s[i][0].offset > 0
    ensures var p := PersistManifest(l); p.ok && p.log.records == l.records
  {
    SortAscending(l.names);
    ShortenedProper(s);
    OwnedShortened(l.options, s);
    PersistManifestOf(l, Shortened(s));
  }

  /** The log without its last record can be written. */
  lemma PersistDropped(log: Log, history: seq<ChangeRecord>)
    requires CanLose(log) && Layout(log)
    ensures var p := PersistManifest(Dropped(log, history)); p.ok && p.log.records == log.records[..|log.records| - 1]
  {
    LayoutApart(log);
    NamesAscend(log);
    DroppedStored(log, history);
    DroppedPacked(log, history);
    PackedFacts(log);
    PackedNoneEmpty(log);
    PersistShortened(Dropped(log, history), Packed(log));
  }

  lemma OwnedShortened(o: Options, s: seq<Segment>)
    requires SegmentsOwned(o, s) && s != [] && s[|s| - 1] != []
    ensures SegmentsOwned(o, Shortened(s))
  {
    var t, k := Shortened(s), |s| - 1;
    forall i | 0 <= i < |t|
      ensures Owned(o, t[i])
    {
      if i < k { assert t[i] == s[i]; } else { assert t[i] == s[k][..|s[k]| - 1]; }
    }
  }

  lemma FinishDropped(log: Log, m: Manifest)
    requires CanLose(log) && Inv(log) && m == ManifestOf(log, m.segments)
    ensures Finish(Some(m), DroppedScan(log),
            Dropped(log, []).(committed := MaxVersion(log.records[..|log.records| - 1]))) ==
            if KeepsVersion(log) then Some(WithoutLast(log)) else None
  {
    HistoryOfDropped(log);
    if KeepsVersion(log) {
      PersistDropped(log, log.history);
      assert Dropped(log, []).(committed := log.committed).(history := log.history) == Dropped(log, log.history);
    }
  }

  lemma RecoverFromCut(log: Log, n: nat)
    requires CutReady(log, n) && LosesOne(log.options.format.framing, LastSegment(log), n) && CanLose(log)
    ensures RecoverFrom(log.options, CutDisk(log, n), Some(ManifestOf(log, Infos(log.options, Packed(log)))), log.names,
            log.names) ==
            if KeepsVersion(log) then Some(WithoutLast(log)) else None
  {
    CutScanLoses(log, n);
    PackedFacts(log);
    BuiltDropped(log);
    FinishDropped(log, ManifestOf(log, Infos(log.options, Packed(log))));
  }

  lemma CutDiskListed(log: Log, n: nat)
    requires CutReady(log, n)
    ensures MANIFEST in CutDisk(log, n) && CutDisk(log, n)[MANIFEST] == log.disk[MANIFEST]
    ensures forall i :: 0 <= i < |log.names| ==> log.names[i] in CutDisk(log, n)
  {
    OtherFilesApart(log, |log.names| - 1);
    forall i | 0 <= i < |log.names|
      ensures log.names[i] in CutDisk(log, n)
    {
      assert SegmentStored(log.options, log.names, log.disk, Packed(log), i);
    }
  }

  lemma RecoverLost(log: Log, n: nat)
    requires CutReady(log, n) && LosesOne(log.options.format.framing, LastSegment(log), n) && CanLose(log)
    ensures Recover(log.options, CutDisk(log, n)) ==
            if KeepsVersion(log) then Some(WithoutLast(log)) else None
  {
    CutDiskListed(log, n);
    ManifestReads(log);
    NamesOfInfos(log);
    NamesAscend(log);
    RecoverFromCut(log, n);
  }

  /** A log whose last segment file was cut inside what the manifest lists opens if and only if the cut falls inside
      the last frame, another frame precedes it in that file, and the highest version is found elsewhere; it then
      opens without the last record. */
  lemma RecoverCut(log: Log, n: nat)
    requires Inv(log) && log.records != [] && Packed(log) != []
             && n < Size(log.options.format.framing, LastSegment(log))
    ensures CutReady(log, n)
    ensures LosesOne(log.options.format.framing, LastSegment(log), n) ==> CanLose(log)
    ensures Recover(log.options, CutDisk(log, n)) ==
            if LosesOne(log.options.format.framing, LastSegment(log), n)
                && KeepsVersion(log) then Some(WithoutLast(log)) else None
  {
    CutIsReady(log, n);
    if LosesOne(log.options.format.framing, LastSegment(log), n) {
      RecoverLost(log, n);
    } else {
      CutDiskListed(log, n);
      CutScanRefused(log, n);
      RefusedScan(log, CutDisk(log, n));
    }
  }

  lemma CutAccepted(log: Log, n: nat)
    requires Inv(log) && log.records != [] && Packed(log) != []
    requires n < Size(log.options.format.framing, LastSegment(log))
    requires LosesOne(log.options.format.framing, LastSegment(log), n) && KeepsVersion(log)
    ensures CutReady(log, n)
    ensures var l := Recover(log.options, CutDisk(log, n));
            l.Some? && l.value.records == log.records[..|log.records| - 1]
  {
    RecoverCut(log, n);
    PersistDropped(log, log.history);
  }

  lemma VersionStays(log: Log)
    requires Counters(log) && |log.records| >= 2
    requires log.records[|log.records| - 1].commitVersion == log.records[|log.records| - 2].commitVersion
    ensures KeepsVersion(log)
  {
    var rs := log.records;
    assert rs[..|rs| - 1][..|rs| - 2] == rs[..|rs| - 2];
  }

  lemma LastOwned(log: Log)
    requires Layout(log) && Packed(log) != []
    ensures Owned(log.options, LastSegment(log)) && Sound(log.options.format.framing)
  {
    PackedFacts(log);
  }

  /** The last frame has more than one byte. */
  lemma LastByte(o: Options, s: Segment) returns (n: nat)
    requires Sound(o.format.framing) && Owned(o, s) && |s| >= 2
    ensures n + 1 == Size(o.format.framing, s) && LosesOne(o.format.framing, s, n)
  {
    assert s == s[..|s| - 1] + [s[|s| - 1]];
    SizeOfLast(o.format.framing, s[..|s| - 1], s[|s| - 1]);
    n := Size(o.format.framing, s) - 1;
  }

  /** For example, if the last two records are of one transaction and in one file, cutting off its last byte loses a
      record and nothing else. */
  lemma LastByteLost(log: Log) returns (n: nat)
    requires Inv(log) && Packed(log) != [] && |LastSegment(log)| >= 2 && |log.records| >= 2
    requires log.records[|log.records| - 1].commitVersion == log.records[|log.records| - 2].commitVersion
    ensures n + 1 == Size(log.options.format.framing, LastSegment(log)) && CutReady(log, n)
    ensures var l := Recover(log.options, CutDisk(log, n));
            l.Some? && l.value.records == log.records[..|log.records| - 1]
  {
    LastOwned(log);
    n := LastByte(log.options, LastSegment(log));
    VersionStays(log);
    CutAccepted(log, n);
  }
}
