/** Recovery: what the scan of a directory finds when its files are the ones the log wrote, up to a torn tail. */
module LogRecovery {
  import opened Bytes
  import opened ChangeRecords
  import opened Framings
  import opened LogFormats
  import opened Manifests
  import opened Segments
  import opened LogSpec
  import opened LogInvariant
  import opened Wrappers

  /** Nothing, or a frame whose end is missing. */
  predicate TornTail(f: Framing, t: Bytes) { t == [] || f.read(t) == Torn }

  // ---------------------------------------------------------------- one file

  function Prepend(o: Options, r: ChangeRecord, rest: Option<FileScan>): Option<FileScan> {
    match rest
    case None => None
    case Some(s) => Some(FileScan([r] + s.records, |o.format.framing.frame(r)| + s.validBytes, s.torn))
  }

  lemma ScanFileStep(o: Options, r: ChangeRecord, rest: Bytes, expected: nat, isLast: bool, promised: Option<nat>)
    requires Sound(o.format.framing) && Ours(o, r)
    requires expected == 0 || expected == r.offset
    ensures ScanFile(o, o.format.framing.frame(r) + rest, expected, isLast, promised) ==
            Prepend(o, r, ScanFile(o, rest, r.offset + 1, isLast, promised))
  {
    var b := o.format.framing.frame(r);
    assert o.format.framing.read(b + rest) == Got(r, |b|);
    assert (b + rest)[|b|..] == rest;
  }

  /** What the scan makes of whole frames and a torn tail: exactly the frames, or nothing if the tail is not
      forgiven. */
  function Kept(o: Options, rs: seq<ChangeRecord>, tail: Bytes, expected: nat, isLast: bool,
                promised: Option<nat>): Option<FileScan> {
    if tail == [] || Forgiven(isLast, promised, NextExpected(rs, expected))
    then Some(FileScan(rs, Size(o.format.framing, rs), tail != []))
    else None
  }

  lemma KeptStep(o: Options, rs: seq<ChangeRecord>, tail: Bytes, expected: nat, isLast: bool, promised: Option<nat>)
    requires rs != []
    ensures Kept(o, rs, tail, expected, isLast, promised) ==
            Prepend(o, rs[0], Kept(o, rs[1..], tail, rs[0].offset + 1, isLast, promised))
  {
    assert rs == [rs[0]] + rs[1..];
    SizeOfFirst(o.format.framing, rs);
  }

  lemma ScanFileTail(o: Options, tail: Bytes, expected: nat, isLast: bool, promised: Option<nat>)
    requires Sound(o.format.framing) && TornTail(o.format.framing, tail)
    ensures ScanFile(o, tail, expected, isLast, promised) == Kept(o, [], tail, expected, isLast, promised)
  {
  }

  lemma FirstFrame(f: Framing, rs: seq<ChangeRecord>, tail: Bytes)
    requires rs != []
    ensures FrameList(f, rs) + tail == f.frame(rs[0]) + (FrameList(f, rs[1..]) + tail)
  {
  }

  lemma ScanFileMore(o: Options, rs: seq<ChangeRecord>, tail: Bytes, expected: nat, isLast: bool, promised: Option<nat>)
    requires Sound(o.format.framing) && rs != [] && Owned(o, rs) && (expected == 0 || expected == rs[0].offset)
    requires ScanFile(o, FrameList(o.format.framing, rs[1..]) + tail, rs[0].offset + 1, isLast, promised) ==
             Kept(o, rs[1..], tail, rs[0].offset + 1, isLast, promised)
    ensures ScanFile(o, FrameList(o.format.framing, rs) + tail, expected, isLast, promised) ==
            Kept(o, rs, tail, expected, isLast, promised)
  {
    FirstFrame(o.format.framing, rs, tail);
    ScanFileStep(o, rs[0], FrameList(o.format.framing, rs[1..]) + tail, expected, isLast, promised);
    KeptStep(o, rs, tail, expected, isLast, promised);
  }

  lemma {:induction false} ScanFileFrames(o: Options, rs: seq<ChangeRecord>, first: nat, tail: Bytes, expected: nat,
                                          isLast: bool,
                                          promised: Option<nat>)
    requires Sound(o.format.framing) && Owned(o, rs) && Contiguous(rs, first) && TornTail(o.format.framing, tail)
    requires expected == 0 || expected == first
    ensures ScanFile(o, FrameList(o.format.framing, rs) + tail, expected, isLast, promised) ==
            Kept(o, rs, tail, expected, isLast, promised)
    decreases |rs|
  {
    if rs == [] {
      assert FrameList(o.format.framing, rs) + tail == tail;
      ScanFileTail(o, tail, expected, isLast, promised);
    } else {
      var next := rs[0].offset + 1;
      ScanFileFrames(o, rs[1..], next, tail, next, isLast, promised);
      ScanFileMore(o, rs, tail, expected, isLast, promised);
    }
  }

  // ---------------------------------------------------------------- all files

  function TailAt(segments: seq<Segment>, i: nat, tail: Bytes): Bytes { if i + 1 == |segments| then tail else [] }

  predicate FileReadable(o: Options, names: seq<string>, d: Disk, segments: seq<Segment>, tail: Bytes, i: nat)
    requires i < |names| == |segments|
  {
    names[i] in d && d[names[i]] == FrameList(o.format.framing, segments[i]) + TailAt(segments, i, tail)
  }

  /** Every segment file holds its frames; a torn tail may follow the last one. */
  predicate Readable(o: Options, names: seq<string>, d: Disk, segments: seq<Segment>, tail: Bytes) {
    && |names| == |segments| && TornTail(o.format.framing, tail)
    && forall i :: 0 <= i < |segments| ==> FileReadable(o, names, d, segments, tail, i)
  }

  /** The directory after the torn tail has been cut off. */
  function Healed(o: Options, names: seq<string>, d: Disk, segments: seq<Segment>, tail: Bytes): Disk
    requires |names| == |segments|
  {
    if tail == [] || segments == [] then d
    else d[names[|names| - 1] := FrameList(o.format.framing, segments[|segments| - 1])]
  }

  /** The scan before segment i. */
  function ScanAt(segments: seq<Segment>, i: nat, d: Disk): Scan
    requires i <= |segments| && NoneEmpty(segments)
  {
    if i == 0 then Scan([], 0, 1, false, d)
    else
      var s := segments[i - 1];
      Scan(Flatten(segments[..i]), s[|s| - 1].offset + 1, s[0].offset, false, d)
  }

  lemma {:induction false} FlattenLast(segments: seq<Segment>, s: Segment)
    ensures Flatten(segments + [s]) == Flatten(segments) + s
  {
    if segments == [] {
      assert segments + [s] == [s];
      assert Flatten([s]) == s + Flatten([]);
      assert [] + s == s;
    } else {
      FlattenLast(segments[1..], s);
      assert (segments + [s])[1..] == segments[1..] + [s];
    }
  }

  /** Offsets run on from one segment to the next. */
  lemma {:induction false} ChainedNext(segments: seq<Segment>, first: nat, i: nat)
    requires Chained(segments, first) && i + 1 < |segments|
    ensures segments[i] != [] && segments[i + 1] != []
    ensures segments[i + 1][0].offset == segments[i][|segments[i]| - 1].offset + 1
  {
    if i > 0 { ChainedNext(segments[1..], first + |segments[0]|, i - 1); }
  }

  lemma ExpectedAt(segments: seq<Segment>, first: nat, i: nat, d: Disk)
    requires Chained(segments, first) && NoneEmpty(segments) && i < |segments|
    ensures ScanAt(segments, i, d).expected == 0 || ScanAt(segments, i, d).expected == segments[i][0].offset
  {
    if i > 0 { ChainedNext(segments, first, i - 1); }
  }

  lemma TakeOneMore<T>(s: seq<T>, i: nat)
    requires i < |s|
    ensures s[..i + 1] == s[..i] + [s[i]]
  {
  }

  lemma CutTail(frames: Bytes, tail: Bytes)
    ensures (frames + tail)[..|frames|] == frames
  {
  }

  lemma ScanOneFound(o: Options, m: Manifest, names: seq<string>, i: nat, s: Scan, b: Bytes, f: FileScan)
    requires i < |names| == |m.segments| && names[i] in s.disk && s.disk[names[i]] == b
    requires ScanFile(o, b, s.expected, i + 1 == |names|, Some(m.highWatermark)) == Some(f)
    ensures f.validBytes <= |b|
    ensures var t := Merge(names[i], s, f);
            SegmentAgrees(m, m.segments[i], f, t.torn, i + 1 == |names|, t.expected) ==>
            ScanOne(o, Some(m), names, i, s) == Some(t)
  {
  }

  /** A file that holds its segment, and perhaps a torn tail if it is the last one. */
  predicate FileAt(o: Options, m: Manifest, names: seq<string>, d: Disk, segments: seq<Segment>, i: nat, tail: Bytes)
    requires i < |names| == |segments| && NoneEmpty(segments)
  {
    && names[i] in d && d[names[i]] == FrameList(o.format.framing, segments[i]) + tail
    && (tail == [] || (o.format.framing.read(tail) == Torn && i + 1 == |segments|
                       && m.highWatermark <= segments[i][|segments[i]| - 1].offset + 1))
  }

  /** Non-empty segments of this partition with consecutive offsets. */
  predicate Proper(o: Options, segments: seq<Segment>, first: nat) {
    Chained(segments, first) && NoneEmpty(segments) && SegmentsOwned(o, segments)
  }

  /** The next file read in full, as it lies on disk. */
  lemma ScanOneStored(o: Options, m: Manifest, names: seq<string>, d: Disk, segments: seq<Segment>, first: nat,
                      tail: Bytes, i: nat)
    requires Sound(o.format.framing) && i < |segments| == |m.segments| == |names| && Proper(o, segments, first)
    requires FileAt(o, m, names, d, segments, i, tail) && m.segments[i] == InfoOf(o, segments[i])
    ensures var f := FileScan(segments[i], Size(o.format.framing, segments[i]), tail != []);
            && f.validBytes <= |d[names[i]]|
            && ScanOne(o, Some(m), names, i, ScanAt(segments, i, d)) == Some(Merge(names[i], ScanAt(segments, i, d), f))
  {
    var s, at := segments[i], ScanAt(segments, i, d);
    ChainedBounds(segments, first, i);
    ExpectedAt(segments, first, i, d);
    ScanFileFrames(o, s, s[0].offset, tail, at.expected, i + 1 == |names|, Some(m.highWatermark));
    var f := FileScan(s, Size(o.format.framing, s), tail != []);
    ScanOneFound(o, m, names, i, at, FrameList(o.format.framing, s) + tail, f);
  }

  lemma MergeStored(o: Options, m: Manifest, names: seq<string>, d: Disk, segments: seq<Segment>, tail: Bytes, i: nat,
                    f: FileScan)
    requires i < |segments| == |names| && NoneEmpty(segments) && FileAt(o, m, names, d, segments, i, tail)
    requires f == FileScan(segments[i], Size(o.format.framing, segments[i]), tail != [])
    ensures f.validBytes <= |d[names[i]]|
    ensures var t := Merge(names[i], ScanAt(segments, i, d), f);
            t == if i + 1 < |segments| then ScanAt(segments, i + 1, d) else ScanEnd(o, names, d, segments, tail)
  {
    CutTail(FrameList(o.format.framing, segments[i]), tail);
    TakeOneMore(segments, i);
    FlattenLast(segments[..i], segments[i]);
  }

  /** The scan after all segments: all records, and the torn tail gone. */
  function ScanEnd(o: Options, names: seq<string>, d: Disk, segments: seq<Segment>, tail: Bytes): Scan
    requires NoneEmpty(segments) && |names| == |segments|
  {
    ScanAt(segments, |segments|, d).(torn := segments != [] && tail != [], disk := Healed(o, names, d, segments, tail))
  }

  /** The first k files hold their segments, and the manifest describes them. */
  predicate WholeUpTo(o: Options, m: Manifest, names: seq<string>, d: Disk, segments: seq<Segment>, k: nat)
    requires NoneEmpty(segments)
  {
    && k < |segments| == |m.segments| == |names|
    && (forall i :: 0 <= i < k ==> FileAt(o, m, names, d, segments, i, []))
    && (forall i :: 0 <= i < k ==> m.segments[i] == InfoOf(o, segments[i]))
  }

  /** The scan gets to segment k with all records before it. */
  lemma {:induction false} ScanTo(o: Options, m: Manifest, names: seq<string>, d: Disk, segments: seq<Segment>,
                                  first: nat, i: nat, k: nat)
    requires Sound(o.format.framing) && Proper(o, segments, first) && WholeUpTo(o, m, names, d, segments, k) && i <= k
    ensures ScanFrom(o, Some(m), names, i, ScanAt(segments, i, d))
            == ScanFrom(o, Some(m), names, k, ScanAt(segments, k, d))
    decreases k - i
  {
    if i < k {
      ScanOneStored(o, m, names, d, segments, first, [], i);
      MergeStored(o, m, names, d, segments, [], i, FileScan(segments[i], Size(o.format.framing, segments[i]), false));
      ScanTo(o, m, names, d, segments, first, i + 1, k);
    }
  }

  lemma {:induction false} ScanFromStored(o: Options, m: Manifest, names: seq<string>, d: Disk, segments: seq<Segment>,
                                          first: nat,
                                          tail: Bytes)
    requires Sound(o.format.framing) && Proper(o, segments, first) && segments != []
    requires var k := |segments| - 1;
             && WholeUpTo(o, m, names, d, segments, k)
             && FileAt(o, m, names, d, segments, k, tail) && m.segments[k] == InfoOf(o, segments[k])
    ensures ScanFrom(o, Some(m), names, 0, ScanAt(segments, 0, d)) == Some(ScanEnd(o, names, d, segments, tail))
  {
    var k := |segments| - 1;
    ScanTo(o, m, names, d, segments, first, 0, k);
    ScanOneStored(o, m, names, d, segments, first, tail, k);
    MergeStored(o, m, names, d, segments, tail, k, FileScan(segments[k], Size(o.format.framing, segments[k]),
        tail != []));
  }

  /** A file that the scan refuses makes the whole recovery fail. */
  lemma {:induction false} ScanRefused(o: Options, m: Manifest, names: seq<string>, d: Disk, segments: seq<Segment>,
                                       first: nat, k: nat)
    requires Sound(o.format.framing) && Proper(o, segments, first) && WholeUpTo(o, m, names, d, segments, k)
    requires ScanOne(o, Some(m), names, k, ScanAt(segments, k, d)) == None
    ensures ScanFrom(o, Some(m), names, 0, ScanAt(segments, 0, d)) == None
  {
    ScanTo(o, m, names, d, segments, first, 0, k);
  }

  // ---------------------------------------------------------------- the whole directory

  lemma InfoInRange(log: Log, i: nat)
    requires Layout(log) && Representable(log.options) && NoneEmpty(Packed(log)) && i < |Packed(log)|
    ensures SegmentInRange(InfoOf(log.options, Packed(log)[i]))
  {
    var s := Packed(log)[i];
    PackedFacts(log);
    ChainedBounds(Packed(log), log.earliest, i);
    PackFits(log.options.format.framing, log.options.maxSegmentBytes, log.records, i);
    assert UsableName(log.options.format.name(s[0].offset));
    if |s| == 1 {
      assert s == [s[0]];
      FrameListOne(log.options.format.framing, s[0]);
    }
  }

  /** The manifest on disk reads back. */
  lemma ManifestReads(log: Log)
    requires Layout(log) && Representable(log.options) && ManifestStored(log) && NoneEmpty(Packed(log))
    requires log.highWatermark <= UINT64_MAX && log.committed <= UINT64_MAX
    ensures log.options.format.decode(log.disk[MANIFEST]) == Some(ManifestOf(log, Infos(log.options, Packed(log))))
  {
    var m := ManifestOf(log, Infos(log.options, Packed(log)));
    forall i | 0 <= i < |m.segments|
      ensures SegmentInRange(m.segments[i])
    {
      InfoInRange(log, i);
    }
    assert InRange(m);
  }

  lemma NamesOfInfos(log: Log)
    requires Layout(log) && NoneEmpty(Packed(log))
    ensures SegmentNames(Infos(log.options, Packed(log))) == log.names
  {
    var infos := Infos(log.options, Packed(log));
    forall i | 0 <= i < |infos|
      ensures SegmentNames(infos)[i] == log.names[i]
    {
      assert SegmentStored(log.options, log.names, log.disk, Packed(log), i);
    }
  }

  /** The last record of the last segment is the last record. */
  lemma {:induction false} LastOfFlatten(segments: seq<Segment>)
    requires segments != [] && NoneEmpty(segments)
    ensures var s := segments[|segments| - 1]; LastOffset(Flatten(segments)) == s[|s| - 1].offset
  {
    var k := |segments| - 1;
    assert segments == segments[..k] + [segments[k]];
    FlattenLast(segments[..k], segments[k]);
  }

  /** A directory that still holds what the manifest of `log` lists. */
  ghost predicate Survives(log: Log, d: Disk, tail: Bytes) {
    && MANIFEST in d && MANIFEST in log.disk && d[MANIFEST] == log.disk[MANIFEST]
    && Readable(log.options, log.names, d, Packed(log), tail)
    && (log.records == [] ==> SegmentFiles(log.options.format, d) == {})
  }

  /** The log on another directory and with another history. */
  function Moved(log: Log, d: Disk, tail: Bytes, history: seq<ChangeRecord>): Log
    requires |log.names| == |Packed(log)|
  {
    log.(disk := Healed(log.options, log.names, d, Packed(log), tail), history := history)
  }

  lemma WholeBefore(o: Options, m: Manifest, names: seq<string>, d: Disk, e: Disk, s: seq<Segment>, k: nat)
    requires Stored(o, names, d, s) && NoneEmpty(s) && m.segments == Infos(o, s) && k < |s|
    requires forall j :: 0 <= j < k ==> names[j] in d && names[j] in e && e[names[j]] == d[names[j]]
    ensures WholeUpTo(o, m, names, e, s, k)
  {
    forall j | 0 <= j < k
      ensures FileAt(o, m, names, e, s, j, [])
    {
      assert SegmentStored(o, names, d, s, j);
      assert FrameList(o.format.framing, s[j]) + [] == FrameList(o.format.framing, s[j]);
    }
  }

  lemma WholeStored(o: Options, m: Manifest, names: seq<string>, d: Disk, s: seq<Segment>)
    requires Stored(o, names, d, s) && NoneEmpty(s) && s != [] && m.segments == Infos(o, s)
    ensures WholeUpTo(o, m, names, d, s, |s| - 1) && FileAt(o, m, names, d, s, |s| - 1, [])
  {
    WholeBefore(o, m, names, d, d, s, |s| - 1) by {
      forall i | 0 <= i < |s|
        ensures names[i] in d
      {
        assert SegmentStored(o, names, d, s, i);
      }
    }
    assert SegmentStored(o, names, d, s, |s| - 1);
    assert d[names[|s| - 1]] + [] == d[names[|s| - 1]];
  }

  /** The scan of whole segments does not look at the counters of the manifest. */
  lemma ScanWhole(l: Log, m: Manifest, d: Disk)
    requires Layout(l) && l.records != [] && NoneEmpty(Packed(l)) && m.segments == Infos(l.options, Packed(l))
    requires Stored(l.options, l.names, d, Packed(l))
    ensures ScanFrom(l.options, Some(m), l.names, 0, Scan([], 0, 1, false, d)) ==
            Some(ScanEnd(l.options, l.names, d, Packed(l), []))
  {
    PackedFacts(l);
    WholeStored(l.options, m, l.names, d, Packed(l));
    ScanFromStored(l.options, m, l.names, d, Packed(l), l.earliest, []);
  }

  lemma ScanSurvivors(log: Log, d: Disk, tail: Bytes)
    requires Inv(log) && Survives(log, d, tail) && NoneEmpty(Packed(log))
    ensures var m := ManifestOf(log, Infos(log.options, Packed(log)));
            ScanFrom(log.options, Some(m), log.names, 0, Scan([], 0, 1, false, d)) ==
            Some(ScanEnd(log.options, log.names, d, Packed(log), tail))
  {
    var o, s := log.options, Packed(log);
    var m := ManifestOf(log, Infos(o, s));
    PackedFacts(log);
    if s != [] {
      var k := |s| - 1;
      LastOfFlatten(s);
      forall i | 0 <= i < k
        ensures FileAt(o, m, log.names, d, s, i, [])
      {
        assert FileReadable(o, log.names, d, s, tail, i);
      }
      assert FileReadable(o, log.names, d, s, tail, k);
      ScanFromStored(o, m, log.names, d, s, log.earliest, tail);
    }
  }

  lemma HealedReads(o: Options, names: seq<string>, d: Disk, segments: seq<Segment>, tail: Bytes, i: nat)
    requires Readable(o, names, d, segments, tail) && i < |segments|
    requires i < |names| - 1 ==> names[i] != names[|names| - 1]
    ensures var e := Healed(o, names, d, segments, tail);
            names[i] in e && e[names[i]] == FrameList(o.format.framing, segments[i])
  {
    assert FileReadable(o, names, d, segments, tail, i);
    assert FrameList(o.format.framing, segments[i]) + [] == FrameList(o.format.framing, segments[i]);
  }

  lemma HealedFile(log: Log, d: Disk, tail: Bytes, i: nat)
    requires Layout(log) && Survives(log, d, tail) && i < |log.names|
    ensures SegmentStored(log.options, log.names, Healed(log.options, log.names, d, Packed(log), tail), Packed(log), i)
  {
    assert SegmentStored(log.options, log.names, log.disk, Packed(log), i);
    if i < |log.names| - 1 { NamesDistinct(log, i, |log.names| - 1); }
    HealedReads(log.options, log.names, d, Packed(log), tail, i);
  }

  lemma HealedStored(log: Log, d: Disk, tail: Bytes)
    requires Layout(log) && Survives(log, d, tail)
    ensures Stored(log.options, log.names, Healed(log.options, log.names, d, Packed(log), tail), Packed(log))
  {
    forall i | 0 <= i < |log.names|
      ensures SegmentStored(log.options, log.names, Healed(log.options, log.names, d, Packed(log), tail), Packed(log),
              i)
    {
      HealedFile(log, d, tail, i);
    }
  }

  /** A name in use is not the manifest or the snapshot. */
  lemma OtherFilesApart(log: Log, i: nat)
    requires Layout(log) && i < |log.names|
    ensures log.names[i] != MANIFEST && log.names[i] != SNAPSHOT
  {
    var n := NameAt(log, i);
  }

  lemma HealedOthers(log: Log, d: Disk, tail: Bytes)
    requires Layout(log) && Survives(log, d, tail)
    ensures var e := Healed(log.options, log.names, d, Packed(log), tail);
            && MANIFEST in e && e[MANIFEST] == d[MANIFEST]
            && (SNAPSHOT in e <==> SNAPSHOT in d) && (SNAPSHOT in d ==> e[SNAPSHOT] == d[SNAPSHOT])
            && (log.records == [] ==> e == d)
  {
    PackedFacts(log);
    if log.names != [] { OtherFilesApart(log, |log.names| - 1); }
  }

  /** The counters that the scan arrives at are the ones in memory. */
  lemma BuiltSurvivors(log: Log, d: Disk, tail: Bytes)
    requires Inv(log) && Survives(log, d, tail) && NoneEmpty(Packed(log))
    ensures Built(log.options, log.names, log.names, ScanEnd(log.options, log.names, d, Packed(log), tail), []) ==
            Moved(log, d, tail, [])
  {
    var s, k := Packed(log), |Packed(log)| - 1;
    PackedFacts(log);
    assert s[..|s|] == s;
    if s != [] {
      LastOfFlatten(s);
      HealedFile(log, d, tail, k);
    }
  }

  lemma StateOfSurvivors(log: Log, d: Disk, tail: Bytes)
    requires Inv(log) && Survives(log, d, tail) && NoneEmpty(Packed(log))
    ensures StateAgrees(ManifestOf(log, Infos(log.options, Packed(log))),
            ScanEnd(log.options, log.names, d, Packed(log), tail),
                        log.earliest, log.highWatermark, log.committed)
  {
  }

  lemma ToPersistMoved(log: Log, d: Disk, tail: Bytes, history: seq<ChangeRecord>)
    requires Layout(log) && Survives(log, d, tail)
    ensures NamesToPersist(Moved(log, d, tail, history)) == log.names
  {
    PackedFacts(log);
    NamesAscend(log);
    HealedOthers(log, d, tail);
  }

  /** Writing the manifest again changes nothing. */
  lemma PersistMoved(log: Log, d: Disk, tail: Bytes, history: seq<ChangeRecord>)
    requires Inv(log) && Survives(log, d, tail)
    ensures PersistManifest(Moved(log, d, tail, history)) == Outcome(Moved(log, d, tail, history), true)
  {
    var l := Moved(log, d, tail, history);
    PackedFacts(log);
    PackedNoneEmpty(log);
    ToPersistMoved(log, d, tail, history);
    HealedStored(log, d, tail);
    HealedOthers(log, d, tail);
    PersistManifestOf(l, Packed(log));
    assert l.disk[MANIFEST := l.disk[MANIFEST]] == l.disk;
  }

  lemma HistoryOnHealed(log: Log, d: Disk, tail: Bytes)
    requires Layout(log) && Survives(log, d, tail)
    ensures ReadHistory(log.options, Healed(log.options, log.names, d, Packed(log), tail), log.records) ==
            ReadHistory(log.options, d, log.records)
  {
    HealedOthers(log, d, tail);
  }

  function MovedIf(log: Log, d: Disk, tail: Bytes, history: Option<seq<ChangeRecord>>): Option<Log>
    requires |log.names| == |Packed(log)|
  {
    match history
    case None => None
    case Some(h) => Some(Moved(log, d, tail, h))
  }

  lemma RecoverFromSurvivors(log: Log, d: Disk, tail: Bytes)
    requires Inv(log) && Survives(log, d, tail) && NoneEmpty(Packed(log))
    ensures RecoverFrom(log.options, d, Some(ManifestOf(log, Infos(log.options, Packed(log)))), log.names, log.names) ==
            MovedIf(log, d, tail, ReadHistory(log.options, d, log.records))
  {
    PackedFacts(log);
    ScanSurvivors(log, d, tail);
    BuiltSurvivors(log, d, tail);
    StateOfSurvivors(log, d, tail);
    HistoryOnHealed(log, d, tail);
    assert Packed(log)[..|Packed(log)|] == Packed(log);
    match ReadHistory(log.options, d, log.records) {
      case None =>
      case Some(h) => PersistMoved(log, d, tail, h);
    }
  }

  /** Recovery of a directory that still holds what the manifest lists rebuilds the log, cuts off a torn tail and
      takes its history from the snapshot file; files that are not listed change nothing. */
  lemma RecoverSurvivors(log: Log, d: Disk, tail: Bytes)
    requires Inv(log) && Survives(log, d, tail)
    ensures Recover(log.options, d) == MovedIf(log, d, tail, ReadHistory(log.options, d, log.records))
  {
    PackedNoneEmpty(log);
    ManifestReads(log);
    NamesOfInfos(log);
    NamesAscend(log);
    forall i | 0 <= i < |log.names|
      ensures log.names[i] in d
    {
      assert FileReadable(log.options, log.names, d, Packed(log), tail, i);
    }
    RecoverFromSurvivors(log, d, tail);
  }

  lemma SnapshotReads(o: Options, d: Disk, h: seq<ChangeRecord>, records: seq<ChangeRecord>)
    requires Sound(o.format.framing) && Owned(o, h)
    requires SNAPSHOT in d && d[SNAPSHOT] == FrameList(o.format.framing, h)
    ensures ReadHistory(o, d, records) == Some(if h == [] then records else h)
  {
    assert forall i :: 0 <= i < |h| ==> Ours(o, h[i]);
    ReadAllFrames(o.format.framing, h);
  }

  lemma HistoryReads(log: Log)
    requires Inv(log)
    ensures ReadHistory(log.options, log.disk, log.records) == Some(log.history)
  {
    if SNAPSHOT in log.disk { SnapshotReads(log.options, log.disk, log.history, log.records); }
  }

  lemma SurvivesItself(log: Log)
    requires Inv(log)
    ensures Survives(log, log.disk, [])
  {
    forall i | 0 <= i < |log.names|
      ensures FileReadable(log.options, log.names, log.disk, Packed(log), [], i)
    {
      assert SegmentStored(log.options, log.names, log.disk, Packed(log), i);
      assert log.disk[log.names[i]] + [] == log.disk[log.names[i]];
    }
    if log.records == [] { NothingToList(log); }
  }

  /** Reopening gives back the very same log: records, history, watermark, earliest offset, committed version, segment
      list, active segment and files. */
  lemma RecoverRoundTrip(log: Log)
    requires Inv(log)
    ensures Recover(log.options, log.disk) == Some(log)
  {
    SurvivesItself(log);
    RecoverSurvivors(log, log.disk, []);
    HistoryReads(log);
  }

  /** An empty directory opens as an empty log. */
  lemma RecoverEmptyDirectory(o: Options)
    requires Good(o.format) && Representable(o)
    ensures Recover(o, map[]).Some? && Inv(Recover(o, map[]).value)
    ensures var l := Recover(o, map[]).value;
            l.records == [] && l.history == [] && l.highWatermark == 0 && l.earliest == 1
  {
    var d: Disk := map[];
    assert SegmentFiles(o.format, d) == {};
    var l := Built(o, [], [], Scan([], 0, 1, false, d), []);
    assert Stored(o, [], d, Packed(l));
    PersistManifestCompletes(l);
  }

  /** A manifest that does not carry the highest version of its segments is refused. */
  lemma WrongVersionRefused(l: Log)
    requires Layout(l) && Representable(l.options) && ManifestStored(l) && l.records != []
    requires l.highWatermark <= UINT64_MAX && l.committed <= UINT64_MAX && l.committed != MaxVersion(l.records)
    ensures Recover(l.options, l.disk) == None
  {
    PackedFacts(l);
    PackedNoneEmpty(l);
    ManifestReads(l);
    NamesOfInfos(l);
    NamesAscend(l);
    ScanWhole(l, ManifestOf(l, Infos(l.options, Packed(l))), l.disk);
    assert Packed(l)[..|Packed(l)|] == Packed(l);
  }
}
