/** Appending to a log that was reopened over segment files a crash left behind.  Reopening neither lists nor removes
    them; an append that begins a segment of the same name adds to the file that is there. */
module LogReuse {
  import opened Bytes
  import opened ChangeRecords
  import opened Framings
  import opened LogFormats
  import opened Manifests
  import opened Segments
  import opened LogSpec
  import opened LogInvariant
  import opened LogRecovery
  import opened LogCrash
  import opened LogFaults
  import opened Wrappers

  // ---------------------------------------------------------------- a directory over other files

  /** The files of d, each after what was already in a file of that name. */
  function Over(extra: Disk, d: Disk): Disk {
    map n | n in extra.Keys + d.Keys :: Contents(extra, n) + Contents(d, n)
  }

  function Above(log: Log, extra: Disk): Log { log.(disk := Over(extra, log.disk)) }

  lemma OverPut(extra: Disk, d: Disk, n: string, b: Bytes)
    ensures Over(extra, d[n := Contents(d, n) + b]) == Over(extra, d)[n := Contents(Over(extra, d), n) + b]
  {
    assert Contents(extra, n) + (Contents(d, n) + b) == (Contents(extra, n) + Contents(d, n)) + b;
  }

  lemma OverOther(extra: Disk, d: Disk, n: string, b: Bytes)
    requires n !in extra
    ensures Over(extra, d[n := b]) == Over(extra, d)[n := b]
  {
    assert Contents(extra, n) + b == b;
  }

  lemma OverElsewhere(extra: Disk, d: Disk, n: string)
    requires n !in extra
    ensures n in Over(extra, d) <==> n in d
    ensures n in d ==> Over(extra, d)[n] == d[n]
  {
    assert [] + Contents(d, n) == Contents(d, n);
  }

  /** Appending looks at no file. */
  lemma FrameAbove(log: Log, extra: Disk, r: ChangeRecord)
    ensures AppendFrame(Above(log, extra), r) == Above(AppendFrame(log, r), extra)
  {
    var b := log.options.format.framing.frame(r);
    var first := if Rolls(log, b) then r.offset else log.activeFirst;
    OverPut(extra, log.disk, log.options.format.name(first), b);
  }

  lemma {:induction false} FramesAbove(log: Log, extra: Disk, rs: seq<ChangeRecord>)
    ensures AppendFrames(Above(log, extra), rs) == Above(AppendFrames(log, rs), extra)
    decreases |rs|
  {
    if rs != [] {
      FramesAbove(log, extra, rs[..|rs| - 1]);
      FrameAbove(AppendFrames(log, rs[..|rs| - 1]), extra, rs[|rs| - 1]);
    }
  }

  lemma EnterAbove(log: Log, extra: Disk, version: nat, batch: seq<ChangeRecord>)
    requires SNAPSHOT !in extra
    ensures Enter(Above(log, extra), version, batch) == Above(Enter(log, version, batch), extra)
  {
    FramesAbove(log, extra, batch);
    var l := Advance(AppendFrames(log, batch), version, |batch|);
    OverOther(extra, l.disk, SNAPSHOT, FrameList(l.options.format.framing, l.history));
  }

  // ---------------------------------------------------------------- files left behind

  /** What a crash left: for each file, the records whose frames it holds. */
  type Leavings = map<string, Segment>

  function FilesOf(f: Framing, left: Leavings): Disk { map n | n in left :: FrameList(f, left[n]) }

  predicate LeftFile(log: Log, name: string, s: Segment) {
    && s != [] && Owned(log.options, s) && Contiguous(s, s[0].offset)
    && End(log) <= s[0].offset && s[|s| - 1].offset <= UINT64_MAX
    && name == NameOf(log.options, s)
  }

  /** Whole segments that begin past the end of the log. */
  predicate LeftBehind(log: Log, left: Leavings) {
    forall n :: n in left ==> LeftFile(log, n, left[n])
  }

  /** The log as it reopens over them. */
  function With(log: Log, left: Leavings): Log { Above(log, FilesOf(log.options.format.framing, left)) }

  lemma LeftElsewhere(log: Log, left: Leavings, name: string)
    requires Layout(log) && LeftBehind(log, left) && !log.options.format.isSegment(name)
    ensures name !in left
  {
    forall n | n in left
      ensures log.options.format.isSegment(n)
    {
      assert LeftFile(log, n, left[n]);
    }
  }

  lemma LeftUnlisted(log: Log, left: Leavings, i: nat)
    requires Layout(log) && LeftBehind(log, left) && i < |log.names|
    ensures log.names[i] !in left
  {
    var n := NameAt(log, i);
    if log.names[i] in left {
      var s := left[log.names[i]];
      assert LeftFile(log, log.names[i], s);
      NamesDiffer(log.options.format, n, s[0].offset);
    }
  }

  /** Nothing of the log is in those files, and it reopens over them. */
  lemma {:induction false} ReopensOver(log: Log, extra: Disk)
    requires Inv(log) && log.names != [] && MANIFEST !in extra && SNAPSHOT !in extra
    requires Unlisted(log.names, extra)
    ensures Recover(log.options, Over(extra, log.disk)) == Some(Above(log, extra))
  {
    var d := Over(extra, log.disk);
    GrownOver(log, extra);
    OverElsewhere(extra, log.disk, MANIFEST);
    OverElsewhere(extra, log.disk, SNAPSHOT);
    GrownSurvives(log, d, []);
    SameHistory(log, d);
    HistoryReads(log);
    RecoverSurvivors(log, d, []);
  }

  lemma GrownOver(log: Log, extra: Disk)
    requires Layout(log) && log.names != []
    requires Unlisted(log.names, extra)
    ensures Grown(log, Over(extra, log.disk), [])
  {
    GrownBySelf(log);
    forall i | 0 <= i < |log.names|
      ensures log.names[i] in log.disk && log.names[i] in Over(extra, log.disk)
      ensures Over(extra, log.disk)[log.names[i]] == log.disk[log.names[i]]
    {
      assert SegmentStored(log.options, log.names, log.disk, Packed(log), i);
      OverElsewhere(extra, log.disk, log.names[i]);
    }
    var last := log.names[|log.names| - 1];
    assert log.disk[last] + [] == log.disk[last];
  }

  // ---------------------------------------------------------------- the append

  /** The segments of the files after the append: what was left behind, and then what was appended. */
  function Doubled(names: seq<string>, s: seq<Segment>, left: Leavings): (t: seq<Segment>)
    requires |names| == |s|
    ensures |t| == |s|
    ensures forall i :: 0 <= i < |s| ==> t[i] == (if names[i] in left then left[names[i]] else []) + s[i]
  {
    seq(|s|, i requires 0 <= i < |s| => (if names[i] in left then left[names[i]] else []) + s[i])
  }

  /** What the two parts have in common: the first offset, which the file is named after. */
  predicate SameStarts(names: seq<string>, s: seq<Segment>, left: Leavings)
    requires |names| == |s|
  {
    forall i :: 0 <= i < |s| && names[i] in left ==>
      s[i] != [] && left[names[i]] != [] && left[names[i]][0].offset == s[i][0].offset
  }

  lemma StartsAgree(log: Log, left: Leavings, l: Log)
    requires Good(log.options.format) && LeftBehind(log, left) && Layout(l) && l.options == log.options
    ensures |l.names| == |Packed(l)| && SameStarts(l.names, Packed(l), left)
  {
    forall i | 0 <= i < |l.names| && l.names[i] in left
      ensures Packed(l)[i] != [] && left[l.names[i]] != [] && left[l.names[i]][0].offset == Packed(l)[i][0].offset
    {
      var n := NameAt(l, i);
      var s := left[l.names[i]];
      assert LeftFile(log, l.names[i], s);
      if s[0].offset != n { NamesDiffer(log.options.format, n, s[0].offset); }
    }
  }

  lemma DoubledFile(o: Options, names: seq<string>, d: Disk, s: seq<Segment>, left: Leavings, i: nat)
    requires Stored(o, names, d, s) && SameStarts(names, s, left) && i < |s|
    ensures SegmentStored(o, names, Over(FilesOf(o.format.framing, left), d), Doubled(names, s, left), i)
  {
    var f, name := o.format.framing, names[i];
    assert SegmentStored(o, names, d, s, i);
    if name in left {
      FrameListConcat(f, left[name], s[i]);
    } else {
      assert [] + s[i] == s[i];
      OverElsewhere(FilesOf(f, left), d, name);
    }
  }

  /** All that the manifest needs to know about the files. */
  predicate Listable(o: Options, names: seq<string>, d: Disk, s: seq<Segment>) {
    && Stored(o, names, d, s) && NoneEmpty(s) && SegmentsOwned(o, s)
    && OffsetsPositive(s)
  }

  lemma DoubledListable(log: Log, left: Leavings, l: Log)
    requires Good(log.options.format) && LeftBehind(log, left) && Layout(l) && l.options == log.options
    ensures |l.names| == |Packed(l)|
    ensures Listable(l.options, l.names, With(l, left).disk, Doubled(l.names, Packed(l), left))
  {
    StartsAgree(log, left, l);
    PackedFacts(l);
    PackedNoneEmpty(l);
    LeftOwned(log, left);
    DoubledStored(l.options, l.names, l.disk, Packed(l), left);
  }

  predicate LeavingsOwned(o: Options, left: Leavings) {
    forall n :: n in left ==> Owned(o, left[n])
  }

  lemma LeftOwned(log: Log, left: Leavings)
    requires LeftBehind(log, left)
    ensures LeavingsOwned(log.options, left)
  {
    forall n | n in left
      ensures Owned(log.options, left[n])
    {
      assert LeftFile(log, n, left[n]);
    }
  }

  lemma DoubledOwned(o: Options, names: seq<string>, s: seq<Segment>, left: Leavings, i: nat)
    requires |names| == |s| && SegmentsOwned(o, s) && LeavingsOwned(o, left) && i < |s|
    ensures Owned(o, Doubled(names, s, left)[i])
  {
    assert Owned(o, s[i]);
    if names[i] in left { assert Owned(o, left[names[i]]); }
  }

  lemma DoubledStored(o: Options, names: seq<string>, d: Disk, s: seq<Segment>, left: Leavings)
    requires Listable(o, names, d, s) && SameStarts(names, s, left) && LeavingsOwned(o, left)
    ensures Listable(o, names, Over(FilesOf(o.format.framing, left), d), Doubled(names, s, left))
  {
    var e, t := Over(FilesOf(o.format.framing, left), d), Doubled(names, s, left);
    forall i | 0 <= i < |s|
      ensures SegmentStored(o, names, e, t, i)
    {
      DoubledFile(o, names, d, s, left, i);
    }
    forall i | 0 <= i < |s|
      ensures Owned(o, t[i])
    {
      DoubledOwned(o, names, s, left, i);
    }
    forall i | 0 <= i < |s|
      ensures t[i] != [] && t[i][0].offset > 0
    {
      if names[i] !in left { assert [] + s[i] == s[i]; }
    }
  }

  function DoubledManifest(l: Log, left: Leavings): Manifest
    requires |l.names| == |Packed(l)| && NoneEmpty(Doubled(l.names, Packed(l), left))
  {
    ManifestOf(l, Infos(l.options, Doubled(l.names, Packed(l), left)))
  }

  lemma PersistWith(log: Log, left: Leavings, l: Log)
    requires Good(log.options.format) && LeftBehind(log, left) && Layout(l) && l.options == log.options && l.names != []
    ensures |l.names| == |Packed(l)| && NoneEmpty(Doubled(l.names, Packed(l), left))
    ensures var w := With(l, left);
            PersistManifest(w) ==
            Outcome(w.(disk := w.disk[MANIFEST := l.options.format.encode(DoubledManifest(l, left))]), true)
  {
    DoubledListable(log, left, l);
    NamesAscend(l);
    PersistManifestOf(With(l, left), Doubled(l.names, Packed(l), left));
  }

  // ---------------------------------------------------------------- no name is used again

  predicate Reuses(names: seq<string>, left: Leavings) {
    exists i :: 0 <= i < |names| && names[i] in left
  }

  lemma PersistPlain(l: Log)
    requires Layout(l) && l.names != []
    ensures NoneEmpty(Packed(l))
    ensures PersistManifest(l) ==
            Outcome(l.(disk := l.disk[MANIFEST := l.options.format.encode(ManifestOf(l, Infos(l.options, Packed(l))))]),
                true)
  {
    PackedFacts(l);
    PackedNoneEmpty(l);
    ToPersist(l);
    PersistManifestOf(l, Packed(l));
  }

  predicate Unlisted(names: seq<string>, extra: Disk) {
    forall i :: 0 <= i < |names| ==> names[i] !in extra
  }

  lemma {:induction false} SameRanges(f: Format, extra: Disk, d: Disk, names: seq<string>)
    requires Unlisted(names, extra)
    ensures SegmentRanges(f, Over(extra, d), names) == SegmentRanges(f, d, names)
    decreases |names|
  {
    if names != [] {
      OverElsewhere(extra, d, names[0]);
      assert forall i :: 0 <= i < |names| - 1 ==> names[1..][i] == names[i + 1];
      SameRanges(f, extra, d, names[1..]);
    }
  }

  /** Then the manifest is written as if the files were not there. */
  lemma PersistOver(l: Log, extra: Disk)
    requires Layout(l) && l.names != [] && Unlisted(l.names, extra) && MANIFEST !in extra
    ensures PersistManifest(Above(l, extra)) == Outcome(Above(PersistManifest(l).log, extra), true)
  {
    PersistPlain(l);
    NamesAscend(l);
    SameRanges(l.options.format, extra, l.disk, l.names);
    OverOther(extra, l.disk, MANIFEST, l.options.format.encode(ManifestOf(l, Infos(l.options, Packed(l)))));
  }

  // ---------------------------------------------------------------- a name is used again

  /** A file whose second part begins where the first one did is refused by the scan. */
  lemma {:induction false} ScanDoubled(o: Options, s: Segment, t: Segment, first: nat, expected: nat, isLast: bool,
                                       promised: Option<nat>)
    requires Sound(o.format.framing) && Owned(o, s) && Owned(o, t) && t != [] && Contiguous(s, first)
    requires t[0].offset < first + |s| && (expected == 0 || expected == first) && (s == [] ==> expected == first)
    ensures ScanFile(o, FrameList(o.format.framing, s) + FrameList(o.format.framing, t), expected, isLast, promised)
            == None
    decreases |s|
  {
    var f := o.format.framing;
    if s == [] {
      assert FrameList(f, s) + FrameList(f, t) == f.frame(t[0]) + FrameList(f, t[1..]);
      assert f.read(f.frame(t[0]) + FrameList(f, t[1..])) == Got(t[0], |f.frame(t[0])|);
    } else {
      FirstFrame(f, s, FrameList(f, t));
      assert Contiguous(s[1..], first + 1);
      ScanDoubled(o, s[1..], t, first + 1, first + 1, isLast, promised);
      ScanFileStep(o, s[0], FrameList(f, s[1..]) + FrameList(f, t), expected, isLast, promised);
    }
  }

  /** No segment file holds more bytes than a 64-bit size can say. */
  predicate FilesFit(f: Format, d: Disk) {
    forall n :: n in d && f.isSegment(n) ==> |d[n]| <= UINT64_MAX
  }

  lemma DoubledInRange(log: Log, left: Leavings, l: Log)
    requires Good(log.options.format) && LeftBehind(log, left) && Layout(l) && l.options == log.options
    requires Representable(l.options) && l.highWatermark <= UINT64_MAX && l.committed <= UINT64_MAX
    requires FilesFit(l.options.format, With(l, left).disk)
    ensures |l.names| == |Packed(l)| && NoneEmpty(Doubled(l.names, Packed(l), left))
    ensures InRange(DoubledManifest(l, left))
  {
    DoubledListable(log, left, l);
    forall i | 0 <= i < |l.names|
      ensures SegmentInRange(InfoOf(l.options, Doubled(l.names, Packed(l), left)[i]))
    {
      DoubledFileInRange(log, left, l, i);
    }
  }

  lemma DoubledFileInRange(log: Log, left: Leavings, l: Log, i: nat)
    requires Good(log.options.format) && LeftBehind(log, left) && Layout(l) && l.options == log.options
    requires Representable(l.options) && FilesFit(l.options.format, With(l, left).disk)
    requires i < |l.names| == |Packed(l)| && NoneEmpty(Doubled(l.names, Packed(l), left))
    ensures SegmentInRange(InfoOf(l.options, Doubled(l.names, Packed(l), left)[i]))
  {
    DoubledListable(log, left, l);
    StartsAgree(log, left, l);
    PackedNoneEmpty(l);
    InfoInRange(l, i);
    var n := NameAt(l, i);
    assert SegmentStored(l.options, l.names, l.disk, Packed(l), i);
    DoubledEnds(left, l, i);
    DoubledInfo(l.options, l.names, With(l, left).disk, Doubled(l.names, Packed(l), left), i, Packed(l)[i]);
  }

  lemma DoubledInfo(o: Options, names: seq<string>, d: Disk, s: seq<Segment>, i: nat, t: Segment)
    requires Stored(o, names, d, s) && i < |s| && FilesFit(o.format, d) && o.format.isSegment(names[i])
    requires t != [] && s[i] != [] && s[i][|s[i]| - 1] == t[|t| - 1] && s[i][0].offset <= UINT64_MAX
    requires names[i] == NameOf(o, t) && SegmentInRange(InfoOf(o, t))
    ensures SegmentInRange(InfoOf(o, s[i]))
  {
    assert SegmentStored(o, names, d, s, i);
    assert |d[names[i]]| <= UINT64_MAX;
  }

  /** The last record of a file is the last one that was appended to it. */
  lemma DoubledEnds(left: Leavings, l: Log, i: nat)
    requires |l.names| == |Packed(l)| && i < |l.names| && Packed(l)[i] != []
    requires SameStarts(l.names, Packed(l), left)
    ensures var t := Doubled(l.names, Packed(l), left)[i];
            t != [] && t[|t| - 1] == Packed(l)[i][|Packed(l)[i]| - 1] && t[0].offset == Packed(l)[i][0].offset
  {
  }

  /** The first file that is used again. */
  lemma FirstReuse(names: seq<string>, left: Leavings) returns (k: nat)
    requires Reuses(names, left)
    ensures k < |names| && names[k] in left && forall i :: 0 <= i < k ==> names[i] !in left
  {
    k := 0;
    while names[k] !in left
      invariant k < |names| && forall i :: 0 <= i < k ==> names[i] !in left
      invariant exists i :: k <= i < |names| && names[i] in left
      decreases |names| - k
    {
      var j :| k <= j < |names| && names[j] in left;
      k := k + 1;
      assert k <= j;
    }
  }

  lemma WholeBeforeReuse(o: Options, m: Manifest, names: seq<string>, d: Disk, s: seq<Segment>, left: Leavings, k: nat)
    requires Stored(o, names, d, s) && NoneEmpty(s) && k < |s| && NoneEmpty(Doubled(names, s, left))
    requires m.segments == Infos(o, Doubled(names, s, left)) && forall i :: 0 <= i < k ==> names[i] !in left
    ensures WholeUpTo(o, m, names, Over(FilesOf(o.format.framing, left), d), s, k)
  {
    var extra := FilesOf(o.format.framing, left);
    forall i | 0 <= i < k
      ensures FileAt(o, m, names, Over(extra, d), s, i, []) && m.segments[i] == InfoOf(o, s[i])
    {
      assert SegmentStored(o, names, d, s, i);
      OverElsewhere(extra, d, names[i]);
      assert d[names[i]] + [] == d[names[i]];
      assert [] + s[i] == s[i];
    }
  }

  lemma ReusedFile(log: Log, left: Leavings, l: Log, k: nat, expected: nat, isLast: bool, promised: Option<nat>)
    requires Good(log.options.format) && LeftBehind(log, left) && Layout(l) && l.options == log.options
    requires k < |l.names| == |Packed(l)| && l.names[k] in left && Packed(l)[k] != []
    requires expected == 0 || expected == Packed(l)[k][0].offset
    ensures l.names[k] in With(l, left).disk
    ensures ScanFile(l.options, With(l, left).disk[l.names[k]], expected, isLast, promised) == None
  {
    var name, t := l.names[k], Packed(l)[k];
    StartsAgree(log, left, l);
    PackedFacts(l);
    assert SegmentStored(l.options, l.names, l.disk, Packed(l), k);
    assert LeftFile(log, name, left[name]);
    ScanDoubled(l.options, left[name], t, t[0].offset, expected, isLast, promised);
  }

  lemma ReuseScan(log: Log, left: Leavings, l: Log, d: Disk)
    requires Good(log.options.format) && LeftBehind(log, left) && Layout(l) && l.options == log.options
    requires Reuses(l.names, left) && |l.names| == |Packed(l)| && NoneEmpty(Doubled(l.names, Packed(l), left))
    requires forall i :: 0 <= i < |l.names| ==>
               l.names[i] in d && l.names[i] in With(l, left).disk && d[l.names[i]] == With(l, left).disk[l.names[i]]
    ensures ScanFrom(l.options, Some(DoubledManifest(l, left)), l.names, 0, Scan([], 0, 1, false, d)) == None
  {
    var o, m, s := l.options, DoubledManifest(l, left), Packed(l);
    var k := FirstReuse(l.names, left);
    PackedFacts(l);
    PackedNoneEmpty(l);
    WholeBeforeReuse(o, m, l.names, l.disk, s, left, k);
    WholeMoved(o, m, l.names, With(l, left).disk, d, s, k);
    ExpectedAt(s, l.earliest, k, d);
    ReusedFile(log, left, l, k, ScanAt(s, k, d).expected, k + 1 == |l.names|, Some(m.highWatermark));
    ScanOneRefused(o, m, l.names, d, s, k, d[l.names[k]]);
    ScanRefused(o, m, l.names, d, s, l.earliest, k);
  }

  lemma WholeMoved(o: Options, m: Manifest, names: seq<string>, d: Disk, e: Disk, s: seq<Segment>, k: nat)
    requires NoneEmpty(s) && WholeUpTo(o, m, names, d, s, k)
    requires forall i :: 0 <= i < |names| ==> names[i] in d && names[i] in e && e[names[i]] == d[names[i]]
    ensures WholeUpTo(o, m, names, e, s, k)
  {
    forall i | 0 <= i < k
      ensures FileAt(o, m, names, e, s, i, [])
    {
      assert FileAt(o, m, names, d, s, i, []);
    }
  }

  lemma DoubledNames(l: Log, left: Leavings)
    requires |l.names| == |Packed(l)| && NoneEmpty(Doubled(l.names, Packed(l), left))
    requires Stored(l.options, l.names, With(l, left).disk, Doubled(l.names, Packed(l), left))
    ensures SegmentNames(DoubledManifest(l, left).segments) == l.names
  {
    var s := Doubled(l.names, Packed(l), left);
    forall i | 0 <= i < |s|
      ensures SegmentNames(DoubledManifest(l, left).segments)[i] == l.names[i]
    {
      assert SegmentStored(l.options, l.names, With(l, left).disk, s, i);
    }
  }

  lemma ReuseRefused(log: Log, left: Leavings, l: Log, d: Disk)
    requires Good(log.options.format) && LeftBehind(log, left) && Layout(l) && l.options == log.options
    requires Representable(l.options) && l.highWatermark <= UINT64_MAX && l.committed <= UINT64_MAX
    requires FilesFit(l.options.format, With(l, left).disk) && Reuses(l.names, left)
    requires |l.names| == |Packed(l)| && NoneEmpty(Doubled(l.names, Packed(l), left))
    requires d == With(l, left).disk[MANIFEST := l.options.format.encode(DoubledManifest(l, left))]
    ensures Recover(l.options, d) == None
  {
    DoubledListable(log, left, l);
    DoubledInRange(log, left, l);
    DoubledNames(l, left);
    NamesAscend(l);
    SameFiles(l, left, d);
    ReuseScan(log, left, l, d);
    ScanFailsRefused(l.options, d, DoubledManifest(l, left), l.names);
  }

  lemma SameFiles(l: Log, left: Leavings, d: Disk)
    requires Layout(l) && |l.names| == |Packed(l)|
    requires Stored(l.options, l.names, With(l, left).disk, Doubled(l.names, Packed(l), left))
    requires MANIFEST in d && d == With(l, left).disk[MANIFEST := d[MANIFEST]]
    ensures forall i :: 0 <= i < |l.names| ==>
              l.names[i] in d && l.names[i] in With(l, left).disk && d[l.names[i]] == With(l, left).disk[l.names[i]]
  {
    forall i | 0 <= i < |l.names|
      ensures l.names[i] in d && l.names[i] in With(l, left).disk && d[l.names[i]] == With(l, left).disk[l.names[i]]
    {
      OtherFilesApart(l, i);
      assert SegmentStored(l.options, l.names, With(l, left).disk, Doubled(l.names, Packed(l), left), i);
    }
  }

  lemma ScanFailsRefused(o: Options, d: Disk, m: Manifest, names: seq<string>)
    requires MANIFEST in d && o.format.decode(d[MANIFEST]) == Some(m) && SegmentNames(m.segments) == names
    requires Sort(names) == names && ScanFrom(o, Some(m), names, 0, Scan([], 0, 1, false, d)) == None
    ensures Recover(o, d) == None
  {
  }

  // ---------------------------------------------------------------- both cases

  lemma EnteredNames(log: Log, version: nat, batch: seq<ChangeRecord>)
    requires Layout(log) && NextBatch(log, batch) && batch != []
    ensures var l := Enter(log, version, batch);
            Layout(l) && l.names != [] && l.names == AppendFrames(log, batch).names && l.options == log.options
  {
    EnterKeepsLayout(log, version, batch);
    AppendFramesTracks(log, batch);
    PackedFacts(Enter(log, version, batch));
  }

  lemma AppendIsPersist(log: Log, left: Leavings, version: nat, batch: seq<ChangeRecord>)
    requires Layout(log) && LeftBehind(log, left)
    ensures Append(With(log, left), version, batch) == PersistManifest(With(Enter(log, version, batch), left))
  {
    LeftElsewhere(log, left, SNAPSHOT);
    AppendFramesTracks(log, batch);
    EnterAbove(log, FilesOf(log.options.format.framing, left), version, batch);
  }

  /** Files whose names the append does not use change nothing. */
  lemma AppendElsewhere(log: Log, extra: Disk, version: nat, batch: seq<ChangeRecord>)
    requires Inv(log) && NextBatch(log, batch) && batch != [] && OneVersion(batch, version) && version <= UINT64_MAX
    requires MANIFEST !in extra && SNAPSHOT !in extra && Unlisted(AppendFrames(log, batch).names, extra)
    ensures var out := Append(Above(log, extra), version, batch);
            out.ok && Recover(log.options, out.log.disk) == Some(out.log)
  {
    var l, z := Enter(log, version, batch), Append(log, version, batch).log;
    EnteredNames(log, version, batch);
    EnterAbove(log, extra, version, batch);
    PersistOver(l, extra);
    AppendKeepsInv(log, version, batch);
    PersistPlain(l);
    ReopensOver(z, extra);
  }

  lemma AppendUnused(log: Log, left: Leavings, version: nat, batch: seq<ChangeRecord>)
    requires Inv(log) && LeftBehind(log, left) && NextBatch(log, batch) && batch != []
    requires OneVersion(batch, version) && version <= UINT64_MAX && !Reuses(AppendFrames(log, batch).names, left)
    ensures var out := Append(With(log, left), version, batch);
            out.ok && Recover(log.options, out.log.disk) == Some(out.log)
  {
    LeftElsewhere(log, left, MANIFEST);
    LeftElsewhere(log, left, SNAPSHOT);
    AppendElsewhere(log, FilesOf(log.options.format.framing, left), version, batch);
  }

  lemma AppendReused(log: Log, left: Leavings, version: nat, batch: seq<ChangeRecord>)
    requires Inv(log) && LeftBehind(log, left) && NextBatch(log, batch) && batch != []
    requires OneVersion(batch, version) && version <= UINT64_MAX && Reuses(AppendFrames(log, batch).names, left)
    ensures var out := Append(With(log, left), version, batch);
            out.ok && (FilesFit(log.options.format, out.log.disk) ==> Recover(log.options, out.log.disk) == None)
  {
    var l := Enter(log, version, batch);
    EnteredNames(log, version, batch);
    AppendIsPersist(log, left, version, batch);
    PersistWith(log, left, l);
    EnterContents(log, version, batch);
    var d := With(l, left).disk[MANIFEST := l.options.format.encode(DoubledManifest(l, left))];
    if FilesFit(log.options.format, d) {
      FitBelow(l.options.format, With(l, left).disk, d);
      ReuseRefused(log, left, l, d);
    }
  }

  lemma FitBelow(f: Format, d: Disk, e: Disk)
    requires FilesFit(f, e) && !f.isSegment(MANIFEST) && MANIFEST in e && e == d[MANIFEST := e[MANIFEST]]
    ensures FilesFit(f, d)
  {
    forall n | n in d && f.isSegment(n)
      ensures |d[n]| <= UINT64_MAX
    {
      assert e[n] == d[n];
    }
  }

  // ---------------------------------------------------------------- what a crash leaves behind

  /** Records that open a segment are packed by themselves. */
  lemma {:induction false} PackAfterOpening(f: Framing, max: nat, rs: seq<ChangeRecord>, more: seq<ChangeRecord>)
    requires more != [] && Place(f, max, Pack(f, max, rs), more[0]) == Pack(f, max, rs) + [[more[0]]]
    ensures Pack(f, max, rs + more) == Pack(f, max, rs) + Pack(f, max, more)
    decreases |more|
  {
    var most, r := more[..|more| - 1], more[|more| - 1];
    assert more == most + [r] && rs + more == (rs + most) + [r];
    PackLast(f, max, rs + most, r);
    PackLast(f, max, most, r);
    if most == [] {
      assert rs + most == rs;
    } else {
      PackAfterOpening(f, max, rs, most);
      PlaceAfter(f, max, Pack(f, max, rs), Pack(f, max, most), r);
    }
  }

  lemma PlaceAfter(f: Framing, max: nat, s: seq<Segment>, t: seq<Segment>, r: ChangeRecord)
    requires t != []
    ensures Place(f, max, s + t, r) == s + Place(f, max, t, r)
  {
    var k := |t| - 1;
    assert (s + t)[|s + t| - 1] == t[k];
    assert (s + t) + [[r]] == s + (t + [[r]]);
    assert (s + t)[..|s + t| - 1] + [t[k] + [r]] == s + (t[..k] + [t[k] + [r]]);
  }

  lemma PackedAfterOpening(log: Log, crashed: seq<ChangeRecord>)
    requires Layout(log) && NextBatch(log, crashed) && crashed != [] && Opens(log, crashed[0])
    ensures Packed(AppendFrames(log, crashed)) ==
            Packed(log) + Pack(log.options.format.framing, log.options.maxSegmentBytes, crashed)
  {
    AppendFramesTracks(log, crashed);
    RollsAsPacked(log, crashed[0]);
    PackAfterOpening(log.options.format.framing, log.options.maxSegmentBytes, log.records, crashed);
  }

  /** A file that is not in use after the frames is as it was. */
  lemma {:induction false} FramesElsewhere(log: Log, rs: seq<ChangeRecord>, name: string)
    requires Layout(log) && NextBatch(log, rs) && name !in AppendFrames(log, rs).names
    ensures var d := AppendFrames(log, rs).disk;
            (name in d <==> name in log.disk) && (name in d ==> d[name] == log.disk[name])
    ensures name !in log.names
    decreases |rs|
  {
    if rs != [] {
      var most, r := rs[..|rs| - 1], rs[|rs| - 1];
      BatchParts(log, rs, most, r);
      var l := AppendFrames(log, most);
      AppendFramesKeepsLayout(log, most);
      AppendFramesTracks(log, most);
      if Opens(l, r) {
        OpeningBytes(l, r, log.options.format.framing.frame(r));
      } else {
        ExtendingBytes(l, r, log.options.format.framing.frame(r));
      }
      FramesElsewhere(log, most, name);
    }
  }

  /** The new segments, by file name. */
  function Begun(names: seq<string>, s: seq<Segment>, k: nat): Leavings
    requires |names| == |s| && k <= |s|
    decreases |s| - k
  {
    if k == |s| then map[] else Begun(names, s, k + 1)[names[k] := s[k]]
  }

  lemma {:induction false} BegunMeans(names: seq<string>, s: seq<Segment>, k: nat, name: string)
    requires |names| == |s| && k <= |s|
    ensures name in Begun(names, s, k) <==> exists i :: k <= i < |s| && names[i] == name
    ensures name in Begun(names, s, k) ==>
            exists i :: k <= i < |s| && names[i] == name && Begun(names, s, k)[name] == s[i]
    decreases |s| - k
  {
    if k < |s| { BegunMeans(names, s, k + 1, name); }
  }

  /** A new segment is one that a crash can leave behind. */
  lemma BegunSegment(log: Log, crashed: seq<ChangeRecord>, l: Log, i: nat)
    requires Layout(log) && NextBatch(log, crashed) && crashed != [] && Opens(log, crashed[0])
    requires l == AppendFrames(log, crashed) && |log.names| <= i < |l.names| == |Packed(l)|
    ensures LeftFile(log, l.names[i], Packed(l)[i]) && l.names[i] !in log.disk && l.names[i] !in log.names
    ensures l.names[i] in l.disk && l.disk[l.names[i]] == FrameList(l.options.format.framing, Packed(l)[i])
  {
    var f, max, k := log.options.format.framing, log.options.maxSegmentBytes, |log.names|;
    AppendFramesTracks(log, crashed);
    AppendFramesKeepsLayout(log, crashed);
    PackedAfterOpening(log, crashed);
    PackedFacts(l);
    assert SegmentStored(l.options, l.names, l.disk, Packed(l), i);
    PackChained(f, max, crashed, End(log));
    PackFlattens(f, max, crashed);
    ChainedBounds(Pack(f, max, crashed), End(log), i - k);
    assert Packed(l)[i] == Pack(f, max, crashed)[i - k];
    FreshName(log, Packed(l)[i][0].offset);
  }

  /** The first segments are as they were. */
  lemma KeptSegment(log: Log, crashed: seq<ChangeRecord>, l: Log, i: nat)
    requires Layout(log) && NextBatch(log, crashed) && crashed != [] && Opens(log, crashed[0])
    requires l == AppendFrames(log, crashed) && i < |log.names|
    ensures |log.names| < |l.names| == |Packed(l)| && l.names[i] == log.names[i]
    ensures l.names[i] in l.disk && l.names[i] in log.disk && l.disk[l.names[i]] == log.disk[l.names[i]]
  {
    AppendFramesTracks(log, crashed);
    AppendFramesKeepsLayout(log, crashed);
    PackedAfterOpening(log, crashed);
    PackFlattens(log.options.format.framing, log.options.maxSegmentBytes, crashed);
    assert SegmentStored(l.options, l.names, l.disk, Packed(l), i);
    assert SegmentStored(log.options, log.names, log.disk, Packed(log), i);
    assert Packed(l)[i] == Packed(log)[i];
  }

  /** The files that a crashed append began: those that are new. */
  ghost predicate Leaves(log: Log, crashed: seq<ChangeRecord>, left: Leavings) {
    && LeftBehind(log, left)
    && AppendFrames(log, crashed).disk == With(log, left).disk
    && forall n :: n in left <==> n in AppendFrames(log, crashed).names && n !in log.names
  }

  /** What `Leaves` says about one name. */
  predicate LeavesAt(log: Log, l: Log, left: Leavings, name: string) {
    var d := With(log, left).disk;
    && (name in left ==> LeftFile(log, name, left[name]))
    && (name in left <==> name in l.names && name !in log.names)
    && (name in l.disk <==> name in d) && (name in l.disk ==> l.disk[name] == d[name])
  }

  lemma BegunFile(log: Log, crashed: seq<ChangeRecord>, l: Log, left: Leavings, name: string)
    requires Layout(log) && log.names != [] && NextBatch(log, crashed) && crashed != [] && Opens(log, crashed[0])
    requires l == AppendFrames(log, crashed) && |log.names| <= |l.names| == |Packed(l)|
    requires left == Begun(l.names, Packed(l), |log.names|) && name in left
    ensures LeavesAt(log, l, left, name)
  {
    var k, extra := |log.names|, FilesOf(log.options.format.framing, left);
    BegunMeans(l.names, Packed(l), k, name);
    AppendFramesTracks(log, crashed);
    var i :| k <= i < |l.names| && l.names[i] == name && left[name] == Packed(l)[i];
    BegunSegment(log, crashed, l, i);
    assert extra[name] + [] == extra[name];
  }

  lemma KeptFile(log: Log, crashed: seq<ChangeRecord>, l: Log, left: Leavings, name: string)
    requires Layout(log) && log.names != [] && NextBatch(log, crashed) && crashed != [] && Opens(log, crashed[0])
    requires l == AppendFrames(log, crashed) && |log.names| <= |l.names| == |Packed(l)|
    requires left == Begun(l.names, Packed(l), |log.names|) && name !in left
    ensures LeavesAt(log, l, left, name)
  {
    BegunMeans(l.names, Packed(l), |log.names|, name);
    OverElsewhere(FilesOf(log.options.format.framing, left), log.disk, name);
    if name in l.names {
      var i :| 0 <= i < |l.names| && l.names[i] == name;
      KeptSegment(log, crashed, l, i);
    } else {
      FramesElsewhere(log, crashed, name);
    }
  }

  lemma LeavesEverywhere(log: Log, crashed: seq<ChangeRecord>, left: Leavings)
    requires forall name :: LeavesAt(log, AppendFrames(log, crashed), left, name)
    ensures Leaves(log, crashed, left)
  {
    var l, d := AppendFrames(log, crashed), With(log, left).disk;
    forall name: string
      ensures name in l.disk <==> name in d
      ensures name in l.disk ==> l.disk[name] == d[name]
      ensures name in left ==> LeftFile(log, name, left[name])
      ensures name in left <==> name in l.names && name !in log.names
    {
      assert LeavesAt(log, l, left, name);
    }
  }

  lemma CrashLeaves(log: Log, crashed: seq<ChangeRecord>) returns (left: Leavings)
    requires Layout(log) && log.names != [] && NextBatch(log, crashed) && crashed != [] && Opens(log, crashed[0])
    ensures Leaves(log, crashed, left)
  {
    var l := AppendFrames(log, crashed);
    KeptSegment(log, crashed, l, 0);
    left := Begun(l.names, Packed(l), |log.names|);
    forall name
      ensures LeavesAt(log, l, left, name)
    {
      if name in left { BegunFile(log, crashed, l, left, name); } else { KeptFile(log, crashed, l, left, name); }
    }
    LeavesEverywhere(log, crashed, left);
  }

  // ---------------------------------------------------------------- the theorem

  /** Both batches begin a segment of the same name. */
  predicate ShareFile(log: Log, a: seq<ChangeRecord>, b: seq<ChangeRecord>) {
    exists n :: n in AppendFrames(log, a).names && n in AppendFrames(log, b).names && n !in log.names
  }

  /** After an append that crashed once all its frames were in new segments, the log reopens as it was before.  The
      next append succeeds, whatever it holds.  From then on the log opens if and only if the two batches have begun
      no segment at the same offset. */
  lemma AppendAfterCrash(log: Log, crashed: seq<ChangeRecord>, version: nat, batch: seq<ChangeRecord>)
    requires Inv(log) && log.records != [] && NextBatch(log, crashed) && crashed != [] && Opens(log, crashed[0])
    requires NextBatch(log, batch) && batch != [] && OneVersion(batch, version) && version <= UINT64_MAX
    ensures var d := AppendFrames(log, crashed).disk;
            && Recover(log.options, d) == Some(log.(disk := d))
            && var out := Append(log.(disk := d), version, batch);
            && out.ok
            && (FilesFit(log.options.format, out.log.disk) ==>
                  Recover(log.options, out.log.disk) == if ShareFile(log, crashed, batch) then None else Some(out.log))
  {
    PackedFacts(log);
    var left := CrashLeaves(log, crashed);
    LeftReopens(log, left);
    ReusesIsShares(log, crashed, batch, left);
    if ShareFile(log, crashed, batch) {
      AppendReused(log, left, version, batch);
    } else {
      AppendUnused(log, left, version, batch);
    }
  }

  lemma LeftReopens(log: Log, left: Leavings)
    requires Inv(log) && log.names != [] && LeftBehind(log, left)
    ensures Recover(log.options, With(log, left).disk) == Some(With(log, left))
  {
    forall i | 0 <= i < |log.names|
      ensures log.names[i] !in left
    {
      LeftUnlisted(log, left, i);
    }
    LeftElsewhere(log, left, MANIFEST);
    LeftElsewhere(log, left, SNAPSHOT);
    ReopensOver(log, FilesOf(log.options.format.framing, left));
  }

  lemma ReusesIsShares(log: Log, crashed: seq<ChangeRecord>, batch: seq<ChangeRecord>, left: Leavings)
    requires Leaves(log, crashed, left)
    ensures Reuses(AppendFrames(log, batch).names, left) <==> ShareFile(log, crashed, batch)
  {
    var names := AppendFrames(log, batch).names;
    if Reuses(names, left) {
      var i :| 0 <= i < |names| && names[i] in left;
    }
    if ShareFile(log, crashed, batch) {
      var n :| n in AppendFrames(log, crashed).names && n in names && n !in log.names;
      var i :| 0 <= i < |names| && names[i] == n;
      assert names[i] in left;
    }
  }

  // ---------------------------------------------------------------- one segment left behind

  /** A batch that does not open a segment begins none at the end of the log. */
  lemma {:induction false} EndUnused(log: Log, batch: seq<ChangeRecord>)
    requires Layout(log) && NextBatch(log, batch) && batch != [] && !Opens(log, batch[0])
    ensures log.options.format.name(End(log)) !in AppendFrames(log, batch).names
    decreases |batch|
  {
    var most, r := batch[..|batch| - 1], batch[|batch| - 1];
    BatchParts(log, batch, most, r);
    var l, b := AppendFrames(log, most), log.options.format.framing.frame(r);
    AppendFramesKeepsLayout(log, most);
    AppendFramesTracks(log, most);
    if most == [] {
      FreshName(log, End(log));
    } else {
      EndUnused(log, most);
    }
    if Opens(l, r) {
      OpeningBytes(l, r, b);
      NamesDiffer(log.options.format, End(log), r.offset);
    } else {
      ExtendingBytes(l, r, b);
    }
  }

  /** The segment that a batch begins at the end of the log. */
  function FirstBegun(log: Log, batch: seq<ChangeRecord>): Segment
    requires batch != []
  {
    batch[..Reach(log.options.format.framing, log.options.maxSegmentBytes, batch)]
  }

  lemma NamesKept(log: Log, batch: seq<ChangeRecord>, l: Log)
    requires Layout(log) && log.names != [] && NextBatch(log, batch) && batch != [] && Opens(log, batch[0])
    requires l == AppendFrames(log, batch)
    ensures |l.names| > |log.names| && l.names[..|log.names|] == log.names
  {
    KeptSegment(log, batch, l, 0);
    forall i | 0 <= i < |log.names|
      ensures l.names[i] == log.names[i]
    {
      KeptSegment(log, batch, l, i);
    }
  }

  /** One that does begins its first one there. */
  lemma EndUsed(log: Log, batch: seq<ChangeRecord>, l: Log)
    requires Layout(log) && log.names != [] && NextBatch(log, batch) && batch != [] && Opens(log, batch[0])
    requires l == AppendFrames(log, batch)
    ensures |l.names| > |log.names| && l.names[|log.names|] == log.options.format.name(End(log))
    ensures Contents(l.disk, l.names[|log.names|]) == FrameList(log.options.format.framing, FirstBegun(log, batch))
  {
    KeptSegment(log, batch, l, 0);
    BegunSegment(log, batch, l, |log.names|);
    FirstNew(log, batch, l);
    AppendFramesTracks(log, batch);
  }

  lemma FirstNew(log: Log, batch: seq<ChangeRecord>, l: Log)
    requires Layout(log) && NextBatch(log, batch) && batch != [] && Opens(log, batch[0])
             && l == AppendFrames(log, batch)
    requires |log.names| < |Packed(l)|
    ensures Packed(l)[|log.names|] == FirstBegun(log, batch) && batch[0].offset == End(log)
  {
    PackedAfterOpening(log, batch);
    FirstPacked(log, batch);
  }

  lemma FirstPacked(log: Log, batch: seq<ChangeRecord>)
    requires batch != []
    ensures var s := Pack(log.options.format.framing, log.options.maxSegmentBytes, batch);
            s != [] && s[0] == FirstBegun(log, batch) && s[0] != [] && s[0][0] == batch[0]
  {
  }

  lemma OnlyNew(a: seq<string>, names: seq<string>, name: string)
    requires |a| == |names| + 1 && a[..|names|] == names && a[|names|] == name
    ensures forall n :: n in a && n !in names ==> n == name
  {
    assert a == names + [name];
  }

  lemma ShareAtEnd(log: Log, crashed: seq<ChangeRecord>, batch: seq<ChangeRecord>)
    requires Layout(log) && log.names != [] && NextBatch(log, crashed) && crashed != [] && Opens(log, crashed[0])
    requires NextBatch(log, batch) && batch != [] && Opens(log, batch[0])
    ensures ShareFile(log, crashed, batch)
  {
    var a, b := AppendFrames(log, crashed), AppendFrames(log, batch);
    EndUsed(log, crashed, a);
    EndUsed(log, batch, b);
    FreshName(log, End(log));
    assert a.names[|log.names|] in a.names && b.names[|log.names|] in b.names;
  }

  lemma ShareNothing(log: Log, crashed: seq<ChangeRecord>, batch: seq<ChangeRecord>)
    requires Layout(log) && log.names != [] && NextBatch(log, crashed) && crashed != [] && Opens(log, crashed[0])
    requires |AppendFrames(log, crashed).names| == |log.names| + 1
    requires NextBatch(log, batch) && batch != [] && !Opens(log, batch[0])
    ensures !ShareFile(log, crashed, batch)
  {
    var a := AppendFrames(log, crashed);
    EndUsed(log, crashed, a);
    NamesKept(log, crashed, a);
    OnlyNew(a.names, log.names, log.options.format.name(End(log)));
    EndUnused(log, batch);
  }

  /** In particular, when the crash left one segment behind: the log opens after the next append if and only if that
      append did not begin a segment with its first record. */
  lemma AppendAfterLeftover(log: Log, crashed: seq<ChangeRecord>, version: nat, batch: seq<ChangeRecord>)
    requires Inv(log) && log.records != [] && NextBatch(log, crashed) && crashed != [] && Opens(log, crashed[0])
    requires |AppendFrames(log, crashed).names| == |log.names| + 1
    requires NextBatch(log, batch) && batch != [] && OneVersion(batch, version) && version <= UINT64_MAX
    ensures var d := AppendFrames(log, crashed).disk;
            && Recover(log.options, d) == Some(log.(disk := d))
            && var out := Append(log.(disk := d), version, batch);
            && out.ok
            && (FilesFit(log.options.format, out.log.disk) ==>
                  Recover(log.options, out.log.disk) == if Opens(log, batch[0]) then None else Some(out.log))
  {
    PackedFacts(log);
    AppendAfterCrash(log, crashed, version, batch);
    if Opens(log, batch[0]) { ShareAtEnd(log, crashed, batch); } else { ShareNothing(log, crashed, batch); }
  }
}
