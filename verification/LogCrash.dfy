/** Crashes: what reopening makes of a directory that an append left behind half done. */
module LogCrash {
  import opened Bytes
  import opened ChangeRecords
  import opened Framings
  import opened LogFormats
  import opened Manifests
  import opened Segments
  import opened LogSpec
  import opened LogInvariant
  import opened LogRecovery
  import opened Wrappers

  // ---------------------------------------------------------------- where the frames of a batch go

  /** The listed files are as `log` left them, but for `frames` at the end of the last one. */
  predicate Grown(log: Log, d: Disk, frames: Bytes)
    requires log.names != []
  {
    var last := log.names[|log.names| - 1];
    && (forall i :: 0 <= i < |log.names| - 1 ==>
          log.names[i] in d && log.names[i] in log.disk && d[log.names[i]] == log.disk[log.names[i]])
    && last in d && last in log.disk && d[last] == log.disk[last] + frames
  }

  /** The active file is still the last one of `log`, or one that `log` does not know. */
  ghost predicate SameFile(log: Log, l: Log) { l.activeFirst == log.activeFirst && l.options == log.options }

  ghost predicate NewFile(log: Log, l: Log) { End(log) <= l.activeFirst <= UINT64_MAX && l.options == log.options }

  /** All that matters here about names: the last one is the active file's, and free ones are not in use. */
  ghost predicate Apart(log: Log) {
    var f, k := log.options.format, |log.names| - 1;
    && log.names != [] && log.names[k] == f.name(log.activeFirst) && log.activeFirst < End(log)
    && (forall i :: 0 <= i < k ==> log.names[i] != log.names[k])
    && (forall n: nat :: End(log) <= n <= UINT64_MAX ==> f.name(n) !in log.names)
  }

  lemma LayoutApart(log: Log)
    requires Layout(log) && log.names != []
    ensures Apart(log)
  {
    var k := |log.names| - 1;
    var n := NameAt(log, k);
    forall i | 0 <= i < k
      ensures log.names[i] != log.names[k]
    {
      NamesDistinct(log, i, k);
    }
    forall n: nat | End(log) <= n <= UINT64_MAX
      ensures log.options.format.name(n) !in log.names
    {
      FreshName(log, n);
    }
  }

  /** Bytes that go to a new file leave the listed ones alone. */
  lemma GrowElsewhere(log: Log, d: Disk, frames: Bytes, n: nat, b: Bytes)
    requires Apart(log) && Grown(log, d, frames) && End(log) <= n <= UINT64_MAX
    ensures Grown(log, d[log.options.format.name(n) := b], frames)
  {
  }

  /** Bytes at the end of the last listed file. */
  lemma GrowHere(log: Log, d: Disk, frames: Bytes, part: Bytes)
    requires Apart(log) && Grown(log, d, frames)
    ensures var name := log.options.format.name(log.activeFirst);
            name in d && Grown(log, d[name := d[name] + part], frames + part)
  {
    var last := log.names[|log.names| - 1];
    assert d[last] + part == log.disk[last] + (frames + part);
  }

  /** One step of a batch. */
  lemma GrowStep(log: Log, l: Log, frames: Bytes, r: ChangeRecord, part: Bytes)
    requires Apart(log) && Grown(log, l.disk, frames)
    requires SameFile(log, l) || NewFile(log, l)
    requires End(log) <= r.offset <= UINT64_MAX
    ensures var a := AppendBytes(l, r, part);
            var rolls := Rolls(l, l.options.format.framing.frame(r));
            if SameFile(log, l) && !rolls then Grown(log, a.disk, frames + part) && SameFile(log, a)
            else Grown(log, a.disk, frames) && NewFile(log, a)
  {
    var rolls := Rolls(l, l.options.format.framing.frame(r));
    if SameFile(log, l) && !rolls {
      GrowHere(log, l.disk, frames, part);
    } else {
      var first := if rolls then r.offset else l.activeFirst;
      GrowElsewhere(log, l.disk, frames, first, Contents(l.disk, log.options.format.name(first)) + part);
    }
  }

  lemma GrownBySelf(log: Log)
    requires Layout(log) && log.names != []
    ensures Grown(log, log.disk, [])
  {
    forall i | 0 <= i < |log.names|
      ensures log.names[i] in log.disk
    {
      assert SegmentStored(log.options, log.names, log.disk, Packed(log), i);
    }
    assert log.disk[log.names[|log.names| - 1]] + [] == log.disk[log.names[|log.names| - 1]];
  }

  /** The first k frames of the batch extend the last listed file, the others are in new files. */
  ghost predicate Placed(log: Log, l: Log, batch: seq<ChangeRecord>, k: nat)
    requires log.names != []
  {
    && k <= |batch| && Grown(log, l.disk, FrameList(log.options.format.framing, batch[..k]))
    && ((k == |batch| && SameFile(log, l)) || NewFile(log, l))
  }

  function PlacedAfter(l: Log, batch: seq<ChangeRecord>, k: nat, r: ChangeRecord, same: bool): nat {
    if same && !Rolls(l, l.options.format.framing.frame(r)) then |batch| + 1 else k
  }

  lemma PlacedStep(log: Log, l: Log, batch: seq<ChangeRecord>, k: nat, r: ChangeRecord)
    requires Apart(log) && Placed(log, l, batch, k) && End(log) <= r.offset <= UINT64_MAX
    ensures Placed(log, AppendFrame(l, r), batch + [r], PlacedAfter(l, batch, k, r, SameFile(log, l)))
  {
    var f := log.options.format.framing;
    GrowStep(log, l, FrameList(f, batch[..k]), r, f.frame(r));
    assert (batch + [r])[..k] == batch[..k];
    if SameFile(log, l) && !Rolls(l, f.frame(r)) {
      assert batch[..k] == batch && (batch + [r])[..k + 1] == batch + [r];
      FrameListConcat(f, batch, [r]);
      FrameListOne(f, r);
    }
  }

  /** How many frames of the batch extend the last listed file. */
  ghost function Placing(log: Log, batch: seq<ChangeRecord>): nat
    decreases |batch|
  {
    if batch == [] then 0
    else
      var most, r := batch[..|batch| - 1], batch[|batch| - 1];
      var l := AppendFrames(log, most);
      PlacedAfter(l, most, Placing(log, most), r, SameFile(log, l))
  }

  lemma GrowthNone(log: Log)
    requires Apart(log) && Grown(log, log.disk, [])
    ensures Placed(log, AppendFrames(log, []), [], Placing(log, []))
  {
  }

  lemma {:induction false} Growth(log: Log, batch: seq<ChangeRecord>)
    requires Apart(log) && Grown(log, log.disk, []) && NextBatch(log, batch)
    ensures Placed(log, AppendFrames(log, batch), batch, Placing(log, batch))
    decreases |batch|
  {
    if batch == [] {
      GrowthNone(log);
    } else {
      var most, r := batch[..|batch| - 1], batch[|batch| - 1];
      BatchParts(log, batch, most, r);
      Growth(log, most);
      GrowthMore(log, batch, most, r);
    }
  }

  lemma BatchParts(log: Log, batch: seq<ChangeRecord>, most: seq<ChangeRecord>, r: ChangeRecord)
    requires NextBatch(log, batch) && batch != [] && most == batch[..|batch| - 1] && r == batch[|batch| - 1]
    ensures batch == most + [r] && NextBatch(log, most) && End(log) <= r.offset <= UINT64_MAX
  {
  }

  lemma GrowthMore(log: Log, batch: seq<ChangeRecord>, most: seq<ChangeRecord>, r: ChangeRecord)
    requires Apart(log) && batch == most + [r] && End(log) <= r.offset <= UINT64_MAX
    requires Placed(log, AppendFrames(log, most), most, Placing(log, most))
    ensures Placed(log, AppendFrames(log, batch), batch, Placing(log, batch))
  {
    var l, k := AppendFrames(log, most), Placing(log, most);
    PlacedStep(log, l, most, k, r);
    assert batch[..|batch| - 1] == most;
    assert AppendFrames(log, batch) == AppendFrame(l, r);
    assert Placing(log, batch) == PlacedAfter(l, most, k, r, SameFile(log, l));
  }

  lemma {:induction false} GrowthStarts(log: Log, batch: seq<ChangeRecord>)
    requires Apart(log) && Grown(log, log.disk, []) && NextBatch(log, batch) && batch != []
    ensures Placing(log, batch) == 0 <==> Rolls(log, log.options.format.framing.frame(batch[0]))
    decreases |batch|
  {
    var most := batch[..|batch| - 1];
    if most == [] {
      assert AppendFrames(log, most) == log;
    } else {
      GrowthStarts(log, most);
      Growth(log, most);
      }
  }

  lemma OpensIsRolls(log: Log, r: ChangeRecord)
    requires Layout(log) && log.names != []
    ensures Opens(log, r) <==> Rolls(log, log.options.format.framing.frame(r))
  {
    PackedFacts(log);
  }

  lemma OwnedConcat(o: Options, a: seq<ChangeRecord>, b: seq<ChangeRecord>)
    requires Owned(o, a) && Owned(o, b)
    ensures Owned(o, a + b)
  {
  }

  // ---------------------------------------------------------------- the crash

  /** The directory when the process stops while the bytes of batch[j] are being written. */
  function CrashDisk(log: Log, batch: seq<ChangeRecord>, j: nat, part: Bytes): Disk
    requires j < |batch|
  {
    AppendBytes(AppendFrames(log, batch[..j]), batch[j], part).disk
  }

  /** Exactly when the whole frames that were written reached no listed file. */
  predicate Harmless(log: Log, batch: seq<ChangeRecord>, j: nat)
    requires j < |batch|
  {
    j == 0 || Opens(log, batch[0])
  }

  function TailHere(l: Log, r: ChangeRecord, part: Bytes, same: bool): Bytes {
    if same && !Rolls(l, l.options.format.framing.frame(r)) then part else []
  }

  /** The bytes of the frame that was being written which are in the last listed file. */
  ghost function CrashTail(log: Log, batch: seq<ChangeRecord>, j: nat, part: Bytes): Bytes
    requires j < |batch|
  {
    var l := AppendFrames(log, batch[..j]);
    TailHere(l, batch[j], part, SameFile(log, l))
  }

  lemma CrashStep(log: Log, l: Log, frames: Bytes, r: ChangeRecord, part: Bytes)
    requires Apart(log) && Grown(log, l.disk, frames) && (SameFile(log, l) || NewFile(log, l))
    requires End(log) <= r.offset <= UINT64_MAX
    ensures Grown(log, AppendBytes(l, r, part).disk, frames + TailHere(l, r, part, SameFile(log, l)))
  {
    GrowStep(log, l, frames, r, part);
    assert frames + [] == frames;
  }

  lemma BatchPrefix(log: Log, batch: seq<ChangeRecord>, j: nat)
    requires NextBatch(log, batch) && j < |batch|
    ensures NextBatch(log, batch[..j]) && End(log) <= batch[j].offset <= UINT64_MAX
  {
  }

  lemma CrashGrowth(log: Log, batch: seq<ChangeRecord>, j: nat, part: Bytes)
    requires Apart(log) && Grown(log, log.disk, []) && NextBatch(log, batch) && j < |batch|
    ensures var k := Placing(log, batch[..j]);
            && k <= j
            && Grown(log, CrashDisk(log, batch, j, part),
                     FrameList(log.options.format.framing, batch[..k]) + CrashTail(log, batch, j, part))
  {
    var l, k := AppendFrames(log, batch[..j]), Placing(log, batch[..j]);
    BatchPrefix(log, batch, j);
    Growth(log, batch[..j]);
    assert batch[..j][..k] == batch[..k];
    CrashStep(log, l, FrameList(log.options.format.framing, batch[..k]), batch[j], part);
  }

  lemma HarmlessGrowth(log: Log, batch: seq<ChangeRecord>, j: nat)
    requires Layout(log) && log.names != [] && NextBatch(log, batch) && j < |batch|
    ensures Placing(log, batch[..j]) == 0 <==> Harmless(log, batch, j)
  {
    OpensIsRolls(log, batch[0]);
    LayoutApart(log);
    GrownBySelf(log);
    if j > 0 { GrowthStarts(log, batch[..j]); }
  }

  /** Frames never touch the manifest or the snapshot. */
  lemma AppendBytesOthers(log: Log, r: ChangeRecord, part: Bytes, name: string)
    requires Layout(log) && Next(log, r) && !log.options.format.isSegment(name)
    ensures var d := AppendBytes(log, r, part).disk;
            (name in d <==> name in log.disk) && (name in d ==> d[name] == log.disk[name])
  {
    if Opens(log, r) {
      OpeningBytes(log, r, part);
    } else {
      ExtendingBytes(log, r, part);
      var n := NameAt(log, |log.names| - 1);
    }
  }

  lemma {:induction false} AppendFramesOthers(log: Log, batch: seq<ChangeRecord>, name: string)
    requires Layout(log) && NextBatch(log, batch) && !log.options.format.isSegment(name)
    ensures var d := AppendFrames(log, batch).disk;
            (name in d <==> name in log.disk) && (name in d ==> d[name] == log.disk[name])
    decreases |batch|
  {
    if batch != [] {
      var most, r := batch[..|batch| - 1], batch[|batch| - 1];
      AppendFramesOthers(log, most, name);
      AppendFramesKeepsLayout(log, most);
      AppendFramesTracks(log, most);
      AppendBytesOthers(AppendFrames(log, most), r, log.options.format.framing.frame(r), name);
    }
  }

  lemma CrashOthers(log: Log, batch: seq<ChangeRecord>, j: nat, part: Bytes, name: string)
    requires Layout(log) && NextBatch(log, batch) && j < |batch| && !log.options.format.isSegment(name)
    ensures var d := CrashDisk(log, batch, j, part);
            (name in d <==> name in log.disk) && (name in d ==> d[name] == log.disk[name])
  {
    AppendFramesOthers(log, batch[..j], name);
    AppendFramesKeepsLayout(log, batch[..j]);
    AppendFramesTracks(log, batch[..j]);
    AppendBytesOthers(AppendFrames(log, batch[..j]), batch[j], part, name);
  }

  lemma GrownReadable(log: Log, d: Disk, tail: Bytes, segments: seq<Segment>)
    requires log.names != [] && Grown(log, d, tail) && TornTail(log.options.format.framing, tail)
    requires Stored(log.options, log.names, log.disk, segments)
    ensures Readable(log.options, log.names, d, segments, tail)
  {
    forall i | 0 <= i < |log.names|
      ensures FileReadable(log.options, log.names, d, segments, tail, i)
    {
      assert SegmentStored(log.options, log.names, log.disk, segments, i);
      assert log.disk[log.names[i]] + [] == log.disk[log.names[i]];
    }
  }

  lemma GrownSurvives(log: Log, d: Disk, tail: Bytes)
    requires Inv(log) && log.names != [] && Grown(log, d, tail) && TornTail(log.options.format.framing, tail)
    requires MANIFEST in d && d[MANIFEST] == log.disk[MANIFEST]
    ensures Survives(log, d, tail)
  {
    PackedFacts(log);
    GrownReadable(log, d, tail, Packed(log));
  }

  lemma PartIsTorn(o: Options, r: ChangeRecord, n: nat)
    requires Sound(o.format.framing) && Ours(o, r) && n < |o.format.framing.frame(r)|
    ensures TornTail(o.format.framing, o.format.framing.frame(r)[..n])
  {
  }

  lemma SameHistory(log: Log, d: Disk)
    requires SNAPSHOT in d <==> SNAPSHOT in log.disk
    requires SNAPSHOT in d ==> d[SNAPSHOT] == log.disk[SNAPSHOT]
    ensures ReadHistory(log.options, d, log.records) == ReadHistory(log.options, log.disk, log.records)
  {
  }

  /** The directory after the crash still holds what the manifest lists. */
  lemma CrashSurvives(log: Log, batch: seq<ChangeRecord>, j: nat, n: nat)
    requires Inv(log) && log.names != [] && NextBatch(log, batch) && j < |batch|
    requires n < |log.options.format.framing.frame(batch[j])| && Harmless(log, batch, j)
    ensures var part := log.options.format.framing.frame(batch[j])[..n];
            Survives(log, CrashDisk(log, batch, j, part), CrashTail(log, batch, j, part))
  {
    var part := log.options.format.framing.frame(batch[j])[..n];
    var d, tail := CrashDisk(log, batch, j, part), CrashTail(log, batch, j, part);
    LayoutApart(log);
    GrownBySelf(log);
    CrashGrowth(log, batch, j, part);
    HarmlessGrowth(log, batch, j);
    assert batch[..0] == [] && [] + tail == tail;
    PartIsTorn(log.options, batch[j], n);
    CrashOthers(log, batch, j, part, MANIFEST);
    GrownSurvives(log, d, tail);
  }

  /** If no whole frame reached a listed file, reopening gives back the log as it was before the append. */
  lemma CrashUndone(log: Log, batch: seq<ChangeRecord>, j: nat, n: nat)
    requires Inv(log) && log.names != [] && NextBatch(log, batch) && j < |batch|
    requires n < |log.options.format.framing.frame(batch[j])| && Harmless(log, batch, j)
    ensures var part := log.options.format.framing.frame(batch[j])[..n];
            var d := CrashDisk(log, batch, j, part);
            Recover(log.options, d) == Some(Moved(log, d, CrashTail(log, batch, j, part), log.history))
  {
    var part := log.options.format.framing.frame(batch[j])[..n];
    var d, tail := CrashDisk(log, batch, j, part), CrashTail(log, batch, j, part);
    CrashSurvives(log, batch, j, n);
    CrashOthers(log, batch, j, part, SNAPSHOT);
    SameHistory(log, d);
    HistoryReads(log);
    RecoverSurvivors(log, d, tail);
  }

  // ---------------------------------------------------------------- when recovery refuses

  lemma {:induction false} ChainedExtend(segments: seq<Segment>, first: nat, more: seq<ChangeRecord>)
    requires Chained(segments, first) && segments != [] && Contiguous(more, first + |Flatten(segments)|)
    ensures var k := |segments| - 1; Chained(segments[..k] + [segments[k] + more], first)
  {
    var k := |segments| - 1;
    if k == 0 {
      ChainedExtendOne(segments, first, more);
    } else {
      assert (segments[..k] + [segments[k] + more])[1..] == segments[1..][..k - 1] + [segments[1..][k - 1] + more];
      ChainedExtend(segments[1..], first + |segments[0]|, more);
    }
  }

  lemma ChainedExtendOne(segments: seq<Segment>, first: nat, more: seq<ChangeRecord>)
    requires Chained(segments, first) && |segments| == 1 && Contiguous(more, first + |Flatten(segments)|)
    ensures Chained(segments[..0] + [segments[0] + more], first)
  {
    var s, t := segments[0], [segments[0] + more];
    assert segments[..0] + t == t && t[1..] == [] && segments[1..] == [];
    assert Flatten(segments) == s + Flatten([]) == s;
    ContiguousConcat(s, more, first);
  }

  lemma ContiguousConcat(s: seq<ChangeRecord>, t: seq<ChangeRecord>, first: nat)
    requires Contiguous(s, first) && Contiguous(t, first + |s|)
    ensures Contiguous(s + t, first)
  {
  }

  function Extended(segments: seq<Segment>, more: seq<ChangeRecord>): seq<Segment>
    requires segments != []
  {
    segments[..|segments| - 1] + [segments[|segments| - 1] + more]
  }

  lemma ExtendedOwned(o: Options, segments: seq<Segment>, more: seq<ChangeRecord>)
    requires segments != [] && SegmentsOwned(o, segments) && Owned(o, more)
    ensures SegmentsOwned(o, Extended(segments, more))
  {
    var t, k := Extended(segments, more), |segments| - 1;
    forall i | 0 <= i < |t|
      ensures Owned(o, t[i])
    {
      if i < k { assert t[i] == segments[i]; } else { assert t[i] == segments[k] + more; }
    }
  }

  lemma GrownExtended(log: Log, d: Disk, more: seq<ChangeRecord>, tail: Bytes, segments: seq<Segment>)
    requires log.names != [] && TornTail(log.options.format.framing, tail)
    requires Grown(log, d, FrameList(log.options.format.framing, more) + tail)
    requires Stored(log.options, log.names, log.disk, segments)
    ensures Readable(log.options, log.names, d, Extended(segments, more), tail)
  {
    var f, t, k := log.options.format.framing, Extended(segments, more), |segments| - 1;
    FrameListConcat(f, segments[k], more);
    forall i | 0 <= i < |log.names|
      ensures FileReadable(log.options, log.names, d, t, tail, i)
    {
      assert SegmentStored(log.options, log.names, log.disk, segments, i);
      if i < k {
        assert log.disk[log.names[i]] + [] == log.disk[log.names[i]];
      } else {
        assert FrameList(f, segments[k]) + (FrameList(f, more) + tail) == FrameList(f, segments[k]) + FrameList(f, more)
            + tail;
      }
    }
  }

  /** The scan refuses a last segment that does not end where the manifest says. */
  lemma ScanLastRefused(o: Options, m: Manifest, names: seq<string>, d: Disk, segments: seq<Segment>, first: nat,
                        tail: Bytes)
    requires Sound(o.format.framing) && Proper(o, segments, first) && segments != []
    requires WholeUpTo(o, m, names, d, segments, |segments| - 1) && TornTail(o.format.framing, tail)
    requires var k := |segments| - 1;
             && names[k] in d && d[names[k]] == FrameList(o.format.framing, segments[k]) + tail
             && m.segments[k].last != LastOffset(segments[k]) && m.highWatermark != LastOffset(segments[k]) + 1
    ensures ScanFrom(o, Some(m), names, 0, ScanAt(segments, 0, d)) == None
  {
    var k := |segments| - 1;
    var s, at := segments[k], ScanAt(segments, k, d);
    ChainedBounds(segments, first, k);
    ExpectedAt(segments, first, k, d);
    ScanFileFrames(o, s, s[0].offset, tail, at.expected, true, Some(m.highWatermark));
    ScanRefused(o, m, names, d, segments, first, k);
  }

  lemma {:induction false} LastOfChained(segments: seq<Segment>, first: nat)
    requires Chained(segments, first) && segments != []
    ensures LastOffset(segments[|segments| - 1]) + 1 == first + |Flatten(segments)|
  {
    if |segments| > 1 {
      LastOfChained(segments[1..], first + |segments[0]|);
    } else {
      assert segments[1..] == [] && Flatten(segments) == segments[0] + [];
    }
  }

  lemma ExtendedProper(o: Options, s: seq<Segment>, first: nat, more: seq<ChangeRecord>)
    requires Proper(o, s, first) && s != [] && Contiguous(more, first + |Flatten(s)|) && Owned(o, more)
    ensures Proper(o, Extended(s, more), first)
  {
    ChainedExtend(s, first, more);
    ExtendedOwned(o, s, more);
  }

  /** More whole frames than the manifest promises are refused. */
  lemma ExtendedRefused(o: Options, m: Manifest, names: seq<string>, d: Disk, s: seq<Segment>, first: nat,
                        more: seq<ChangeRecord>,
                        tail: Bytes)
    requires Sound(o.format.framing) && Proper(o, s, first) && s != []
    requires m.segments == Infos(o, s) && m.highWatermark == LastOffset(s[|s| - 1])
    requires more != [] && Contiguous(more, first + |Flatten(s)|) && Owned(o, more)
    requires Readable(o, names, d, Extended(s, more), tail)
    ensures ScanFrom(o, Some(m), names, 0, Scan([], 0, 1, false, d)) == None
  {
    var t, k := Extended(s, more), |s| - 1;
    ExtendedProper(o, s, first, more);
    LastOfChained(s, first);
    forall i | 0 <= i < k
      ensures FileAt(o, m, names, d, t, i, [])
    {
      assert FileReadable(o, names, d, t, tail, i);
    }
    assert FileReadable(o, names, d, t, tail, k);
    assert LastOffset(t[k]) == more[|more| - 1].offset;
    ScanLastRefused(o, m, names, d, t, first, tail);
  }

  /** What follows the listed records. */
  predicate Follows(log: Log, more: seq<ChangeRecord>) {
    more != [] && Contiguous(more, End(log)) && Owned(log.options, more)
  }

  lemma FollowsPrefix(log: Log, batch: seq<ChangeRecord>, k: nat)
    requires NextBatch(log, batch) && 0 < k <= |batch|
    ensures Follows(log, batch[..k])
  {
  }

  lemma GrownScanRefused(log: Log, d: Disk, more: seq<ChangeRecord>, tail: Bytes)
    requires Inv(log) && log.names != [] && NoneEmpty(Packed(log)) && Follows(log, more)
    requires TornTail(log.options.format.framing, tail)
    requires Grown(log, d, FrameList(log.options.format.framing, more) + tail)
    ensures var m := ManifestOf(log, Infos(log.options, Packed(log)));
            ScanFrom(log.options, Some(m), log.names, 0, Scan([], 0, 1, false, d)) == None
  {
    var o, s := log.options, Packed(log);
    PackedFacts(log);
    LastOfChained(s, log.earliest);
    GrownExtended(log, d, more, tail, s);
    ExtendedRefused(o, ManifestOf(log, Infos(o, s)), log.names, d, s, log.earliest, more, tail);
  }

  lemma GrownRefused(log: Log, d: Disk, more: seq<ChangeRecord>, tail: Bytes)
    requires Inv(log) && log.names != [] && Follows(log, more) && TornTail(log.options.format.framing, tail)
    requires Grown(log, d, FrameList(log.options.format.framing, more) + tail)
    requires MANIFEST in d && d[MANIFEST] == log.disk[MANIFEST]
    ensures Recover(log.options, d) == None
  {
    PackedNoneEmpty(log);
    GrownScanRefused(log, d, more, tail);
    ManifestReads(log);
    NamesOfInfos(log);
    NamesAscend(log);
  }

  lemma CrashRefused(log: Log, batch: seq<ChangeRecord>, j: nat, n: nat)
    requires Inv(log) && log.names != [] && NextBatch(log, batch) && j < |batch|
    requires n < |log.options.format.framing.frame(batch[j])| && !Harmless(log, batch, j)
    ensures Recover(log.options, CrashDisk(log, batch, j, log.options.format.framing.frame(batch[j])[..n])) == None
  {
    var part := log.options.format.framing.frame(batch[j])[..n];
    var d, tail := CrashDisk(log, batch, j, part), CrashTail(log, batch, j, part);
    LayoutApart(log);
    GrownBySelf(log);
    CrashGrowth(log, batch, j, part);
    HarmlessGrowth(log, batch, j);
    PartIsTorn(log.options, batch[j], n);
    CrashOthers(log, batch, j, part, MANIFEST);
    FollowsPrefix(log, batch, Placing(log, batch[..j]));
    GrownRefused(log, d, batch[..Placing(log, batch[..j])], tail);
  }

  lemma CrashTailWhere(log: Log, batch: seq<ChangeRecord>, j: nat, part: Bytes)
    requires Layout(log) && log.names != [] && NextBatch(log, batch) && j < |batch| && Harmless(log, batch, j)
    ensures CrashTail(log, batch, j, part) == if Opens(log, batch[0]) then [] else part
  {
    OpensIsRolls(log, batch[0]);
    if j == 0 {
      assert batch[..j] == [];
    } else {
      LayoutApart(log);
      GrownBySelf(log);
      Growth(log, batch[..j]);
      GrowthStarts(log, batch[..j]);
    }
  }

  lemma AppendedThenCut(d: Disk, name: string, part: Bytes)
    requires name in d
    ensures d[name := d[name] + part][name := d[name]] == d
    ensures part == [] ==> d[name := d[name] + part] == d
  {
    if part == [] { assert d[name] + part == d[name]; }
  }

  /** A torn first frame in the active segment leaves nothing behind. */
  lemma TornFrameHealed(log: Log, batch: seq<ChangeRecord>, part: Bytes)
    requires Layout(log) && log.names != [] && NextBatch(log, batch) && batch != [] && !Opens(log, batch[0])
    ensures Healed(log.options, log.names, CrashDisk(log, batch, 0, part), Packed(log), part) == log.disk
  {
    var k := |log.names| - 1;
    assert batch[..0] == [];
    ExtendingBytes(log, batch[0], part);
    assert SegmentStored(log.options, log.names, log.disk, Packed(log), k);
    AppendedThenCut(log.disk, log.names[k], part);
  }

  /** A process that stops inside an append, in the middle of any frame at any byte, leaves a directory that reopens
      if and only if no whole new frame is in a file the manifest lists; it then reopens as the log before the
      append, and if nothing but the active segment was touched even the files are as before. */
  lemma CrashDuringAppend(log: Log, batch: seq<ChangeRecord>, j: nat, n: nat)
    requires Inv(log) && log.records != [] && NextBatch(log, batch) && j < |batch|
    requires n < |log.options.format.framing.frame(batch[j])|
    ensures var d := CrashDisk(log, batch, j, log.options.format.framing.frame(batch[j])[..n]);
            Recover(log.options, d) ==
            if j == 0 && !Opens(log, batch[0]) then Some(log)
            else if Opens(log, batch[0]) then Some(log.(disk := d))
            else None
  {
    PackedFacts(log);
    if Harmless(log, batch, j) {
      var part := log.options.format.framing.frame(batch[j])[..n];
      CrashUndone(log, batch, j, n);
      CrashTailWhere(log, batch, j, part);
      if !Opens(log, batch[0]) { TornFrameHealed(log, batch, part); }
    } else {
      CrashRefused(log, batch, j, n);
    }
  }
}
