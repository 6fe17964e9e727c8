/** Maintenance (src/cdc/change_log_maintenance.cc): what a pass keeps, and a compaction that retains no record. */
module LogMaintenance {
  import opened ChangeRecords
  import opened Framings
  import opened LogFormats
  import opened Manifests
  import opened Segments
  import opened LogSpec
  import opened LogInvariant
  import opened LogListing
  import opened LogRecovery
  import opened LogCompaction
  import opened Wrappers

  // ---------------------------------------------------------------- compacting everything away

  /** The log that is left when no record is retained. */
  function Emptied(log: Log): Log {
    log.(records := [], earliest := log.highWatermark + 1)
  }

  lemma CompactEmpties(log: Log, from: nat)
    requires Contiguous(log.records, log.earliest) && from >= End(log) && log.records != []
    ensures Compact(log, from) == Rewrite(Emptied(log))
  {
    RetainedIsRest(log.records, log.earliest, from);
  }

  lemma EmptiedPersists(log: Log)
    requires Inv(log) && Tidy(log) && log.records != [] && NoneEmpty(Packed(log))
    ensures var e := Emptied(log).(names := []);
            PersistManifest(e) ==
            Outcome(e.(disk := e.disk[MANIFEST := e.options.format.encode(ManifestOf(e,
                Infos(log.options, Packed(log))))]), true)
  {
    FilesAreNames(log);
    NamesAscend(log);
    ListingOf(SegmentFiles(log.options.format, log.disk), log.names);
    PackedFacts(log);
    PackedNoneEmpty(log);
    RangesOfStored(log.options, log.disk, log.names, Packed(log));
  }

  /** The directory after compacting everything away: the manifest lists segments that are gone. */
  function BrokenDisk(log: Log): Disk
    requires NoneEmpty(Packed(log))
  {
    var m := ManifestOf(Emptied(log), Infos(log.options, Packed(log)));
    log.disk[MANIFEST := log.options.format.encode(m)] - SegmentFiles(log.options.format, log.disk)
  }

  lemma RewriteOfEmptied(log: Log)
    requires Inv(log) && Tidy(log) && log.records != [] && NoneEmpty(Packed(log))
    ensures var out := Rewrite(Emptied(log)); out.ok && out.log.disk == BrokenDisk(log) && out.log.records == []
  {
    var e := Emptied(log).(names := []);
    EmptiedPersists(log);
    assert RewriteAll(log.options, []) == Rewriting([], [], 0);
    assert Emptied(log).(names := [], disk := Rename(log.disk, Rewriting([], [], 0), 0)) == e;
    assert SegmentFiles(log.options.format, log.disk) - (set x | x in []) == SegmentFiles(log.options.format, log.disk);
  }

  lemma BrokenManifest(log: Log)
    requires Inv(log) && NoneEmpty(Packed(log))
    ensures MANIFEST in BrokenDisk(log)
    ensures var m := ManifestOf(Emptied(log), Infos(log.options, Packed(log)));
            log.options.format.decode(BrokenDisk(log)[MANIFEST]) == Some(m)
  {
    var m := ManifestOf(Emptied(log), Infos(log.options, Packed(log)));
    forall i | 0 <= i < |m.segments|
      ensures SegmentInRange(m.segments[i])
    {
      InfoInRange(log, i);
    }
    assert InRange(m);
  }

  /** Retaining nothing succeeds, and leaves a directory that can never be opened again. */
  lemma CompactToEmptyBreaksLog(log: Log, from: nat)
    requires Inv(log) && Tidy(log) && log.records != [] && from >= End(log)
    ensures var out := Compact(log, from); out.ok && out.log.records == [] && Recover(log.options, out.log.disk) == None
  {
    PackedFacts(log);
    PackedNoneEmpty(log);
    CompactEmpties(log, from);
    RewriteOfEmptied(log);
    BrokenManifest(log);
    NamesOfInfos(log);
    var n := NameAt(log, 0);
    assert SegmentStored(log.options, log.names, log.disk, Packed(log), 0);
    assert log.names[0] !in BrokenDisk(log);
  }

  // ---------------------------------------------------------------- RunOnce

  datatype Config = Config(
    minRetentionHours: nat,
    maxRetainedBytes: nat,
    segmentSizeBytes: nat,
    maxRpcRecords: nat,
    maxRpcBytes: nat,
    intervalMillis: int)

  const MAX_REASONABLE: nat := UINT64_MAX / 2
  const MAX_INTERVAL: int := 24 * 365 * 3600 * 1000

  predicate ValidConfig(c: Config) {
    && c.minRetentionHours != 0 && 0 < c.maxRetainedBytes <= MAX_REASONABLE
    && 0 < c.segmentSizeBytes <= MAX_REASONABLE && 0 < c.intervalMillis <= MAX_INTERVAL
    && 0 < c.maxRpcRecords <= UINT32_MAX / 2 && 0 < c.maxRpcBytes <= MAX_REASONABLE
  }

  function SegmentBytes(d: Disk, names: seq<string>): nat {
    if names == [] then 0 else |Contents(d, names[0])| + SegmentBytes(d, names[1..])
  }

  predicate Due(log: Log, c: Config, youngestClosedAge: nat) {
    SegmentBytes(log.disk, log.names) > c.maxRetainedBytes && |log.names| > 1
        && youngestClosedAge >= c.minRetentionHours
  }

  /** `RunOnce`: compact at the first offset of the active segment once the log is too large and old enough. */
  ghost function RunOnce(log: Log, c: Config, youngestClosedAge: nat): Outcome {
    if !ValidConfig(c) then Outcome(log, false)
    else if !Due(log, c, youngestClosedAge) then Outcome(log, true)
    else if log.activeFirst == 0 || log.activeFirst > log.highWatermark + 1 then Outcome(log, false)
    else Compact(log, log.activeFirst)
  }

  lemma {:induction false} FlattenSplit(segments: seq<Segment>, k: nat)
    requires k <= |segments|
    ensures Flatten(segments) == Flatten(segments[..k]) + Flatten(segments[k..])
    decreases k
  {
    if k > 0 {
      FlattenSplit(segments[1..], k - 1);
      assert segments[..k][1..] == segments[1..][..k - 1] && segments[1..][k - 1..] == segments[k..];
      var a, b, c := segments[0], Flatten(segments[1..][..k - 1]), Flatten(segments[k..]);
      assert a + (b + c) == (a + b) + c;
    } else {
      assert segments[..0] == [] && segments[0..] == segments;
      assert [] + Flatten(segments) == Flatten(segments);
    }
  }

  /** What is retained from the active segment on is the active segment. */
  lemma ActiveIsRest(segments: seq<Segment>, first: nat)
    requires Chained(segments, first) && segments != [] && segments[|segments| - 1] != []
    ensures var s, rs := segments[|segments| - 1], Flatten(segments);
            && first <= s[0].offset && s[0].offset + |s| == first + |rs| && rs[s[0].offset - first..] == s
            && (|segments| > 1 ==> first < s[0].offset)
  {
    var k := |segments| - 1;
    FlattenSplit(segments, k);
    assert segments[k..] == [segments[k]] && segments[k..][1..] == [];
    assert Flatten(segments[k..]) == segments[k] + [] == segments[k];
    LastStart(segments, first);
    if k > 0 { ChainedAscends(segments, first, 0, k); }
  }

  lemma {:induction false} LastStart(segments: seq<Segment>, first: nat)
    requires Chained(segments, first) && segments != []
    ensures segments[|segments| - 1] != []
    ensures var s := segments[|segments| - 1]; s[0].offset + |s| == first + |Flatten(segments)|
  {
    if |segments| > 1 {
      LastStart(segments[1..], first + |segments[0]|);
    } else {
      assert segments[1..] == [] && Flatten(segments) == segments[0] + [];
    }
  }

  lemma PackOfSegment(f: Framing, max: nat, rs: seq<ChangeRecord>, first: nat, k: nat)
    requires Contiguous(rs, first) && k < |Pack(f, max, rs)|
    requires var s := Pack(f, max, rs)[k];
             s != [] && first <= s[0].offset < first + |rs| && rs[s[0].offset - first..] == s
    ensures var s := Pack(f, max, rs)[k]; Pack(f, max, s) == [s]
  {
    var s := Pack(f, max, rs)[k];
    var p := PackSegmentAt(f, max, rs, Pack(f, max, rs), k);
    SegmentStart(f, max, rs, first, p);
    assert s == s[..Reach(f, max, s)];
    assert s[|s|..] == [];
  }

  /** The index of the first record of the active segment. */
  function ActiveStart(log: Log): nat
    requires log.earliest <= log.activeFirst
  {
    log.activeFirst - log.earliest
  }

  lemma LastOfPack(f: Framing, max: nat, rs: seq<ChangeRecord>, first: nat, segments: seq<Segment>)
    requires Contiguous(rs, first) && segments == Pack(f, max, rs) && |segments| > 1
    ensures var s := segments[|segments| - 1];
            s != [] && first < s[0].offset < first + |rs| && rs[s[0].offset - first..] == s && Pack(f, max, s) == [s]
  {
    var k := |segments| - 1;
    PackChained(f, max, rs, first);
    PackFlattens(f, max, rs);
    ChainedBounds(segments, first, k);
    ActiveIsRest(segments, first);
    PackOfSegment(f, max, rs, first, k);
  }

  /** The active segment is the last one, and it is as long as the number of names says. */
  lemma ActiveFirst(log: Log)
    requires Layout(log) && |log.names| > 1
    ensures |Packed(log)| > 1 && Contiguous(log.records, log.earliest)
    ensures Packed(log)[|Packed(log)| - 1] != [] ==> log.activeFirst == Packed(log)[|Packed(log)| - 1][0].offset
  {
  }

  lemma ActiveSegment(log: Log)
    requires Inv(log) && |log.names| > 1
    ensures Packed(log) != [] && log.earliest < log.activeFirst < End(log)
    ensures var q, s := ActiveStart(log), Packed(log)[|Packed(log)| - 1];
            && 0 < q < |log.records| && log.records[q..] == s && KeptPack(log, q) == [s]
  {
    ActiveFirst(log);
    LastOfPack(log.options.format.framing, log.options.maxSegmentBytes, log.records, log.earliest, Packed(log));
  }

  /** Maintenance keeps the active segment as it is, under its name, and removes the others. */
  ghost predicate OnlyActiveKept(log: Log, l: Log) {
    && log.names != [] && l.names == [log.names[|log.names| - 1]]
    && l.names[0] in l.disk && l.names[0] in log.disk && l.disk[l.names[0]] == log.disk[l.names[0]]
    && l.activeFirst == log.activeFirst && l.activeSize == log.activeSize
    && l.records != [] && l.history == log.history && l.highWatermark == log.highWatermark
  }

  lemma CompactActive(log: Log)
    requires Inv(log) && Monotone(log.records) && |log.names| > 1
    ensures var out := Compact(log, log.activeFirst);
            out.ok && Inv(out.log) && Monotone(out.log.records) && OnlyActiveKept(log, out.log)
  {
    ActiveSegment(log);
    var q, k := ActiveStart(log), |log.names| - 1;
    var out := Compact(log, log.activeFirst);
    MonotoneKeepsVersion(log, q);
    CompactKeepsInv(log, log.activeFirst, q);
    assert SegmentStored(log.options, log.names, log.disk, Packed(log), k);
    assert Packed(out.log) == KeptPack(log, q);
    assert SegmentStored(out.log.options, out.log.names, out.log.disk, Packed(out.log), 0);
  }

  /** A maintenance pass over a log with versions that never decrease succeeds, never empties the log and either does
      nothing or leaves exactly the active segment, byte for byte. */
  lemma RunOnceKeepsActive(log: Log, c: Config, youngestClosedAge: nat)
    requires Inv(log) && Monotone(log.records) && ValidConfig(c)
    ensures var out := RunOnce(log, c, youngestClosedAge);
            && out.ok && Inv(out.log) && Monotone(out.log.records)
            && (if Due(log, c, youngestClosedAge) then OnlyActiveKept(log, out.log) else out.log == log)
  {
    if Due(log, c, youngestClosedAge) {
      ActiveSegment(log);
      CompactActive(log);
    }
  }
}
