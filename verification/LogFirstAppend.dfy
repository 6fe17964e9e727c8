/** A crash in the very first append: the manifest lists no segment yet, so the directory itself is listed. */
module LogFirstAppend {
  import opened ChangeRecords
  import opened Decimal
  import opened Framings
  import opened LogFormats
  import opened Manifests
  import opened LogSpec
  import opened LogInvariant
  import opened LogListing
  import opened LogRecovery
  import opened LogCrash
  import opened Wrappers

  // ---------------------------------------------------------------- whole frames only

  /** A directory with the segments of l, listed in a manifest that says there are no records. */
  function Confused(log: Log, l: Log): Log
    requires NoneEmpty(Packed(l))
  {
    log.(disk := l.disk[MANIFEST := log.options.format.encode(ManifestOf(log, Infos(l.options, Packed(l))))])
  }

  lemma PersistConfused(log: Log, l: Log)
    requires Layout(l) && Tidy(l) && log.names == [] && log.options == l.options && NoneEmpty(Packed(l))
    ensures PersistManifest(log.(disk := l.disk)) == Outcome(Confused(log, l), true)
  {
    FilesAreNames(l);
    NamesAscend(l);
    ListingOf(SegmentFiles(l.options.format, l.disk), l.names);
    PackedFacts(l);
    PackedNoneEmpty(l);
    RangesOfStored(l.options, l.disk, l.names, Packed(l));
  }

  /** The manifest lists nothing, so nothing is scanned. */
  lemma RecoverUnlisted(log: Log, d: Disk, history: seq<ChangeRecord>)
    requires Inv(log) && log.records == []
    requires MANIFEST in d && d[MANIFEST] == log.disk[MANIFEST]
    requires ReadHistory(log.options, d, []) == Some(history)
    ensures var p := PersistManifest(log.(disk := d, history := history));
            Recover(log.options, d) == if p.ok then Some(p.log) else None
  {
    PackedNoneEmpty(log);
    ManifestReads(log);
    NothingToList(log);
    var m := ManifestOf(log, Infos(log.options, Packed(log)));
    assert m.segments == [] && SegmentNames(m.segments) == [];
    var s := Scan([], 0, 1, false, d);
    assert Built(log.options, [], [], s, []) == log.(disk := d, history := []);
    assert log.(disk := d, history := []).(history := history) == log.(disk := d, history := history);
  }

  lemma ConfusedManifest(log: Log, l: Log)
    requires Inv(log) && Layout(l) && log.options == l.options && NoneEmpty(Packed(l))
    ensures InRange(ManifestOf(log, Infos(l.options, Packed(l))))
  {
    var m := ManifestOf(log, Infos(l.options, Packed(l)));
    forall i | 0 <= i < |m.segments|
      ensures SegmentInRange(m.segments[i])
    {
      InfoInRange(l, i);
    }
  }

  /** The counters of the manifest say that there are no records, the segments say that there are. */
  lemma ConfusedFinish(log: Log, l: Log, d: Disk, names: seq<string>)
    requires Layout(l) && l.records != [] && NoneEmpty(Packed(l)) && log.highWatermark == 0 && |l.names| == |Packed(l)|
    ensures var m := ManifestOf(log, Infos(l.options, Packed(l)));
            var s := ScanEnd(l.options, l.names, d, Packed(l), []);
            Finish(Some(m), s, Built(l.options, names, l.names, s, [])) == None
  {
    var s := ScanEnd(l.options, l.names, d, Packed(l), []);
    PackedFacts(l);
    assert Packed(l)[..|Packed(l)|] == Packed(l);
    assert s.records == l.records && !s.torn;
  }

  lemma ConfusedRefused(log: Log, l: Log)
    requires Inv(log) && log.records == [] && Layout(l) && l.records != [] && log.options == l.options
             && NoneEmpty(Packed(l))
    ensures Recover(log.options, Confused(log, l).disk) == None
  {
    var m := ManifestOf(log, Infos(l.options, Packed(l)));
    var d := Confused(log, l).disk;
    ConfusedManifest(log, l);
    NamesOfInfos(l);
    NamesAscend(l);
    OtherFileKeepsLayout(l, MANIFEST, d[MANIFEST]);
    ScanWhole(l, m, d);
    ConfusedFinish(log, l, d, l.names);
  }

  lemma EmptyIsTidy(log: Log)
    requires Layout(log) && log.records == []
    ensures Tidy(log)
  {
    NothingToList(log);
    assert forall f :: f in log.disk && log.options.format.isSegment(f) ==>
                         f in SegmentFiles(log.options.format, log.disk);
  }

  lemma EmptyHistory(log: Log, d: Disk)
    requires Inv(log) && log.records == []
    requires (SNAPSHOT in d <==> SNAPSHOT in log.disk) && (SNAPSHOT in d ==> d[SNAPSHOT] == log.disk[SNAPSHOT])
    ensures ReadHistory(log.options, d, []) == Some(log.history)
  {
    SameHistory(log, d);
    HistoryReads(log);
  }

  /** Opens as an empty log, and then never again. */
  ghost predicate OpensOnce(o: Options, d: Disk) {
    var l := Recover(o, d); l.Some? && l.value.records == [] && Recover(o, l.value.disk) == None
  }

  /** Segments that no manifest lists, whatever the snapshot file holds. */
  lemma UnlistedOpensOnce(log: Log, l: Log, history: seq<ChangeRecord>)
    requires Inv(log) && log.records == [] && Layout(l) && Tidy(l) && l.records != [] && l.options == log.options
    requires MANIFEST in l.disk && l.disk[MANIFEST] == log.disk[MANIFEST]
    requires ReadHistory(log.options, l.disk, []) == Some(history)
    ensures OpensOnce(log.options, l.disk)
  {
    NothingToList(log);
    RecoverUnlisted(log, l.disk, history);
    PackedNoneEmpty(l);
    PersistConfused(log.(history := history), l);
    ConfusedRefused(log, l);
  }

  lemma FirstFrames(log: Log, batch: seq<ChangeRecord>)
    requires Inv(log) && log.records == [] && NextBatch(log, batch)
    ensures var l := AppendFrames(log, batch);
            && Layout(l) && Tidy(l) && l.options == log.options && l.records == batch
            && MANIFEST in l.disk && l.disk[MANIFEST] == log.disk[MANIFEST]
            && ReadHistory(log.options, l.disk, []) == Some(log.history)
  {
    AppendFramesKeepsLayout(log, batch);
    AppendFramesTracks(log, batch);
    AppendFramesOthers(log, batch, MANIFEST);
    AppendFramesOthers(log, batch, SNAPSHOT);
    EmptyHistory(log, AppendFrames(log, batch).disk);
    EmptyIsTidy(log);
    AppendFramesTidy(log, batch);
  }

  /** A process that stops in the very first append after at least one whole frame, and in no frame, leaves a
      directory that opens as an empty log once, and never again. */
  lemma CrashInFirstAppend(log: Log, batch: seq<ChangeRecord>)
    requires Inv(log) && log.records == [] && NextBatch(log, batch) && batch != []
    ensures OpensOnce(log.options, AppendFrames(log, batch).disk)
  {
    FirstFrames(log, batch);
    UnlistedOpensOnce(log, AppendFrames(log, batch), log.history);
  }

  /** The same once the snapshot file has been written: then the log that opens is empty although its history holds
      the batch. */
  lemma CrashAfterFirstSnapshot(log: Log, version: nat, batch: seq<ChangeRecord>)
    requires Inv(log) && log.records == [] && NextBatch(log, batch) && batch != []
    ensures OpensOnce(log.options, Enter(log, version, batch).disk)
  {
    var h, l := log.history + batch, AppendFrames(log, batch);
    var e := l.(disk := l.disk[SNAPSHOT := FrameList(log.options.format.framing, h)]);
    FirstFrames(log, batch);
    AppendFramesTracks(log, batch);
    OtherFileKeepsLayout(l, SNAPSHOT, e.disk[SNAPSHOT]);
    OwnedConcat(log.options, log.history, batch);
    SnapshotReads(log.options, e.disk, h, []);
    UnlistedOpensOnce(log, e, h);
  }

  // ---------------------------------------------------------------- a torn frame

  lemma {:induction false} RangesNone(f: Format, d: Disk, names: seq<string>, name: string)
    requires name in names && SegmentRange(f, d, name) == None
    ensures SegmentRanges(f, d, names) == None
    decreases |names|
  {
    if name != names[0] { RangesNone(f, d, names[1..], name); }
  }

  lemma TornFileUnreadable(o: Options, d: Disk, name: string, rs: seq<ChangeRecord>, r: ChangeRecord, n: nat)
    requires Sound(o.format.framing) && Owned(o, rs) && Ours(o, r) && 0 < n < |o.format.framing.frame(r)|
    requires name in d && d[name] == FrameList(o.format.framing, rs) + o.format.framing.frame(r)[..n]
    ensures SegmentRange(o.format, d, name) == None
  {
    ReadAllTorn(o.format.framing, rs, r, n);
  }

  /** The file that the torn frame is in. */
  lemma TornFile(l: Log, r: ChangeRecord, n: nat) returns (name: string)
    requires Layout(l) && Next(l, r) && 0 < n < |l.options.format.framing.frame(r)|
    ensures var d := AppendBytes(l, r, l.options.format.framing.frame(r)[..n]).disk;
            name in SegmentFiles(l.options.format, d) && SegmentRange(l.options.format, d, name) == None
  {
    var f, part := l.options.format.framing, l.options.format.framing.frame(r)[..n];
    var d := AppendBytes(l, r, part).disk;
    if Opens(l, r) {
      name := l.options.format.name(r.offset);
      OpeningBytes(l, r, part);
      assert FrameList(f, []) + part == part;
      TornFileUnreadable(l.options, d, name, [], r, n);
    } else {
      ExtendingBytes(l, r, part);
      var k := |l.names| - 1;
      name := l.names[k];
      var m := NameAt(l, k);
      assert SegmentStored(l.options, l.names, l.disk, Packed(l), k);
      PackedFacts(l);
      TornFileUnreadable(l.options, d, name, Packed(l)[k], r, n);
    }
  }

  lemma TornListingFails(log: Log, d: Disk, name: string)
    requires log.names == [] && name in SegmentFiles(log.options.format, d)
             && SegmentRange(log.options.format, d, name) == None
    ensures !PersistManifest(log.(disk := d)).ok
  {
    ListingHolds(SegmentFiles(log.options.format, d), name);
    RangesNone(log.options.format, d, Listing(SegmentFiles(log.options.format, d)), name);
  }

  /** A process that stops in the very first append inside a frame leaves a directory that does not open. */
  lemma TornFirstAppend(log: Log, batch: seq<ChangeRecord>, j: nat, n: nat)
    requires Inv(log) && log.records == [] && NextBatch(log, batch) && j < |batch|
    requires 0 < n < |log.options.format.framing.frame(batch[j])|
    ensures Recover(log.options, CrashDisk(log, batch, j, log.options.format.framing.frame(batch[j])[..n])) == None
  {
    var l, part := AppendFrames(log, batch[..j]), log.options.format.framing.frame(batch[j])[..n];
    var d := CrashDisk(log, batch, j, part);
    AppendFramesKeepsLayout(log, batch[..j]);
    AppendFramesTracks(log, batch[..j]);
    CrashOthers(log, batch, j, part, MANIFEST);
    CrashOthers(log, batch, j, part, SNAPSHOT);
    EmptyHistory(log, d);
    NothingToList(log);
    var name := TornFile(l, batch[j], n);
    TornListingFails(log, d, name);
    RecoverUnlisted(log, d, log.history);
  }

  // ---------------------------------------------------------------- a file that is still empty

  lemma {:induction false} RangesConcat(f: Format, d: Disk, names: seq<string>, infos: seq<SegmentInfo>, name: string,
                                        info: SegmentInfo)
    requires SegmentRanges(f, d, names) == Some(infos) && SegmentRange(f, d, name) == Some(info)
    ensures SegmentRanges(f, d, names + [name]) == Some(infos + [info])
    decreases |names|
  {
    if names == [] {
      assert names + [name] == [name] && [name][1..] == [];
      assert [info] + [] == infos + [info];
    } else {
      var first, rest := SegmentRange(f, d, names[0]).value, SegmentRanges(f, d, names[1..]).value;
      RangesConcat(f, d, names[1..], rest, name, info);
      assert (names + [name])[1..] == names[1..] + [name];
      assert infos + [info] == [first] + (rest + [info]);
    }
  }

  lemma AscendingMore(log: Log, n: nat)
    requires Layout(log) && End(log) <= n <= UINT64_MAX
    ensures var s := log.names + [log.options.format.name(n)]; Ascending(s) && Sort(s) == s
  {
    var s := log.names + [log.options.format.name(n)];
    forall i, j | 0 <= i < j < |s|
      ensures Before(s[i], s[j])
    {
      if j < |log.names| {
        NamesDistinct(log, i, j);
      } else {
        var m := NameAt(log, i);
        assert Before(log.options.format.name(m), log.options.format.name(n));
      }
    }
    SortAscending(s);
  }

  /** What is recorded about a segment file without a frame. */
  function EmptyInfo(name: string): SegmentInfo { SegmentInfo(name, 0, 0, 0) }

  /** The directory of l with one more segment file, which is empty. */
  function Created(l: Log): Disk { l.disk[l.options.format.name(End(l)) := []] }

  function CreatedNames(l: Log): seq<string> { l.names + [l.options.format.name(End(l))] }

  lemma CreatedListing(l: Log)
    requires Layout(l) && Tidy(l)
    ensures Listing(SegmentFiles(l.options.format, Created(l))) == CreatedNames(l)
  {
    var name := l.options.format.name(End(l));
    FilesAreNames(l);
    NamesAscend(l);
    AscendingMore(l, End(l));
    assert SegmentFiles(l.options.format, Created(l)) == SegmentFiles(l.options.format, l.disk) + {name};
    assert (set x | x in CreatedNames(l)) == (set x | x in l.names) + {name};
    ListingOf(SegmentFiles(l.options.format, Created(l)), CreatedNames(l));
  }
}
