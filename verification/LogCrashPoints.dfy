/** Every point at which a process can stop inside an append, on an empty log or not, and what the next open makes of
    it. */
module LogCrashPoints {
  import opened Bytes
  import opened ChangeRecords
  import opened Framings
  import opened LogFormats
  import opened Manifests
  import opened Segments
  import opened LogSpec
  import opened LogInvariant
  import opened LogRecovery
  import opened LogCrash
  import opened LogFirstAppend
  import opened LogLeftovers
  import opened Wrappers

  // ---------------------------------------------------------------- a segment file that was created, no more

  lemma StoredBeside(o: Options, names: seq<string>, d: Disk, s: seq<Segment>, name: string, b: Bytes)
    requires Stored(o, names, d, s) && name !in names
    ensures Stored(o, names, d[name := b], s)
  {
    var e := d[name := b];
    forall i | 0 <= i < |s|
      ensures SegmentStored(o, names, e, s, i)
    {
      assert SegmentStored(o, names, d, s, i);
    }
  }

  lemma CreatedStored(l: Log, d: Disk)
    requires Layout(l) && (d == Created(l) || (MANIFEST in d && d == Created(l)[MANIFEST := d[MANIFEST]]))
    ensures Stored(l.options, l.names, d, Packed(l))
    ensures var name := l.options.format.name(End(l)); name in d && d[name] == []
  {
    FreshName(l, End(l));
    StoredBeside(l.options, l.names, l.disk, Packed(l), l.options.format.name(End(l)), []);
    if MANIFEST in d && d != Created(l) {
      assert MANIFEST !in l.names by {
        forall i | 0 <= i < |l.names|
          ensures l.names[i] != MANIFEST
        {
          OtherFilesApart(l, i);
        }
      }
      StoredBeside(l.options, l.names, Created(l), Packed(l), MANIFEST, d[MANIFEST]);
    }
  }

  lemma EmptyRange(f: Format, d: Disk, name: string)
    requires Sound(f.framing) && name in d && d[name] == []
    ensures SegmentRange(f, d, name) == Some(EmptyInfo(name))
  {
    ReadAllFrames(f.framing, []);
  }

  function CreatedInfos(l: Log): seq<SegmentInfo>
    requires NoneEmpty(Packed(l))
  {
    Infos(l.options, Packed(l)) + [EmptyInfo(l.options.format.name(End(l)))]
  }

  lemma CreatedRanges(l: Log, d: Disk)
    requires Layout(l) && (d == Created(l) || (MANIFEST in d && d == Created(l)[MANIFEST := d[MANIFEST]]))
    requires NoneEmpty(Packed(l))
    ensures SegmentRanges(l.options.format, d, CreatedNames(l)) == Some(CreatedInfos(l))
  {
    var name := l.options.format.name(End(l));
    PackedFacts(l);
    PackedNoneEmpty(l);
    CreatedStored(l, d);
    RangesOfStored(l.options, d, l.names, Packed(l));
    EmptyRange(l.options.format, d, name);
    RangesConcat(l.options.format, d, l.names, Infos(l.options, Packed(l)), name, EmptyInfo(name));
  }

  /** The first open lists the new file too. */
  function Listed(log: Log, l: Log, history: seq<ChangeRecord>): Log
    requires NoneEmpty(Packed(l))
  {
    log.(history := history,
         disk := Created(l)[MANIFEST := log.options.format.encode(ManifestOf(log, CreatedInfos(l)))])
  }

  lemma PersistCreated(log: Log, l: Log, history: seq<ChangeRecord>)
    requires Layout(l) && Tidy(l) && log.names == [] && log.options == l.options && NoneEmpty(Packed(l))
    ensures PersistManifest(log.(disk := Created(l), history := history)) == Outcome(Listed(log, l, history), true)
  {
    CreatedListing(l);
    CreatedRanges(l, Created(l));
  }

  lemma CreatedManifest(log: Log, l: Log)
    requires Inv(log) && Layout(l) && log.options == l.options && NoneEmpty(Packed(l))
    ensures InRange(ManifestOf(log, CreatedInfos(l)))
  {
    assert UsableName(l.options.format.name(End(l)));
    forall i | 0 <= i < |Packed(l)|
      ensures SegmentInRange(Infos(l.options, Packed(l))[i])
    {
      InfoInRange(l, i);
    }
    AllInRange(Infos(l.options, Packed(l)), EmptyInfo(l.options.format.name(End(l))));
  }

  lemma AllInRange(infos: seq<SegmentInfo>, info: SegmentInfo)
    requires (forall i :: 0 <= i < |infos| ==> SegmentInRange(infos[i])) && SegmentInRange(info)
    ensures forall i :: 0 <= i < |infos + [info]| ==> SegmentInRange((infos + [info])[i])
  {
  }

  lemma CreatedNamed(l: Log)
    requires Layout(l) && NoneEmpty(Packed(l))
    ensures |l.names| == |Packed(l)| && SegmentNames(CreatedInfos(l)) == CreatedNames(l)
  {
    NamesOfInfos(l);
    NamesConcat(Infos(l.options, Packed(l)), EmptyInfo(l.options.format.name(End(l))));
  }

  lemma NamesConcat(infos: seq<SegmentInfo>, info: SegmentInfo)
    ensures SegmentNames(infos + [info]) == SegmentNames(infos) + [info.name]
  {
  }

  lemma {:induction false} ChainedMore(s: seq<Segment>, first: nat, r: ChangeRecord)
    requires Chained(s, first) && r.offset == first + |Flatten(s)|
    ensures Chained(s + [[r]], first)
  {
    if s == [] {
      assert s + [[r]] == [[r]] && [[r]][1..] == [];
    } else {
      assert (s + [[r]])[1..] == s[1..] + [[r]];
      ChainedMore(s[1..], first + |s[0]|, r);
    }
  }

  lemma ProperMore(l: Log, r: ChangeRecord)
    requires Layout(l) && Next(l, r)
    ensures Proper(l.options, Packed(l) + [[r]], l.earliest)
  {
    PackedFacts(l);
    PackedNoneEmpty(l);
    ChainedMore(Packed(l), l.earliest, r);
  }

  lemma WholeBeforeMore(o: Options, m: Manifest, names: seq<string>, d: Disk, s: seq<Segment>, name: string, t: Segment)
    requires Stored(o, names, d, s) && NoneEmpty(s + [t]) && |m.segments| == |s| + 1
    requires forall i :: 0 <= i < |s| ==> s[i] != [] && m.segments[i] == InfoOf(o, s[i])
    ensures WholeUpTo(o, m, names + [name], d, s + [t], |s|)
  {
    forall i | 0 <= i < |s|
      ensures FileAt(o, m, names + [name], d, s + [t], i, [])
    {
      assert SegmentStored(o, names, d, s, i);
      assert d[names[i]] + [] == d[names[i]];
    }
  }

  /** An empty file adds nothing to the scan. */
  lemma {:induction false} ScanEmpty(o: Options, m: Manifest, names: seq<string>, s: Scan, k: nat)
    requires Sound(o.format.framing) && k + 1 == |names| == |m.segments| && names[k] in s.disk && s.disk[names[k]] == []
    requires m.segments[k] == EmptyInfo(names[k]) && !s.torn
    ensures ScanFrom(o, Some(m), names, k, s) == Some(s)
  {
    assert ScanFile(o, [], s.expected, true, Some(m.highWatermark)) == Some(FileScan([], 0, false));
    assert s.records + [] == s.records;
    assert ScanOne(o, Some(m), names, k, s) == Some(s);
  }

  /** The second open finds the records of l. */
  lemma CreatedScan(l: Log, d: Disk, m: Manifest, r: ChangeRecord)
    requires Layout(l) && Next(l, r) && NoneEmpty(Packed(l)) && m.segments == CreatedInfos(l)
    requires MANIFEST in d && d == Created(l)[MANIFEST := d[MANIFEST]]
    ensures NoneEmpty(Packed(l) + [[r]]) && |CreatedNames(l)| == |m.segments| == |Packed(l)| + 1
    ensures ScanFrom(l.options, Some(m), CreatedNames(l), 0, Scan([], 0, 1, false, d)) ==
            Some(ScanAt(Packed(l) + [[r]], |Packed(l)|, d))
  {
    var o, s, k := l.options, Packed(l) + [[r]], |Packed(l)|;
    ProperMore(l, r);
    CreatedStored(l, d);
    WholeBeforeMore(o, m, l.names, d, Packed(l), o.format.name(End(l)), [r]);
    ScanTo(o, m, CreatedNames(l), d, s, l.earliest, 0, k);
    ScanEmpty(o, m, CreatedNames(l), ScanAt(s, k, d), k);
  }

  /** Its counters then contradict the manifest, unless there are no records. */
  lemma CreatedFinish(log: Log, l: Log, d: Disk, m: Manifest, r: ChangeRecord)
    requires Layout(l) && Next(l, r) && NoneEmpty(Packed(l) + [[r]]) && l.records != [] && log.highWatermark == 0
    requires m == ManifestOf(log, m.segments)
    ensures var s := ScanAt(Packed(l) + [[r]], |Packed(l)|, d);
            Finish(Some(m), s, Built(l.options, CreatedNames(l), CreatedNames(l), s, [])) == None
  {
    var s := ScanAt(Packed(l) + [[r]], |Packed(l)|, d);
    PackedFacts(l);
    assert (Packed(l) + [[r]])[..|Packed(l)|] == Packed(l);
    assert s.records == l.records && !s.torn;
  }

  lemma CreatedReads(log: Log, l: Log, history: seq<ChangeRecord>)
    requires Inv(log) && Layout(l) && log.options == l.options && NoneEmpty(Packed(l))
    ensures var d, m := Listed(log, l, history).disk, ManifestOf(log, CreatedInfos(l));
            && |CreatedNames(l)| == |m.segments|
            && Recover(log.options, d) == RecoverFrom(log.options, d, Some(m), CreatedNames(l), CreatedNames(l))
  {
    var d := Listed(log, l, history).disk;
    CreatedManifest(log, l);
    CreatedNamed(l);
    AscendingMore(l, End(l));
    CreatedStored(l, d);
    forall i | 0 <= i < |CreatedNames(l)|
      ensures CreatedNames(l)[i] in d
    {
      if i < |l.names| { assert SegmentStored(l.options, l.names, d, Packed(l), i); }
    }
  }

  lemma CreatedRefused(log: Log, l: Log, history: seq<ChangeRecord>, r: ChangeRecord)
    requires Inv(log) && log.records == [] && Layout(l) && l.records != [] && log.options == l.options
             && NoneEmpty(Packed(l))
    requires Next(l, r)
    ensures Recover(log.options, Listed(log, l, history).disk) == None
  {
    var d, m := Listed(log, l, history).disk, ManifestOf(log, CreatedInfos(l));
    CreatedReads(log, l, history);
    CreatedScan(l, d, m, r);
    CreatedFinish(log, l, d, m, r);
  }

  lemma CreatedBuilt(log: Log, d: Disk)
    requires Inv(log) && log.records == []
    ensures var s := Scan([], 0, 1, false, d);
            Built(log.options, CreatedNames(log), CreatedNames(log), s, []) ==
            log.(names := CreatedNames(log), history := [], disk := d)
  {
  }

  lemma CreatedAgain(log: Log, d: Disk, history: seq<ChangeRecord>)
    requires Layout(log) && NoneEmpty(Packed(log)) && d == Listed(log, log, log.history).disk
    ensures var l := log.(names := CreatedNames(log), history := history, disk := d);
            PersistManifest(l) == Outcome(l, true)
  {
    AscendingMore(log, End(log));
    CreatedRanges(log, d);
    assert d[MANIFEST := d[MANIFEST]] == d;
  }

  lemma CreatedHistory(log: Log, d: Disk)
    requires Inv(log) && log.records == [] && NoneEmpty(Packed(log)) && d == Listed(log, log, log.history).disk
    ensures ReadHistory(log.options, d, []) == Some(log.history)
  {
    assert SNAPSHOT != MANIFEST && SNAPSHOT != log.options.format.name(End(log));
    EmptyHistory(log, d);
  }

  /** With no frame before it, an empty file is listed, and the log opens as empty from then on. */
  lemma CreatedKept(log: Log)
    requires Inv(log) && log.records == [] && NoneEmpty(Packed(log))
    ensures var d := Listed(log, log, log.history).disk;
            Recover(log.options, d) == Some(log.(names := CreatedNames(log), disk := d))
  {
    var d, m := Listed(log, log, log.history).disk, ManifestOf(log, CreatedInfos(log));
    NothingToList(log);
    CreatedReads(log, log, log.history);
    CreatedStored(log, d);
    ScanEmpty(log.options, m, CreatedNames(log), Scan([], 0, 1, false, d), 0);
    CreatedBuilt(log, d);
    CreatedHistory(log, d);
    CreatedAgain(log, d, log.history);
  }

  // ---------------------------------------------------------------- the first append

  /** Opens as an empty log, now and ever after. */
  ghost predicate OpensEmpty(o: Options, d: Disk) {
    var l := Recover(o, d);
    && l.Some? && l.value.records == []
    && Recover(o, l.value.disk).Some? && Recover(o, l.value.disk).value.records == []
    && Recover(o, l.value.disk).value.disk == l.value.disk
  }

  lemma CreatedOpens(log: Log, l: Log, r: ChangeRecord)
    requires Inv(log) && log.records == [] && Layout(l) && Tidy(l) && l.options == log.options && Next(l, r)
    requires MANIFEST in l.disk && l.disk[MANIFEST] == log.disk[MANIFEST]
    requires ReadHistory(log.options, Created(l), []) == Some(log.history)
    ensures l == log ==> OpensEmpty(log.options, Created(l))
    ensures l.records != [] ==> OpensOnce(log.options, Created(l))
  {
    NothingToList(log);
    PackedNoneEmpty(l);
    assert MANIFEST != l.options.format.name(End(l));
    RecoverUnlisted(log, Created(l), log.history);
    PersistCreated(log, l, log.history);
    if l == log { CreatedKept(log); }
    if l.records != [] { CreatedRefused(log, l, log.history, r); }
  }

  lemma UntouchedByNothing(d: Disk, name: string)
    requires name in d
    ensures d[name := d[name] + []] == d
  {
    assert d[name] + [] == d[name];
  }

  lemma PrefixNext(log: Log, batch: seq<ChangeRecord>, j: nat, l: Log)
    requires NextBatch(log, batch) && j < |batch| && l == AppendFrames(log, batch[..j])
    ensures NextBatch(log, batch[..j]) && Next(l, batch[j])
  {
    AppendFramesTracks(log, batch[..j]);
  }

  lemma AtFrameStart(log: Log, batch: seq<ChangeRecord>, j: nat)
    requires Inv(log) && log.records == [] && NextBatch(log, batch) && j < |batch|
    ensures j == 0 ==> OpensEmpty(log.options, CrashDisk(log, batch, j, []))
    ensures j > 0 ==> OpensOnce(log.options, CrashDisk(log, batch, j, []))
  {
    var l, r := AppendFrames(log, batch[..j]), batch[j];
    PrefixNext(log, batch, j, l);
    FirstFrames(log, batch[..j]);
    CrashOthers(log, batch, j, [], SNAPSHOT);
    EmptyHistory(log, CrashDisk(log, batch, j, []));
    assert j == 0 ==> batch[..j] == [];
    if Opens(l, r) {
      OpeningBytes(l, r, []);
      CreatedOpens(log, l, r);
    } else {
      ExtendingBytes(l, r, []);
      UntouchedByNothing(l.disk, l.names[|l.names| - 1]);
      CrashInFirstAppend(log, batch[..j]);
    }
  }

  // ---------------------------------------------------------------- every point

  /** Where the process stops: n bytes into the frame of batch[j], or after all frames, or after the snapshot file.
      The snapshot file and the manifest are each renamed into place. */
  datatype Point = InFrame(j: nat, n: nat) | AfterFrames | AfterSnapshot

  predicate Reaches(log: Log, batch: seq<ChangeRecord>, p: Point) {
    p.InFrame? ==> p.j < |batch| && p.n < |log.options.format.framing.frame(batch[p.j])|
  }

  function DiskAt(log: Log, version: nat, batch: seq<ChangeRecord>, p: Point): Disk
    requires Reaches(log, batch, p)
  {
    match p
    case InFrame(j, n) => CrashDisk(log, batch, j, log.options.format.framing.frame(batch[j])[..n])
    case AfterFrames => AppendFrames(log, batch).disk
    case AfterSnapshot => Enter(log, version, batch).disk
  }

  /** The log after a crash: wherever the process stops in an append to a log with records, the directory opens if
      and only if the batch began a new segment or no frame of it is whole, and then with the records before the
      append. */
  lemma CrashInLaterAppend(log: Log, version: nat, batch: seq<ChangeRecord>, p: Point)
    requires Inv(log) && log.records != [] && NextBatch(log, batch) && batch != [] && Reaches(log, batch, p)
    ensures var d := DiskAt(log, version, batch, p);
            Recover(log.options, d) ==
            if Opens(log, batch[0]) then
              Some(log.(disk := d, history := if p.AfterSnapshot? then log.history + batch else log.history))
            else if p.InFrame? && p.j == 0 then Some(log)
            else None
  {
    match p
    case InFrame(j, n) => CrashDuringAppend(log, batch, j, n);
    case AfterFrames => CrashAfterFrames(log, batch);
    case AfterSnapshot => CrashBeforeManifest(log, version, batch);
  }

  /** In the first append, the directory opens for good only if no byte was written; inside a frame it does not open
      at all, and at any other point it opens once, as an empty log, and never again. */
  lemma CrashInFirst(log: Log, version: nat, batch: seq<ChangeRecord>, p: Point)
    requires Inv(log) && log.records == [] && NextBatch(log, batch) && batch != [] && Reaches(log, batch, p)
    ensures var o, d := log.options, DiskAt(log, version, batch, p);
            if p == InFrame(0, 0) then OpensEmpty(o, d)
            else if p.InFrame? && p.n > 0 then Recover(o, d) == None
            else OpensOnce(o, d)
  {
    match p
    case InFrame(j, n) =>
      if n > 0 {
        TornFirstAppend(log, batch, j, n);
      } else {
        assert log.options.format.framing.frame(batch[j])[..0] == [];
        AtFrameStart(log, batch, j);
      }
    case AfterFrames => CrashInFirstAppend(log, batch);
    case AfterSnapshot => CrashAfterFirstSnapshot(log, version, batch);
  }
}
