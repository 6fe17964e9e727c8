/** The change log of one partition as a value, and what each operation of src/cdc/partition_change_log.cc makes of
    it.  The disk is the partition's directory: a map from file name to contents. */
module LogSpec {
  import opened Bytes
  import opened ChangeRecords
  import opened Decimal
  import opened Framings
  import opened LogFormats
  import opened Manifests
  import Frames
  import opened Wrappers

  type Disk = map<string, Bytes>

  datatype Options = Options(
    partitionId: nat,
    partitionEpoch: nat,
    maxSegmentBytes: nat,
    maxFetchRecords: nat,
    maxFetchBytes: nat,
    format: Format)

  datatype Log = Log(
    options: Options,
    records: seq<ChangeRecord>,
    history: seq<ChangeRecord>,
    names: seq<string>,
    earliest: nat,
    highWatermark: nat,
    committed: nat,
    activeFirst: nat,
    activeSize: nat,
    disk: Disk)

  /** A log and the status the operation reports; the code keeps what it changed before a failure. */
  datatype Outcome = Outcome(log: Log, ok: bool)

  function Max(a: nat, b: nat): nat { if a < b then b else a }

  function MaxVersion(rs: seq<ChangeRecord>): nat {
    if rs == [] then 0 else Max(MaxVersion(rs[..|rs| - 1]), rs[|rs| - 1].commitVersion)
  }

  /** Commit versions never decrease along the log. */
  predicate Monotone(rs: seq<ChangeRecord>) {
    forall i, j :: 0 <= i < j < |rs| ==> rs[i].commitVersion <= rs[j].commitVersion
  }

  // ---------------------------------------------------------------- names in order

  function Insert(x: string, s: seq<string>): (t: seq<string>)
    ensures |t| == |s| + 1
  {
    if s == [] || Before(x, s[0]) then [x] + s else [s[0]] + Insert(x, s[1..])
  }

  /** `std::sort` of file names. */
  function Sort(s: seq<string>): (t: seq<string>)
    ensures |t| == |s|
  {
    if s == [] then [] else Insert(s[0], Sort(s[1..]))
  }

  /** The segment files of a directory. */
  function SegmentFiles(f: Format, d: Disk): set<string> {
    set name | name in d && f.isSegment(name)
  }

  predicate Ascending(s: seq<string>) {
    forall i, j :: 0 <= i < j < |s| ==> Before(s[i], s[j])
  }

  /** The one ascending list of a set of names. */
  ghost predicate Lists(s: seq<string>, names: set<string>) {
    Ascending(s) && (set x | x in s) == names
  }

  // ---------------------------------------------------------------- appending

  function Stamp(o: Options, version: nat, r: ChangeRecord, offset: nat, index: nat, size: nat): ChangeRecord {
    r.(partitionId := o.partitionId, partitionEpoch := o.partitionEpoch, offset := offset, commitVersion := version,
       batchIndex := Frames.Truncate(index), batchSize := Frames.Truncate(size))
  }

  /** The batch as it is stored: consecutive offsets, one version, its place in the batch. */
  function StampAll(o: Options, version: nat, rs: seq<ChangeRecord>, next: nat): (s: seq<ChangeRecord>)
    ensures |s| == |rs|
  {
    seq(|rs|, i requires 0 <= i < |rs| => Stamp(o, version, rs[i], next + i, i, |rs|))
  }

  function Contents(d: Disk, name: string): Bytes { if name in d then d[name] else [] }

  predicate Rolls(log: Log, frame: Bytes) {
    log.activeSize > 0 && log.activeSize + |frame| > log.options.maxSegmentBytes
  }

  /** `AppendRecordFrame`, with `part` the bytes of the frame that reach the file. */
  function AppendBytes(log: Log, r: ChangeRecord, part: Bytes): Log
  {
    var rolls := Rolls(log, log.options.format.framing.frame(r));
    var first := if rolls then r.offset else log.activeFirst;
    var size := if rolls then 0 else log.activeSize;
    var name := log.options.format.name(first);
    log.(activeFirst := first,
         activeSize := size + |part|,
         names := if size == 0 && name !in log.names then log.names + [name] else log.names,
         disk := log.disk[name := Contents(log.disk, name) + part])
  }

  function AppendFrame(log: Log, r: ChangeRecord): Log
  {
    var l := AppendBytes(log, r, log.options.format.framing.frame(r));
    l.(records := l.records + [r], history := l.history + [r])
  }

  function AppendFrames(log: Log, rs: seq<ChangeRecord>): Log
    decreases |rs|
  {
    if rs == [] then log else AppendFrame(AppendFrames(log, rs[..|rs| - 1]), rs[|rs| - 1])
  }

  function PersistSnapshot(log: Log): Log {
    log.(disk := log.disk[SNAPSHOT := FrameList(log.options.format.framing, log.history)])
  }

  /** Watermark, version and first offset after a batch that is not empty. */
  function Advance(log: Log, version: nat, count: nat): Log {
    if count == 0 then log
    else log.(highWatermark := log.highWatermark + count,
              committed := Max(log.committed, version),
              earliest := if log.earliest == 0 && log.records != [] then log.records[0].offset else log.earliest)
  }

  /** A stamped batch in the segments, the counters and the snapshot file, but not in the manifest. */
  function Enter(log: Log, version: nat, batch: seq<ChangeRecord>): Log {
    PersistSnapshot(Advance(AppendFrames(log, batch), version, |batch|))
  }

  /** `AppendCommittedBatch` of a batch that is already stamped. */
  ghost function Append(log: Log, version: nat, batch: seq<ChangeRecord>): Outcome {
    PersistManifest(Enter(log, version, batch))
  }

  // ---------------------------------------------------------------- the manifest

  /** `ReadSegmentRange`: the first offset that is not zero, the last one, and the bytes. */
  function FirstOffset(rs: seq<ChangeRecord>): nat {
    if rs == [] then 0 else if rs[0].offset != 0 then rs[0].offset else FirstOffset(rs[1..])
  }

  function LastOffset(rs: seq<ChangeRecord>): nat { if rs == [] then 0 else rs[|rs| - 1].offset }

  function SegmentRange(f: Format, d: Disk, name: string): Option<SegmentInfo> {
    if name !in d then None
    else match ReadAll(f.framing, d[name])
         case None => None
         case Some(rs) => Some(SegmentInfo(name, FirstOffset(rs), LastOffset(rs), |d[name]|))
  }

  function SegmentRanges(f: Format, d: Disk, names: seq<string>): Option<seq<SegmentInfo>> {
    if names == [] then Some([])
    else match SegmentRange(f, d, names[0])
         case None => None
         case Some(s) =>
           match SegmentRanges(f, d, names[1..])
           case None => None
           case Some(ss) => Some([s] + ss)
  }

  /** Directory entries in name order. */
  ghost function Listing(names: set<string>): (s: seq<string>)
  {
    if names == {} then [] else var x :| x in names; Insert(x, Listing(names - {x}))
  }

  /** The segments that the manifest will name: the ones in memory or, if there are none, the ones on disk. */
  ghost function NamesToPersist(log: Log): seq<string> {
    if log.names != [] then Sort(log.names) else Listing(SegmentFiles(log.options.format, log.disk))
  }

  function ManifestOf(log: Log, segments: seq<SegmentInfo>): Manifest {
    Manifest(log.options.partitionId, log.options.partitionEpoch, log.earliest, log.highWatermark, log.committed,
        segments)
  }

  ghost function PersistManifest(log: Log): Outcome {
    match SegmentRanges(log.options.format, log.disk, NamesToPersist(log))
    case None => Outcome(log, false)
    case Some(segments) =>
      Outcome(log.(disk := log.disk[MANIFEST := log.options.format.encode(ManifestOf(log, segments))]), true)
  }

  // ---------------------------------------------------------------- compaction

  function Retained(rs: seq<ChangeRecord>, from: nat): seq<ChangeRecord> {
    if rs == [] then [] else (if rs[0].offset < from then [] else [rs[0]]) + Retained(rs[1..], from)
  }

  /** The rewritten segments, one record after the other: names, contents and the bytes of the last one. */
  datatype Rewriting = Rewriting(names: seq<string>, contents: seq<Bytes>, size: nat)

  function RewriteOne(o: Options, w: Rewriting, r: ChangeRecord): (x: Rewriting)
    requires |w.names| == |w.contents| && (w.size > 0 ==> w.contents != [])
    ensures |x.names| == |x.contents| && (x.size > 0 ==> x.contents != [])
  {
    var frame := o.format.framing.frame(r);
    if w.size == 0 || w.size + |frame| > o.maxSegmentBytes
    then Rewriting(w.names + [o.format.name(r.offset)], w.contents + [frame], |frame|)
    else Rewriting(w.names, w.contents[|w.contents| - 1 := w.contents[|w.contents| - 1] + frame], w.size + |frame|)
  }

  function RewriteAll(o: Options, rs: seq<ChangeRecord>): (w: Rewriting)
    ensures |w.names| == |w.contents| && (w.size > 0 ==> w.contents != [])
    decreases |rs|
  {
    if rs == [] then Rewriting([], [], 0) else RewriteOne(o, RewriteAll(o, rs[..|rs| - 1]), rs[|rs| - 1])
  }

  /** The first k rewritten segments renamed into place. */
  function Rename(d: Disk, w: Rewriting, k: nat): Disk
    requires |w.names| == |w.contents| && k <= |w.names|
  {
    if k == 0 then d else Rename(d, w, k - 1)[w.names[k - 1] := w.contents[k - 1]]
  }

  ghost function Rewrite(log: Log): Outcome
  {
    var o := log.options;
    var w := RewriteAll(o, log.records);
    var old_ := SegmentFiles(o.format, log.disk);
    var renamed := log.(names := w.names, disk := Rename(log.disk, w, |w.names|));
    var p := PersistManifest(renamed);
    if !p.ok then Outcome(p.log.(activeSize := w.size), false)
    else
      var disk := p.log.disk - (old_ - set x | x in w.names);
      var l := p.log.(disk := disk);
      if log.records == [] || w.names == [] then
        Outcome(l.(activeFirst := log.highWatermark + 1, activeSize := 0), true)
      else
        var last := w.names[|w.names| - 1];
        Outcome(l.(activeFirst := o.format.number(last), activeSize := |Contents(disk, last)|), true)
  }

  ghost function Compact(log: Log, retainFrom: nat): Outcome
  {
    if retainFrom == 0 || retainFrom <= log.earliest then Outcome(log, true)
    else
      var kept := Retained(log.records, retainFrom);
      Rewrite(log.(records := kept,
                   earliest := if kept == [] then log.highWatermark + 1 else kept[0].offset))
  }

  // ---------------------------------------------------------------- recovery

  /** What the scan of one segment file finds: the records, the bytes they take and whether a torn frame follows. */
  datatype FileScan = FileScan(records: seq<ChangeRecord>, validBytes: nat, torn: bool)

  /** A torn frame is forgiven only at the end of the last segment, and only when the manifest does not promise
      more than the one record that was being read. */
  predicate Forgiven(isLast: bool, promised: Option<nat>, expected: nat) {
    isLast && (promised.None? || promised.value <= expected)
  }

  function ScanFile(o: Options, b: Bytes, expected: nat, isLast: bool, promised: Option<nat>): (s: Option<FileScan>)
    ensures s.Some? ==> s.value.validBytes <= |b|
    decreases |b|
  {
    match o.format.framing.read(b)
    case AtEnd => Some(FileScan([], 0, false))
    case Damaged => None
    case Torn => if Forgiven(isLast, promised, expected) then Some(FileScan([], 0, true)) else None
    case Got(r, n) =>
      if !(0 < n <= |b|) then None
      else if r.partitionId != o.partitionId || r.partitionEpoch != o.partitionEpoch then None
      else if expected != 0 && r.offset != expected then None
      else match ScanFile(o, b[n..], r.offset + 1, isLast, promised)
           case None => None
           case Some(s) => Some(FileScan([r] + s.records, n + s.validBytes, s.torn))
  }

  /** The state of the scan between segments. */
  datatype Scan = Scan(records: seq<ChangeRecord>, expected: nat, lastFirst: nat, torn: bool, disk: Disk)

  function NextExpected(rs: seq<ChangeRecord>, expected: nat): nat {
    if rs == [] then expected else rs[|rs| - 1].offset + 1
  }

  /** The check of a scanned segment against its manifest entry. */
  predicate SegmentAgrees(m: Manifest, entry: SegmentInfo, s: FileScan, torn: bool, isLast: bool, expected: nat) {
    var tolerated := torn && isLast && m.highWatermark == expected;
    && (if s.records == [] then 0 else s.records[0].offset) == entry.first
    && (tolerated || s.validBytes == entry.bytes)
    && (tolerated || LastOffset(s.records) == entry.last)
  }

  /** The scan after a file, whose torn end is cut off. */
  function Merge(name: string, s: Scan, f: FileScan): Scan
    requires name in s.disk && f.validBytes <= |s.disk[name]|
  {
    Scan(s.records + f.records,
         NextExpected(f.records, s.expected),
         if f.records == [] then s.lastFirst else f.records[0].offset,
         s.torn || f.torn,
         if f.torn then s.disk[name := s.disk[name][..f.validBytes]] else s.disk)
  }

  function Promised(m: Option<Manifest>): Option<nat> { if m.Some? then Some(m.value.highWatermark) else None }

  function ScanOne(o: Options, m: Option<Manifest>, names: seq<string>, i: nat, s: Scan): Option<Scan>
    requires i < |names| && (m.Some? ==> |m.value.segments| == |names|)
  {
    if names[i] !in s.disk then None
    else
      var isLast := i + 1 == |names|;
      match ScanFile(o, s.disk[names[i]], s.expected, isLast, Promised(m))
      case None => None
      case Some(f) =>
        var t := Merge(names[i], s, f);
        if m.Some? && !SegmentAgrees(m.value, m.value.segments[i], f, t.torn, isLast, t.expected) then None else Some(t)
  }

  function ScanFrom(o: Options, m: Option<Manifest>, names: seq<string>, i: nat, s: Scan): Option<Scan>
    requires i <= |names| && (m.Some? ==> |m.value.segments| == |names|)
    decreases |names| - i
  {
    if i == |names| then Some(s)
    else match ScanOne(o, m, names, i, s)
         case None => None
         case Some(t) => ScanFrom(o, m, names, i + 1, t)
  }

  /** The check of the recovered state against the manifest's scalars. */
  predicate StateAgrees(m: Manifest, s: Scan, earliest: nat, highWatermark: nat, committed: nat) {
    && earliest == m.earliest
    && ((s.torn && m.highWatermark == s.expected) || highWatermark == m.highWatermark)
    && committed == m.committed
  }

  /** The full history: the snapshot file if it holds records, else the records of the segments. */
  function ReadHistory(o: Options, d: Disk, records: seq<ChangeRecord>): Option<seq<ChangeRecord>> {
    if SNAPSHOT !in d then Some(records)
    else match ReadAll(o.format.framing, d[SNAPSHOT])
         case None => None
         case Some(h) =>
           if exists i :: 0 <= i < |h| && (h[i].partitionId != o.partitionId || h[i].partitionEpoch != o.partitionEpoch)
           then None
           else Some(if h == [] then records else h)
  }

  function SegmentNames(ss: seq<SegmentInfo>): (names: seq<string>)
    ensures |names| == |ss|
  {
    seq(|ss|, i requires 0 <= i < |ss| => ss[i].name)
  }

  function Built(o: Options, names: seq<string>, sorted: seq<string>, s: Scan, history: seq<ChangeRecord>): Log {
    var hw := LastOffset(s.records);
    Log(o, s.records, history, names,
        if s.records == [] then hw + 1 else s.records[0].offset, hw, MaxVersion(s.records),
        if s.records == [] then hw + 1 else s.lastFirst,
        if s.records == [] || sorted == [] then 0 else |Contents(s.disk, sorted[|sorted| - 1])|,
        s.disk)
  }

  /** After the scan: check against the manifest, read the history, write the manifest again. */
  ghost function Finish(m: Option<Manifest>, s: Scan, l: Log): Option<Log> {
    if m.Some? && !StateAgrees(m.value, s, l.earliest, l.highWatermark, l.committed) then None
    else match ReadHistory(l.options, s.disk, s.records)
         case None => None
         case Some(h) =>
           var p := PersistManifest(l.(history := h));
           if p.ok then Some(p.log) else None
  }

  /** Recovery once the manifest has been read. */
  ghost function RecoverFrom(o: Options, d: Disk, m: Option<Manifest>, names: seq<string>,
                             sorted: seq<string>): Option<Log>
    requires m.Some? ==> |m.value.segments| == |sorted|
  {
    match ScanFrom(o, m, sorted, 0, Scan([], 0, 1, false, d))
    case None => None
    case Some(s) => Finish(m, s, Built(o, names, sorted, s, []))
  }

  /** `Open` on a directory: None stands for every error status. */
  ghost function Recover(o: Options, d: Disk): Option<Log>
  {
    if MANIFEST !in d then
      RecoverFrom(o, d, None, [], Listing(SegmentFiles(o.format, d)))
    else
      match o.format.decode(d[MANIFEST])
      case None => None
      case Some(m) =>
        var names := SegmentNames(m.segments);
        var sorted := Sort(names);
        if m.partitionId != o.partitionId || m.partitionEpoch != o.partitionEpoch then None
        else if exists i :: 0 <= i < |names| && names[i] !in d then None
        else RecoverFrom(o, d, Some(m), names, sorted)
  }
}
