/** The partition change log of src/cdc/partition_change_log.cc as an object: its fields are updated in place, frame by
    frame, and every method is tied to what LogSpec says of the log as a value. */
module ChangeLogs {
  import opened Bytes
  import opened ChangeRecords
  import opened Decimal
  import opened Framings
  import opened LogFormats
  import opened Manifests
  import opened LogListing
  import opened LogPaging
  import LogCompaction
  import opened LogSnapshot
  import SnapshotKeys
  import SnapshotReader
  import S = LogSpec
  import opened Wrappers

  // ---------------------------------------------------------------- reading a file frame by frame

  /** What was read so far, and then the rest. */
  function ReadOn(done: seq<ChangeRecord>, rest: Option<seq<ChangeRecord>>): Option<seq<ChangeRecord>> {
    match rest
    case None => None
    case Some(rs) => Some(done + rs)
  }

  lemma ReadOnStep(f: Framing, b: Bytes, done: seq<ChangeRecord>, r: ChangeRecord, n: nat)
    requires f.read(b) == Got(r, n) && 0 < n <= |b|
    ensures ReadOn(done, ReadAll(f, b)) == ReadOn(done + [r], ReadAll(f, b[n..]))
  {
    match ReadAll(f, b[n..]) {
      case None =>
      case Some(rs) => assert done + ([r] + rs) == done + [r] + rs;
    }
  }

  /** `ReadRecordFrameFile`. */
  method ReadFrames(f: Framing, b: Bytes) returns (rs: Option<seq<ChangeRecord>>)
    ensures rs == ReadAll(f, b)
  {
    var pos: nat, done: seq<ChangeRecord> := 0, [];
    assert b[0..] == b;
    assert ReadOn([], ReadAll(f, b)) == ReadAll(f, b) by {
      if ReadAll(f, b).Some? { assert [] + ReadAll(f, b).value == ReadAll(f, b).value; }
    }
    while true
      invariant pos <= |b| && ReadAll(f, b) == ReadOn(done, ReadAll(f, b[pos..]))
      decreases |b| - pos
    {
      match f.read(b[pos..]) {
        case AtEnd =>
          assert done + [] == done;
          return Some(done);
        case Torn => return None;
        case Damaged => return None;
        case Got(r, n) =>
          if !(0 < n <= |b| - pos) { return None; }
          ReadOnStep(f, b[pos..], done, r, n);
          assert b[pos..][n..] == b[pos + n..];
          done := done + [r];
          pos := pos + n;
      }
    }
  }

  lemma {:induction false} FirstOffsetMore(rs: seq<ChangeRecord>, r: ChangeRecord)
    ensures S.FirstOffset(rs + [r]) == if S.FirstOffset(rs) == 0 then r.offset else S.FirstOffset(rs)
  {
    if rs == [] {
      assert rs + [r] == [r];
      assert S.FirstOffset([r][1..]) == 0;
    } else {
      assert (rs + [r])[1..] == rs[1..] + [r];
      FirstOffsetMore(rs[1..], r);
    }
  }

  /** `ReadSegmentRange`: the first and last offset of a segment file and its size. */
  method ReadSegmentRange(f: Format, d: S.Disk, name: string) returns (info: Option<SegmentInfo>)
    ensures info == S.SegmentRange(f, d, name)
  {
    if name !in d { return None; }
    var b := d[name];
    var pos: nat, first: nat, last: nat := 0, 0, 0;
    ghost var done: seq<ChangeRecord> := [];
    assert b[0..] == b;
    assert ReadOn([], ReadAll(f.framing, b)) == ReadAll(f.framing, b) by {
      if ReadAll(f.framing, b).Some? { assert [] + ReadAll(f.framing, b).value == ReadAll(f.framing, b).value; }
    }
    while true
      invariant pos <= |b| && ReadAll(f.framing, b) == ReadOn(done, ReadAll(f.framing, b[pos..]))
      invariant first == S.FirstOffset(done) && last == S.LastOffset(done)
      decreases |b| - pos
    {
      match f.framing.read(b[pos..]) {
        case AtEnd =>
          assert done + [] == done;
          return Some(SegmentInfo(name, first, last, |b|));
        case Torn => return None;
        case Damaged => return None;
        case Got(r, n) =>
          if !(0 < n <= |b| - pos) { return None; }
          ReadOnStep(f.framing, b[pos..], done, r, n);
          assert b[pos..][n..] == b[pos + n..];
          FirstOffsetMore(done, r);
          if first == 0 { first := r.offset; }
          last := r.offset;
          done := done + [r];
          pos := pos + n;
      }
    }
  }

  /** What the scan has found so far, and then the rest. */
  function ScanOn(done: seq<ChangeRecord>, bytes: nat, rest: Option<S.FileScan>): Option<S.FileScan> {
    match rest
    case None => None
    case Some(s) => Some(S.FileScan(done + s.records, bytes + s.validBytes, s.torn))
  }

  lemma ScanOnNothing(rest: Option<S.FileScan>)
    ensures ScanOn([], 0, rest) == rest
  {
    if rest.Some? { assert [] + rest.value.records == rest.value.records; }
  }

  lemma ScanOnStep(o: S.Options, b: Bytes, expected: nat, isLast: bool, promised: Option<nat>, done: seq<ChangeRecord>,
                   bytes: nat,
                   r: ChangeRecord, n: nat)
    requires o.format.framing.read(b) == Got(r, n) && 0 < n <= |b|
    requires r.partitionId == o.partitionId && r.partitionEpoch == o.partitionEpoch
             && (expected == 0 || r.offset == expected)
    ensures ScanOn(done, bytes, S.ScanFile(o, b, expected, isLast, promised)) ==
            ScanOn(done + [r], bytes + n, S.ScanFile(o, b[n..], r.offset + 1, isLast, promised))
  {
    match S.ScanFile(o, b[n..], r.offset + 1, isLast, promised) {
      case None =>
      case Some(s) => assert done + ([r] + s.records) == done + [r] + s.records;
    }
  }

  /** What the scan does at a frame boundary: stop with a verdict, or take the record and go on. */
  datatype Verdict = Stop(result: Option<S.FileScan>) | Take(record: ChangeRecord, size: nat)

  function Look(o: S.Options, b: Bytes, expected: nat, isLast: bool, promised: Option<nat>): (v: Verdict)
    ensures v.Take? ==> 0 < v.size <= |b|
  {
    match o.format.framing.read(b)
    case AtEnd => Stop(Some(S.FileScan([], 0, false)))
    case Torn =>
      if !isLast || (promised.Some? && promised.value > expected) then Stop(None)
          else Stop(Some(S.FileScan([], 0, true)))
    case Damaged => Stop(None)
    case Got(r, n) =>
      if !(0 < n <= |b|) then Stop(None)
      else if r.partitionId != o.partitionId || r.partitionEpoch != o.partitionEpoch then Stop(None)
      else if expected != 0 && r.offset != expected then Stop(None)
      else Take(r, n)
  }

  lemma LookStops(o: S.Options, b: Bytes, expected: nat, isLast: bool, promised: Option<nat>)
    ensures var v := Look(o, b, expected, isLast, promised);
            v.Stop? ==> S.ScanFile(o, b, expected, isLast, promised) == v.result
  {
  }

  lemma LookTakes(o: S.Options, b: Bytes, expected: nat, isLast: bool, promised: Option<nat>, done: seq<ChangeRecord>,
                  bytes: nat)
    requires Look(o, b, expected, isLast, promised).Take?
    ensures var v := Look(o, b, expected, isLast, promised);
            ScanOn(done, bytes, S.ScanFile(o, b, expected, isLast, promised)) ==
            ScanOn(done + [v.record], bytes + v.size, S.ScanFile(o, b[v.size..], v.record.offset + 1, isLast, promised))
  {
    var v := Look(o, b, expected, isLast, promised);
    ScanOnStep(o, b, expected, isLast, promised, done, bytes, v.record, v.size);
  }

  /** What has been read and what is still to be read make up the whole scan. */
  ghost predicate Scanning(all: Option<S.FileScan>, o: S.Options, done: seq<ChangeRecord>, bytes: nat, rest: Bytes,
                           expected: nat,
                           isLast: bool, promised: Option<nat>)
  {
    all == ScanOn(done, bytes, S.ScanFile(o, rest, expected, isLast, promised))
  }

  lemma ScanningStarts(o: S.Options, b: Bytes, expected: nat, isLast: bool, promised: Option<nat>)
    ensures Scanning(S.ScanFile(o, b, expected, isLast, promised), o, [], 0, b[0..], expected, isLast, promised)
  {
    assert b[0..] == b;
    ScanOnNothing(S.ScanFile(o, b, expected, isLast, promised));
  }

  lemma ScanningStops(all: Option<S.FileScan>, o: S.Options, done: seq<ChangeRecord>, pos: nat, b: Bytes, expected: nat,
                      isLast: bool,
                      promised: Option<nat>)
    requires pos <= |b| && Scanning(all, o, done, pos, b[pos..], expected, isLast, promised)
    requires Look(o, b[pos..], expected, isLast, promised).Stop?
    ensures all == ScanOn(done, pos, Look(o, b[pos..], expected, isLast, promised).result)
  {
    LookStops(o, b[pos..], expected, isLast, promised);
  }

  lemma ScanningTakes(all: Option<S.FileScan>, o: S.Options, done: seq<ChangeRecord>, pos: nat, b: Bytes, expected: nat,
                      isLast: bool,
                      promised: Option<nat>)
    requires pos <= |b| && Scanning(all, o, done, pos, b[pos..], expected, isLast, promised)
    requires Look(o, b[pos..], expected, isLast, promised).Take?
    ensures var t := Look(o, b[pos..], expected, isLast, promised);
            0 < t.size && pos + t.size <= |b| &&
            Scanning(all, o, done + [t.record], pos + t.size, b[pos + t.size..], t.record.offset + 1, isLast, promised)
  {
    var t := Look(o, b[pos..], expected, isLast, promised);
    LookTakes(o, b[pos..], expected, isLast, promised, done, pos);
    assert b[pos..][t.size..] == b[pos + t.size..];
  }

  method ScanSegment(o: S.Options, b: Bytes, start: nat, isLast: bool,
                     promised: Option<nat>) returns (s: Option<S.FileScan>)
    ensures s == S.ScanFile(o, b, start, isLast, promised)
  {
    var pos: nat, expected: nat, done: seq<ChangeRecord> := 0, start, [];
    ghost var all := S.ScanFile(o, b, start, isLast, promised);
    ScanningStarts(o, b, start, isLast, promised);
    while true
      invariant pos <= |b| && Scanning(all, o, done, pos, b[pos..], expected, isLast, promised)
      decreases |b| - pos
    {
      var t := Look(o, b[pos..], expected, isLast, promised);
      if t.Stop? {
        ScanningStops(all, o, done, pos, b, expected, isLast, promised);
        return ScanOn(done, pos, t.result);
      }
      ScanningTakes(all, o, done, pos, b, expected, isLast, promised);
      done, expected, pos := done + [t.record], t.record.offset + 1, pos + t.size;
    }
  }

  // ---------------------------------------------------------------- listing a directory

  lemma {:induction false} InsertAscends(x: string, s: seq<string>)
    requires S.Ascending(s) && x !in s
    ensures S.Ascending(S.Insert(x, s))
    ensures forall y :: y in S.Insert(x, s) <==> y == x || y in s
  {
    if s == [] || Before(x, s[0]) {
      var t := [x] + s;
      forall i, j | 0 <= i < j < |t|
        ensures Before(t[i], t[j])
      {
        if i == 0 && j > 1 { BeforeTransitive(x, s[0], s[j - 1]); }
      }
    } else {
      InsertAscends(x, s[1..]);
      var rest := S.Insert(x, s[1..]);
      var t := [s[0]] + rest;
      BeforeTotal(x, s[0]);
      forall i, j | 0 <= i < j < |t|
        ensures Before(t[i], t[j])
      {
        if i == 0 {
          assert rest[j - 1] in rest;
          if rest[j - 1] != x {
            var k :| 0 <= k < |s[1..]| && s[1..][k] == rest[j - 1];
            assert Before(s[0], s[k + 1]);
          }
        } else {
          assert Before(rest[i - 1], rest[j - 1]);
        }
      }
      assert s == [s[0]] + s[1..];
    }
  }

  /** Directory entries come in any order and are sorted by name. */
  method ListSegments(f: Format, d: S.Disk) returns (s: seq<string>)
    ensures s == S.Listing(S.SegmentFiles(f, d))
  {
    var files := S.SegmentFiles(f, d);
    var left := files;
    s := [];
    while left != {}
      invariant left <= files && S.Ascending(s) && (set x | x in s) == files - left
      decreases left
    {
      var x :| x in left;
      assert x !in s;
      InsertAscends(x, s);
      var t := S.Insert(x, s);
      assert (set y | y in t) == (set y | y in s) + {x};
      s := t;
      left := left - {x};
    }
    ListingOf(files, s);
  }

  // ---------------------------------------------------------------- the log

  /** The size of a record as the fetch limits count it. */
  function PayloadSize(o: S.Options, r: ChangeRecord): nat {
    var n := |o.format.framing.frame(r)|;
    if n < HEADER_BYTES then 0 else n - HEADER_BYTES
  }

  function SizesOf(o: S.Options): Sizes { r => PayloadSize(o, r) }

  function LogicalKeys(): Keys { r => SnapshotKeys.Key(r) }

  /** What the manifest step of a rewriting leaves. */
  ghost function Written(start: S.Log): S.Outcome {
    var w := S.RewriteAll(start.options, start.records);
    S.PersistManifest(start.(names := w.names, disk := S.Rename(start.disk, w, |w.names|)))
  }

  /** The end of a rewriting. */
  lemma RewriteDone(start: S.Log, d: S.Disk, first: nat, size: nat)
    requires var w, p := S.RewriteAll(start.options, start.records), Written(start);
             && p.ok && d == p.log.disk - (S.SegmentFiles(start.options.format, start.disk) - set x | x in w.names)
             && (if start.records == [] || w.names == [] then first == start.highWatermark + 1 && size == 0
                 else
                   var last := w.names[|w.names| - 1];
                   first == start.options.format.number(last) && size == |S.Contents(d, last)|)
    ensures S.Rewrite(start) == S.Outcome(Written(start).log.(disk := d, activeFirst := first, activeSize := size),
            true)
  {
  }

  class PartitionChangeLog {
    const options: S.Options
    var records: seq<ChangeRecord>
    var history: seq<ChangeRecord>
    var names: seq<string>
    var earliest: nat
    var highWatermark: nat
    var committed: nat
    var activeFirst: nat
    var activeSize: nat
    var disk: S.Disk

    /** The log as a value. */
    function View(): S.Log
      reads this
    {
      S.Log(options, records, history, names, earliest, highWatermark, committed, activeFirst, activeSize, disk)
    }

    /** A log object on a directory, before `Recover` has looked at it. */
    constructor (o: S.Options, d: S.Disk)
      ensures options == o && View() == S.Log(o, [], [], [], 1, 0, 0, 1, 0, d)
    {
      options, disk := o, d;
      records, history, names := [], [], [];
      earliest, highWatermark, committed, activeFirst, activeSize := 1, 0, 0, 1, 0;
    }

    method AppendRecordFrame(r: ChangeRecord) returns (ok: bool)
      modifies this
      ensures ok == options.format.framing.fits(r)
      ensures View() == if ok then S.AppendBytes(old(View()), r, options.format.framing.frame(r)) else old(View())
    {
      if !options.format.framing.fits(r) { return false; }
      var frame := options.format.framing.frame(r);
      if activeSize > 0 && activeSize + |frame| > options.maxSegmentBytes {
        activeFirst := r.offset;
        activeSize := 0;
      }
      var name := options.format.name(activeFirst);
      if activeSize == 0 {
        if name !in names { names := names + [name]; }
      }
      disk := disk[name := S.Contents(disk, name) + frame];
      activeSize := activeSize + |frame|;
      return true;
    }

    method AppendRecord(r: ChangeRecord) returns (ok: bool)
      modifies this
      ensures ok == options.format.framing.fits(r)
      ensures View() == if ok then S.AppendFrame(old(View()), r) else old(View())
    {
      ok := AppendRecordFrame(r);
      if ok {
        records := records + [r];
        history := history + [r];
      }
    }

    /** The loop of `AppendCommittedBatch`: frames until one cannot be serialised. */
    method AppendAll(version: nat, changes: seq<ChangeRecord>, ghost batch: seq<ChangeRecord>) returns (n: nat)
      requires |batch| == |changes|
      requires forall i :: 0 <= i < |changes| ==>
                 batch[i] == S.Stamp(options, version, changes[i], highWatermark + 1 + i, i, |changes|)
      modifies this
      ensures n <= |changes| && AllFit(options.format.framing, batch[..n])
      ensures n < |changes| ==> !options.format.framing.fits(batch[n])
      ensures View() == S.AppendFrames(old(View()), batch[..n])
    {
      var next := highWatermark + 1;
      n := 0;
      assert batch[..0] == [];
      while n < |changes|
        invariant n <= |changes| && AllFit(options.format.framing, batch[..n])
        invariant View() == S.AppendFrames(old(View()), batch[..n])
      {
        var r := S.Stamp(options, version, changes[n], next + n, n, |changes|);
        assert r == batch[n];
        var ok := AppendRecord(r);
        if !ok { return; }
        FitMore(options.format.framing, batch, n);
        AppendFramesMore(old(View()), batch, n);
        n := n + 1;
      }
    }

    /** `PersistSnapshotRecordsLocked`: all frames of the history, then the rename. */
    method PersistSnapshot()
      modifies this`disk
      ensures View() == S.PersistSnapshot(old(View()))
    {
      var b: Bytes := [];
      var i := 0;
      assert history[..0] == [];
      while i < |history|
        invariant i <= |history| && b == FrameList(options.format.framing, history[..i])
        invariant disk == old(disk)
      {
        assert history[..i + 1] == history[..i] + [history[i]];
        FrameListConcat(options.format.framing, history[..i], [history[i]]);
        FrameListOne(options.format.framing, history[i]);
        b := b + options.format.framing.frame(history[i]);
        i := i + 1;
      }
      assert history[..i] == history;
      disk := disk[SNAPSHOT := b];
    }

    /** `PersistManifestLocked`: the ranges of the listed segments in name order, then the rename. */
    method PersistManifest() returns (ok: bool)
      modifies this`disk
      ensures S.Outcome(View(), ok) == S.PersistManifest(old(View()))
    {
      var sorted;
      if names != [] {
        sorted := S.Sort(names);
      } else {
        sorted := ListSegments(options.format, disk);
      }
      assert sorted == S.NamesToPersist(View());
      var segments := ReadRanges(sorted);
      if segments.None? { return false; }
      disk := disk[MANIFEST := options.format.encode(S.ManifestOf(View(), segments.value))];
      return true;
    }

    /** Appends a committed batch: stamps it, writes its frames, advances the counters, then replaces the snapshot file
        and the manifest. A record that cannot be serialised stops it where it is. */
    method AppendCommittedBatch(version: nat, changes: seq<ChangeRecord>) returns (ok: bool)
      modifies this
      ensures var batch := S.StampAll(options, version, changes, old(highWatermark) + 1);
              if AllFit(options.format.framing, batch) then S.Outcome(View(), ok)
                  == S.Append(old(View()), version, batch)
              else !ok && exists n :: 0 <= n < |batch| && !options.format.framing.fits(batch[n]) &&
                                      View() == S.AppendFrames(old(View()), batch[..n])
    {
      ghost var batch := S.StampAll(options, version, changes, highWatermark + 1);
      var n := AppendAll(version, changes, batch);
      if n < |changes| { return false; }
      assert batch[..n] == batch;
      ghost var framed := View();
      if changes != [] {
        highWatermark := highWatermark + |changes|;
        committed := S.Max(committed, version);
        if earliest == 0 && records != [] { earliest := records[0].offset; }
      }
      assert View() == S.Advance(framed, version, |batch|);
      PersistSnapshot();
      ok := PersistManifest();
    }

    /** The next records after an offset, within the limits of the caller and of the log. */
    method ReadAfter(offset: nat, limitRecords: nat, limitBytes: nat) returns (page: Option<seq<ChangeRecord>>)
      ensures AllFit(options.format.framing, records) ==>
                page == Some(Page(SizesOf(options), records, offset, Min(limitRecords, options.maxFetchRecords),
                                  Min(limitBytes, options.maxFetchBytes)))
    {
      var count, limit := Min(limitRecords, options.maxFetchRecords), Min(limitBytes, options.maxFetchBytes);
      var out: seq<ChangeRecord> := [];
      if count == 0 || limit == 0 { return Some(out); }
      var bytes := 0;
      var i := 0;
      ghost var size := SizesOf(options);
      ghost var goal := Page(size, records, offset, count, limit);
      FilledStart(size, records, offset, count, limit);
      while i < |records|
        invariant i <= |records| && |out| < count && bytes <= limit && (out == [] ==> bytes == 0)
        invariant goal == Filled(size, records, offset, count, limit, i, out, bytes)
      {
        var r := records[i];
        FilledStep(size, records, offset, count, limit, i, out, bytes);
        if r.offset > offset {
          if !options.format.framing.fits(r) { return None; }
          var n := PayloadSize(options, r);
          if out != [] && bytes + n > limit { return Some(out); }
          if out == [] && n > limit { return Some(out); }
          out := out + [r];
          bytes := bytes + n;
          if |out| >= count {
            FilledEnd(size, records, offset, count, limit, i + 1, out, bytes);
            return Some(out);
          }
        }
        i := i + 1;
      }
      FilledEnd(size, records, offset, count, limit, i, out, bytes);
      return Some(out);
    }

    /** Drops the records below an offset and rewrites the segments. */
    method Compact(retainFrom: nat) returns (ok: bool)
      modifies this
      ensures AllFit(options.format.framing, old(records)) ==>
                S.Outcome(View(), ok) == S.Compact(old(View()), retainFrom)
    {
      if retainFrom == 0 || retainFrom <= earliest { return true; }
      var kept := RetainFrom(records, retainFrom);
      RetainedFit(options.format.framing, records, retainFrom);
      records := kept;
      earliest := if records == [] then highWatermark + 1 else records[0].offset;
      ok := RewriteSegments();
    }

    /** The rewriting loop: the packing of the records into names and contents. */
    method PackRecords() returns (contents: seq<Bytes>, ok: bool)
      modifies this`names, this`activeSize
      ensures AllFit(options.format.framing, records) ==>
                ok && S.Rewriting(names, contents, activeSize) == S.RewriteAll(options, records)
      ensures |names| == |contents|
    {
      names := [];
      contents := [];
      activeSize := 0;
      var i := 0;
      assert records[..0] == [];
      while i < |records|
        invariant i <= |records| && S.Rewriting(names, contents, activeSize) == S.RewriteAll(options, records[..i])
      {
        var r := records[i];
        if !options.format.framing.fits(r) { return contents, false; }
        RewriteMore(options, records, i);
        var frame := options.format.framing.frame(r);
        if activeSize == 0 || activeSize + |frame| > options.maxSegmentBytes {
          names := names + [options.format.name(r.offset)];
          contents := contents + [[]];
          activeSize := 0;
        }
        var k := |contents| - 1;
        assert activeSize == 0 ==> [] + frame == frame;
        contents := contents[k := contents[k] + frame];
        activeSize := activeSize + |frame|;
        i := i + 1;
      }
      assert records[..i] == records;
      return contents, true;
    }

    method RenameAll(contents: seq<Bytes>)
      requires |names| == |contents|
      modifies this`disk
      ensures disk == S.Rename(old(disk), S.Rewriting(names, contents, activeSize), |names|)
    {
      var k := 0;
      while k < |names|
        invariant k <= |names| && disk == S.Rename(old(disk), S.Rewriting(names, contents, activeSize), k)
      {
        disk := disk[names[k] := contents[k]];
        k := k + 1;
      }
    }

    method RemoveAll(files: set<string>)
      modifies this`disk
      ensures disk == old(disk) - files
    {
      var left := files;
      while left != {}
        invariant left <= files && disk == old(disk) - (files - left)
        decreases left
      {
        var x :| x in left;
        disk := disk - {x};
        left := left - {x};
      }
      assert files - left == files;
    }

    /** `RewriteSegmentsLocked`: write the packing to temporary files, rename them, write the manifest, remove the old
        segments. */
    method WriteSegments() returns (ok: bool)
      modifies this
      ensures AllFit(options.format.framing, old(records)) ==>
                var start, w := old(View()), S.RewriteAll(options, old(records));
                ok == Written(start).ok && View() == Written(start).log.(activeSize := w.size)
    {
      ghost var start := View();
      var contents;
      contents, ok := PackRecords();
      if !ok { return; }
      RenameAll(contents);
      ghost var renamed := start.(names := names, disk := disk);
      assert View() == renamed.(activeSize := activeSize);
      LogCompaction.PersistIgnoresActive(renamed, renamed.activeFirst, activeSize);
      ok := PersistManifest();
    }

    method RewriteSegments() returns (ok: bool)
      modifies this
      ensures AllFit(options.format.framing, old(records)) ==> S.Outcome(View(), ok) == S.Rewrite(old(View()))
    {
      ghost var start := View();
      var oldFiles := S.SegmentFiles(options.format, disk);
      ok := WriteSegments();
      if !ok { return; }
      RemoveAll(oldFiles - set x | x in names);
      if records == [] || names == [] {
        activeFirst, activeSize := highWatermark + 1, 0;
      } else {
        var last := names[|names| - 1];
        activeFirst, activeSize := options.format.number(last), |S.Contents(disk, last)|;
      }
      if AllFit(start.options.format.framing, start.records) { RewriteDone(start, disk, activeFirst, activeSize); }
    }

    /** The loop of `Recover` over the segments: records are taken over and torn tails cut off as they are met. */
    method ScanSegments(m: Option<Manifest>, sorted: seq<string>) returns (ok: bool, s: S.Scan)
      requires m.Some? ==> |m.value.segments| == |sorted|
      modifies this`records, this`disk
      ensures var r := S.ScanFrom(options, m, sorted, 0, S.Scan([], 0, 1, false, old(disk)));
              ok == r.Some? && (ok ==> r.value == s && records == s.records && disk == s.disk)
    {
      s := S.Scan([], 0, 1, false, disk);
      records := [];
      var i := 0;
      while i < |sorted|
        invariant i <= |sorted| && records == s.records && disk == s.disk
        invariant S.ScanFrom(options, m, sorted, 0, S.Scan([], 0, 1, false, old(disk)))
                  == S.ScanFrom(options, m, sorted, i, s)
      {
        if sorted[i] !in disk { return false, s; }
        var isLast := i + 1 == |sorted|;
        var f := ScanSegment(options, disk[sorted[i]], s.expected, isLast, S.Promised(m));
        if f.None? { return false, s; }
        var t := S.Merge(sorted[i], s, f.value);
        if m.Some? && !S.SegmentAgrees(m.value, m.value.segments[i], f.value, t.torn, isLast,
            t.expected) { return false, s; }
        records := t.records;
        disk := t.disk;
        s := t;
        i := i + 1;
      }
      return true, s;
    }

    /** The state that a scan leaves behind, and the history from the snapshot file. */
    method TakeOver(m: Option<Manifest>, sorted: seq<string>, s: S.Scan) returns (ok: bool)
      requires records == s.records && disk == s.disk
      modifies this
      ensures S.Finish(m, s, S.Built(options, old(names), sorted, s, [])) == if ok then Some(View()) else None
    {
      highWatermark := S.LastOffset(records);
      committed := HighestVersion(records);
      if records == [] {
        earliest, activeFirst, activeSize := highWatermark + 1, highWatermark + 1, 0;
      } else {
        earliest, activeFirst := records[0].offset, s.lastFirst;
        activeSize := if sorted == [] then 0 else |S.Contents(disk, sorted[|sorted| - 1])|;
      }
      history := [];
      assert View() == S.Built(options, names, sorted, s, []);
      if m.Some? && !S.StateAgrees(m.value, s, earliest, highWatermark, committed) { return false; }
      var h := ReadHistory();
      if h.None? { return false; }
      history := h.value;
      ok := PersistManifest();
    }

    method ReadHistory() returns (h: Option<seq<ChangeRecord>>)
      ensures h == S.ReadHistory(options, disk, records)
    {
      if SNAPSHOT !in disk { return Some(records); }
      var rs := ReadFrames(options.format.framing, disk[SNAPSHOT]);
      if rs.None? { return None; }
      var i := 0;
      while i < |rs.value|
        invariant i <= |rs.value|
        invariant forall j :: 0 <= j < i ==>
                    rs.value[j].partitionId == options.partitionId
                        && rs.value[j].partitionEpoch == options.partitionEpoch
      {
        if rs.value[i].partitionId != options.partitionId
            || rs.value[i].partitionEpoch != options.partitionEpoch { return None; }
        i := i + 1;
      }
      return Some(if rs.value == [] then records else rs.value);
    }

    /** `Recover`: rebuilds the log from its directory, or refuses it. */
    method Recover() returns (ok: bool)
      modifies this
      ensures S.Recover(options, old(disk)) == if ok then Some(View()) else None
    {
      names := [];
      var m: Option<Manifest> := None;
      var sorted: seq<string>;
      if MANIFEST in disk {
        m := options.format.decode(disk[MANIFEST]);
        if m.None? { return false; }
        if m.value.partitionId != options.partitionId
            || m.value.partitionEpoch != options.partitionEpoch { return false; }
        var listed := S.SegmentNames(m.value.segments);
        var i := 0;
        while i < |listed|
          invariant i <= |listed| && disk == old(disk) && forall j :: 0 <= j < i ==> listed[j] in disk
        {
          if listed[i] !in disk { return false; }
          i := i + 1;
        }
        names := listed;
        sorted := S.Sort(listed);
      } else {
        sorted := ListSegments(options.format, disk);
      }
      var s;
      ok, s := ScanSegments(m, sorted);
      if !ok { return; }
      ok := TakeOver(m, sorted, s);
    }

    /** The latest record of every key up to a version, sorted, renumbered and cut to a page. */
    method SnapshotRecords(version: nat, after: nat, limitRecords: nat, limitBytes: nat)
      returns (page: Option<seq<ChangeRecord>>, ghost rs: seq<ChangeRecord>)
      ensures IsFold(LogicalKeys(), history, version, rs)
      ensures page == SnapshotPage(SizesOf(options), rs, after, Min(limitRecords, options.maxFetchRecords),
                                   Min(limitBytes, options.maxFetchBytes))
    {
      var count, limit := Min(limitRecords, options.maxFetchRecords), Min(limitBytes, options.maxFetchBytes);
      var latest := SnapshotReader.FoldLatest(LogicalKeys(), history, version);
      LatestFiled(LogicalKeys(), history, version);
      var folded := SnapshotReader.CollectLive(LogicalKeys(), latest);
      if count == 0 || limit == 0 { return Some([]), folded; }
      page := SnapshotReader.FillSnapshotPage(SizesOf(options), folded, after, count, limit);
      return page, folded;
    }

    method ReadRanges(sorted: seq<string>) returns (segments: Option<seq<SegmentInfo>>)
      ensures segments == S.SegmentRanges(options.format, disk, sorted)
    {
      var done: seq<SegmentInfo> := [];
      var i := 0;
      assert sorted[0..] == sorted;
      RangesNothing(S.SegmentRanges(options.format, disk, sorted));
      while i < |sorted|
        invariant i <= |sorted|
        invariant S.SegmentRanges(options.format, disk, sorted) ==
                  RangesOn(done, S.SegmentRanges(options.format, disk, sorted[i..]))
      {
        var info := ReadSegmentRange(options.format, disk, sorted[i]);
        if info.None? { return None; }
        RangesOnStep(options.format, disk, sorted[i..], done, info.value);
        assert sorted[i..][1..] == sorted[i + 1..];
        done := done + [info.value];
        i := i + 1;
      }
      assert done + [] == done;
      return Some(done);
    }
  }

  /** `erase(remove_if(...))`. */
  method RetainFrom(rs: seq<ChangeRecord>, from: nat) returns (kept: seq<ChangeRecord>)
    ensures kept == S.Retained(rs, from)
  {
    kept := [];
    var i := 0;
    assert rs[0..] == rs && [] + S.Retained(rs, from) == S.Retained(rs, from);
    while i < |rs|
      invariant i <= |rs| && S.Retained(rs, from) == kept + S.Retained(rs[i..], from)
    {
      RetainedStep(rs, i, from, kept);
      if rs[i].offset >= from { kept := kept + [rs[i]]; }
      i := i + 1;
    }
    assert kept + [] == kept;
  }

  lemma {:induction false} RetainedFit(f: Framing, rs: seq<ChangeRecord>, from: nat)
    ensures AllFit(f, rs) ==> AllFit(f, S.Retained(rs, from))
  {
    if rs != [] && AllFit(f, rs) { RetainedFit(f, rs[1..], from); }
  }

  lemma RetainedStep(rs: seq<ChangeRecord>, i: nat, from: nat, kept: seq<ChangeRecord>)
    requires i < |rs|
    ensures kept + S.Retained(rs[i..], from) ==
            (if rs[i].offset >= from then kept + [rs[i]] else kept) + S.Retained(rs[i + 1..], from)
  {
    assert rs[i..][1..] == rs[i + 1..];
    var rest := S.Retained(rs[i + 1..], from);
    assert kept + ([rs[i]] + rest) == kept + [rs[i]] + rest;
    assert [] + rest == rest;
  }

  lemma RewriteMore(o: S.Options, rs: seq<ChangeRecord>, i: nat)
    requires i < |rs|
    ensures S.RewriteAll(o, rs[..i + 1]) == S.RewriteOne(o, S.RewriteAll(o, rs[..i]), rs[i])
  {
    assert rs[..i + 1][..i] == rs[..i];
  }

  method HighestVersion(rs: seq<ChangeRecord>) returns (v: nat)
    ensures v == S.MaxVersion(rs)
  {
    v := 0;
    var i := 0;
    assert rs[..0] == [];
    while i < |rs|
      invariant i <= |rs| && v == S.MaxVersion(rs[..i])
    {
      assert rs[..i + 1][..i] == rs[..i];
      v := S.Max(v, rs[i].commitVersion);
      i := i + 1;
    }
    assert rs[..i] == rs;
  }

  lemma FitMore(f: Framing, batch: seq<ChangeRecord>, n: nat)
    requires n < |batch| && AllFit(f, batch[..n]) && f.fits(batch[n])
    ensures AllFit(f, batch[..n + 1])
  {
  }

  lemma AppendFramesMore(log: S.Log, batch: seq<ChangeRecord>, n: nat)
    requires n < |batch|
    ensures S.AppendFrames(log, batch[..n + 1]) == S.AppendFrame(S.AppendFrames(log, batch[..n]), batch[n])
  {
    assert batch[..n + 1][..n] == batch[..n];
  }

  function RangesOn(done: seq<SegmentInfo>, rest: Option<seq<SegmentInfo>>): Option<seq<SegmentInfo>> {
    match rest
    case None => None
    case Some(ss) => Some(done + ss)
  }

  lemma RangesNothing(rest: Option<seq<SegmentInfo>>)
    ensures RangesOn([], rest) == rest
  {
    if rest.Some? { assert [] + rest.value == rest.value; }
  }

  lemma RangesOnStep(f: Format, d: S.Disk, names: seq<string>, done: seq<SegmentInfo>, info: SegmentInfo)
    requires names != [] && S.SegmentRange(f, d, names[0]) == Some(info)
    ensures RangesOn(done, S.SegmentRanges(f, d, names)) == RangesOn(done + [info], S.SegmentRanges(f, d, names[1..]))
  {
    match S.SegmentRanges(f, d, names[1..]) {
      case None =>
      case Some(ss) => assert done + ([info] + ss) == done + [info] + ss;
    }
  }
}
