/** Compaction: rewriting the retained records, and why it can be interrupted anywhere. */
module LogCompaction {
  import opened ChangeRecords
  import opened Framings
  import opened LogFormats
  import opened Manifests
  import opened Segments
  import opened LogSpec
  import opened LogInvariant
  import opened LogRecovery
  import opened Wrappers

  // ---------------------------------------------------------------- the rewritten files are the packing

  predicate FileWritten(o: Options, w: Rewriting, segments: seq<Segment>, i: nat)
    requires |w.names| == |w.contents| == |segments| && i < |segments|
  {
    segments[i] != [] && w.names[i] == NameOf(o, segments[i])
        && w.contents[i] == FrameList(o.format.framing, segments[i])
  }

  predicate Writes(o: Options, w: Rewriting, segments: seq<Segment>) {
    && |w.names| == |w.contents| == |segments|
    && (forall i :: 0 <= i < |segments| ==> FileWritten(o, w, segments, i))
    && w.size == if segments == [] then 0 else Size(o.format.framing, segments[|segments| - 1])
  }

  lemma RewriteNew(o: Options, w: Rewriting, segments: seq<Segment>, r: ChangeRecord)
    requires Writes(o, w, segments)
    ensures var b := o.format.framing.frame(r);
            Writes(o, Rewriting(w.names + [o.format.name(r.offset)], w.contents + [b], |b|), segments + [[r]])
  {
    var b := o.format.framing.frame(r);
    var x := Rewriting(w.names + [o.format.name(r.offset)], w.contents + [b], |b|);
    FrameListOne(o.format.framing, r);
    forall i | 0 <= i < |segments| + 1
      ensures FileWritten(o, x, segments + [[r]], i)
    {
      if i < |segments| { assert FileWritten(o, w, segments, i); }
    }
  }

  lemma RewriteMore(o: Options, w: Rewriting, segments: seq<Segment>, r: ChangeRecord)
    requires Writes(o, w, segments) && segments != []
    ensures var b, k := o.format.framing.frame(r), |segments| - 1;
            Writes(o, Rewriting(w.names, w.contents[k := w.contents[k] + b], w.size + |b|),
                segments[..k] + [segments[k] + [r]])
  {
    var b, k := o.format.framing.frame(r), |segments| - 1;
    var x, t := Rewriting(w.names, w.contents[k := w.contents[k] + b], w.size + |b|),
        segments[..k] + [segments[k] + [r]];
    assert FileWritten(o, w, segments, k);
    FrameListConcat(o.format.framing, segments[k], [r]);
    FrameListOne(o.format.framing, r);
    forall i | 0 <= i < |t|
      ensures FileWritten(o, x, t, i)
    {
      if i < k { assert FileWritten(o, w, segments, i); }
    }
  }

  /** The rewriting loop places every record as an append would. */
  lemma RewriteStep(o: Options, w: Rewriting, segments: seq<Segment>, r: ChangeRecord)
    requires Writes(o, w, segments) && (w.size == 0 ==> segments == [])
    ensures Writes(o, RewriteOne(o, w, r), Place(o.format.framing, o.maxSegmentBytes, segments, r))
  {
    if w.size == 0 || w.size + |o.format.framing.frame(r)| > o.maxSegmentBytes {
      RewriteNew(o, w, segments, r);
    } else {
      RewriteMore(o, w, segments, r);
    }
  }

  /** Nothing is written exactly while there are no segments. */
  lemma WrittenSize(o: Options, most: seq<ChangeRecord>, w: Rewriting, segments: seq<Segment>)
    requires Good(o.format) && Owned(o, most) && Flatten(segments) == most && Writes(o, w, segments)
    ensures w.size == 0 ==> segments == []
  {
    OwnedParts(o, segments);
    if segments != [] {
      assert FileWritten(o, w, segments, |segments| - 1);
      SizePositive(o, segments[|segments| - 1]);
    }
  }

  lemma RewritePacksStep(o: Options, most: seq<ChangeRecord>, r: ChangeRecord)
    requires Good(o.format) && Owned(o, most) && Writes(o, RewriteAll(o, most),
             Pack(o.format.framing, o.maxSegmentBytes, most))
    ensures Writes(o, RewriteOne(o, RewriteAll(o, most), r), Pack(o.format.framing, o.maxSegmentBytes, most + [r]))
  {
    var f, max := o.format.framing, o.maxSegmentBytes;
    PackFlattens(f, max, most);
    WrittenSize(o, most, RewriteAll(o, most), Pack(f, max, most));
    RewriteStep(o, RewriteAll(o, most), Pack(f, max, most), r);
    PackLast(f, max, most, r);
  }

  lemma {:induction false} RewritePacks(o: Options, rs: seq<ChangeRecord>)
    requires Good(o.format) && Owned(o, rs)
    ensures Writes(o, RewriteAll(o, rs), Pack(o.format.framing, o.maxSegmentBytes, rs))
    decreases |rs|
  {
    if rs != [] {
      var most, r := rs[..|rs| - 1], rs[|rs| - 1];
      assert rs == most + [r];
      RewritePacks(o, most);
      RewritePacksStep(o, most, r);
    }
  }

  // ---------------------------------------------------------------- renaming

  predicate Distinct(names: seq<string>) {
    forall i, j :: 0 <= i < j < |names| ==> names[i] != names[j]
  }

  lemma {:induction false} Renamed(d: Disk, w: Rewriting, k: nat, name: string)
    requires |w.names| == |w.contents| && k <= |w.names|
    ensures name !in w.names[..k] ==>
              (name in Rename(d, w, k) <==> name in d) && (name in d ==> Rename(d, w, k)[name] == d[name])
    ensures name in w.names[..k] ==> name in Rename(d, w, k)
  {
    if k > 0 {
      Renamed(d, w, k - 1, name);
      assert w.names[..k] == w.names[..k - 1] + [w.names[k - 1]];
    }
  }

  lemma {:induction false} RenamedTo(d: Disk, w: Rewriting, k: nat, i: nat)
    requires |w.names| == |w.contents| && i < k <= |w.names| && Distinct(w.names)
    ensures w.names[i] in Rename(d, w, k) && Rename(d, w, k)[w.names[i]] == w.contents[i]
  {
    if i < k - 1 { RenamedTo(d, w, k - 1, i); }
  }

  // ---------------------------------------------------------------- one name, one content

  /** The segment that starts at index p. */
  function SegmentFrom(f: Framing, max: nat, rs: seq<ChangeRecord>, p: nat): Segment
    requires p < |rs|
  {
    rs[p..][..Reach(f, max, rs[p..])]
  }

  lemma SegmentFromRest(f: Framing, max: nat, rs: seq<ChangeRecord>, q: nat, p: nat)
    requires q + p < |rs|
    ensures SegmentFrom(f, max, rs[q..], p) == SegmentFrom(f, max, rs, q + p)
  {
    assert rs[q..][p..] == rs[q + p..];
  }

  /** Every segment of a packing is the one that starts with its first record, wherever that is. */
  lemma {:induction false} PackSegmentAt(f: Framing, max: nat, rs: seq<ChangeRecord>, segments: seq<Segment>,
                                         i: nat) returns (p: nat)
    requires segments == Pack(f, max, rs) && i < |segments|
    ensures p < |rs| && segments[i] == SegmentFrom(f, max, rs, p)
    decreases |rs|
  {
    if i == 0 {
      p := 0;
      assert rs[0..] == rs;
    } else {
      var n := Reach(f, max, rs);
      PackRest(f, max, rs, n, segments);
      var k := PackSegmentAt(f, max, rs[n..], segments[1..], i - 1);
      SegmentFromRest(f, max, rs, n, k);
      p := n + k;
    }
  }

  lemma PackRest(f: Framing, max: nat, rs: seq<ChangeRecord>, n: nat, segments: seq<Segment>)
    requires rs != [] && n == Reach(f, max, rs) && segments == Pack(f, max, rs)
    ensures segments != [] && segments[1..] == Pack(f, max, rs[n..])
  {
  }

  lemma SegmentStart(f: Framing, max: nat, rs: seq<ChangeRecord>, first: nat, p: nat)
    requires Contiguous(rs, first) && p < |rs|
    ensures var s := SegmentFrom(f, max, rs, p); s != [] && s[0].offset == first + p
  {
  }

  /** Packing a log and packing the end of it give the same segment wherever both start one: append-time and
      rewrite-time packing agree. */
  lemma SameStartSameSegment(f: Framing, max: nat, rs: seq<ChangeRecord>, first: nat, q: nat, i: nat, j: nat)
    requires Contiguous(rs, first) && q <= |rs| && i < |Pack(f, max, rs)| && j < |Pack(f, max, rs[q..])|
    requires Pack(f, max, rs)[i] != [] && Pack(f, max, rs[q..])[j] != []
    requires Pack(f, max, rs)[i][0].offset == Pack(f, max, rs[q..])[j][0].offset
    ensures Pack(f, max, rs)[i] == Pack(f, max, rs[q..])[j]
  {
    var p := PackSegmentAt(f, max, rs, Pack(f, max, rs), i);
    var k := PackSegmentAt(f, max, rs[q..], Pack(f, max, rs[q..]), j);
    SameSegment(f, max, rs, first, q, p, k, Pack(f, max, rs)[i], Pack(f, max, rs[q..])[j]);
  }

  lemma SameSegment(f: Framing, max: nat, rs: seq<ChangeRecord>, first: nat, q: nat, p: nat, k: nat, s: Segment,
                    t: Segment)
    requires Contiguous(rs, first) && q <= |rs| && p < |rs| && k < |rs[q..]|
    requires s == SegmentFrom(f, max, rs, p) && t == SegmentFrom(f, max, rs[q..], k)
    requires s != [] && t != [] && s[0].offset == t[0].offset
    ensures s == t
  {
    SegmentStart(f, max, rs, first, p);
    SegmentStart(f, max, rs, first, q + k);
    SegmentFromRest(f, max, rs, q, k);
  }

  lemma OwnedRest(o: Options, rs: seq<ChangeRecord>, q: nat)
    requires Owned(o, rs) && q <= |rs|
    ensures Owned(o, rs[q..])
  {
  }

  lemma ContiguousRest(rs: seq<ChangeRecord>, first: nat, q: nat)
    requires Contiguous(rs, first) && q <= |rs|
    ensures Contiguous(rs[q..], first + q)
  {
  }

  // ---------------------------------------------------------------- what is retained

  /** Dropping the records below an offset drops a prefix. */
  lemma {:induction false} RetainedIsRest(rs: seq<ChangeRecord>, first: nat, from: nat)
    requires Contiguous(rs, first)
    ensures Retained(rs, from) == if from <= first then rs else if from < first + |rs| then rs[from - first..] else []
    decreases |rs|
  {
    if rs != [] {
      RetainedIsRest(rs[1..], first + 1, from);
      assert rs == [rs[0]] + rs[1..];
      if first < from < first + |rs| { assert rs[1..][from - (first + 1)..] == rs[from - first..]; }
    }
  }

  /** The names of chained segments are different. */
  lemma ChainedNames(o: Options, w: Rewriting, s: seq<Segment>, first: nat)
    requires Good(o.format) && Writes(o, w, s) && Chained(s, first) && first + |Flatten(s)| <= UINT64_MAX
    ensures Distinct(w.names)
  {
    forall i, j | 0 <= i < j < |w.names|
      ensures w.names[i] != w.names[j]
    {
      assert FileWritten(o, w, s, i) && FileWritten(o, w, s, j);
      ChainedAscends(s, first, i, j);
      ChainedBounds(s, first, i);
      ChainedBounds(s, first, j);
      NamesDiffer(o.format, s[i][0].offset, s[j][0].offset);
    }
  }

  lemma StoredByRename(o: Options, d: Disk, w: Rewriting, s: seq<Segment>)
    requires Writes(o, w, s) && Distinct(w.names)
    ensures Stored(o, w.names, Rename(d, w, |w.names|), s)
  {
    forall i | 0 <= i < |s|
      ensures SegmentStored(o, w.names, Rename(d, w, |w.names|), s, i)
    {
      assert FileWritten(o, w, s, i);
      RenamedTo(d, w, |w.names|, i);
    }
  }

  /** What packing and rewriting a run of records give. */
  predicate WellPacked(o: Options, rs: seq<ChangeRecord>, first: nat, s: seq<Segment>, w: Rewriting) {
    s != [] && Chained(s, first) && Flatten(s) == rs && SegmentsOwned(o, s) && Writes(o, w, s) && Distinct(w.names)
  }

  lemma SegmentsOf(o: Options, rs: seq<ChangeRecord>, first: nat)
    requires Good(o.format) && Contiguous(rs, first) && Owned(o, rs) && rs != [] && first + |rs| <= UINT64_MAX
    ensures WellPacked(o, rs, first, Pack(o.format.framing, o.maxSegmentBytes, rs), RewriteAll(o, rs))
  {
    PackChained(o.format.framing, o.maxSegmentBytes, rs, first);
    PackFlattens(o.format.framing, o.maxSegmentBytes, rs);
    OwnedParts(o, Pack(o.format.framing, o.maxSegmentBytes, rs));
    RewritePacks(o, rs);
    ChainedNames(o, RewriteAll(o, rs), Pack(o.format.framing, o.maxSegmentBytes, rs), first);
  }

  // ---------------------------------------------------------------- interrupted before the manifest

  function KeptFiles(log: Log, q: nat): Rewriting
    requires q < |log.records|
  {
    RewriteAll(log.options, log.records[q..])
  }

  function KeptPack(log: Log, q: nat): seq<Segment>
    requires q < |log.records|
  {
    Pack(log.options.format.framing, log.options.maxSegmentBytes, log.records[q..])
  }

  lemma KeptFacts(log: Log, q: nat)
    requires Layout(log) && q < |log.records|
    ensures WellPacked(log.options, log.records[q..], log.earliest + q, KeptPack(log, q), KeptFiles(log, q))
  {
    ContiguousRest(log.records, log.earliest, q);
    OwnedRest(log.options, log.records, q);
    SegmentsOf(log.options, log.records[q..], log.earliest + q);
  }

  lemma FileName(o: Options, rs: seq<ChangeRecord>, first: nat, s: seq<Segment>, w: Rewriting, j: nat)
    requires Writes(o, w, s) && Chained(s, first) && Flatten(s) == rs && j < |s|
    ensures |w.names| == |w.contents| == |s| && s[j] != [] && w.names[j] == o.format.name(s[j][0].offset)
    ensures first <= s[j][0].offset < first + |rs|
  {
    assert FileWritten(o, w, s, j);
    ChainedBounds(s, first, j);
  }

  lemma PackedFileName(o: Options, rs: seq<ChangeRecord>, first: nat, j: nat)
    requires Good(o.format) && Contiguous(rs, first) && Owned(o, rs)
             && j < |Pack(o.format.framing, o.maxSegmentBytes, rs)|
    ensures var s, w := Pack(o.format.framing, o.maxSegmentBytes, rs), RewriteAll(o, rs);
            && |w.names| == |s| && s[j] != [] && w.names[j] == o.format.name(s[j][0].offset)
            && first <= s[j][0].offset < first + |rs|
  {
    var s, w := Pack(o.format.framing, o.maxSegmentBytes, rs), RewriteAll(o, rs);
    PackChained(o.format.framing, o.maxSegmentBytes, rs, first);
    PackFlattens(o.format.framing, o.maxSegmentBytes, rs);
    RewritePacks(o, rs);
    FileName(o, rs, first, s, w, j);
  }

  /** A rewritten file is named after an offset of the log. */
  lemma KeptName(log: Log, q: nat, j: nat) returns (n: nat)
    requires Layout(log) && q < |log.records| && j < |KeptPack(log, q)|
    ensures |KeptFiles(log, q).names| == |KeptPack(log, q)| && KeptPack(log, q)[j] != []
    ensures n == KeptPack(log, q)[j][0].offset && KeptFiles(log, q).names[j] == log.options.format.name(n)
    ensures log.earliest <= n < End(log)
  {
    ContiguousRest(log.records, log.earliest, q);
    OwnedRest(log.options, log.records, q);
    PackedFileName(log.options, log.records[q..], log.earliest + q, j);
    n := KeptPack(log, q)[j][0].offset;
  }

  /** Where a rewritten file has the name of a listed one, it has the same bytes. */
  lemma SameNameSameBytes(log: Log, q: nat, i: nat, j: nat)
    requires Layout(log) && q < |log.records| && i < |log.names| && j < |KeptPack(log, q)|
    requires |KeptFiles(log, q).names| == |KeptFiles(log, q).contents| == |KeptPack(log, q)|
    requires KeptFiles(log, q).names[j] == log.names[i]
    ensures log.names[i] in log.disk && KeptFiles(log, q).contents[j] == log.disk[log.names[i]]
  {
    var m := NameAt(log, i);
    var n := KeptName(log, q, j);
    if m != n { NamesDiffer(log.options.format, m, n); }
    KeptFacts(log, q);
    assert SegmentStored(log.options, log.names, log.disk, Packed(log), i);
    assert FileWritten(log.options, KeptFiles(log, q), KeptPack(log, q), j);
    SameStartSameSegment(log.options.format.framing, log.options.maxSegmentBytes, log.records, log.earliest, q, i, j);
  }

  lemma RenameKeepsListed(log: Log, q: nat, k: nat, i: nat)
    requires Layout(log) && q < |log.records| && i < |log.names| && k <= |KeptFiles(log, q).names|
    ensures var d := Rename(log.disk, KeptFiles(log, q), k);
            log.names[i] in log.disk && log.names[i] in d && d[log.names[i]] == log.disk[log.names[i]]
  {
    var w := KeptFiles(log, q);
    KeptFacts(log, q);
    assert SegmentStored(log.options, log.names, log.disk, Packed(log), i);
    Renamed(log.disk, w, k, log.names[i]);
    if log.names[i] in w.names[..k] {
      var j :| 0 <= j < k && w.names[j] == log.names[i];
      SameNameSameBytes(log, q, i, j);
      RenamedTo(log.disk, w, k, j);
    }
  }

  /** Another directory that agrees on what is listed. */
  ghost predicate SameListed(log: Log, d: Disk) {
    && (forall i :: 0 <= i < |log.names| ==>
          log.names[i] in log.disk && log.names[i] in d && d[log.names[i]] == log.disk[log.names[i]])
    && MANIFEST in d && MANIFEST in log.disk && d[MANIFEST] == log.disk[MANIFEST]
    && (SNAPSHOT in d <==> SNAPSHOT in log.disk) && (SNAPSHOT in d ==> d[SNAPSHOT] == log.disk[SNAPSHOT])
    && OnlyStale(log.options, log.names, d, End(log))
  }

  lemma MovedStored(log: Log, d: Disk)
    requires Stored(log.options, log.names, log.disk, Packed(log)) && SameListed(log, d)
    ensures Stored(log.options, log.names, d, Packed(log))
  {
    forall i | 0 <= i < |log.names|
      ensures SegmentStored(log.options, log.names, d, Packed(log), i)
    {
      assert SegmentStored(log.options, log.names, log.disk, Packed(log), i);
    }
  }

  lemma MovedLayout(log: Log, d: Disk)
    requires Layout(log) && ManifestStored(log) && SameListed(log, d)
    ensures Layout(log.(disk := d)) && ManifestStored(log.(disk := d))
  {
    MovedStored(log, d);
  }

  lemma MovedInv(log: Log, d: Disk)
    requires Inv(log) && SameListed(log, d)
    ensures Inv(log.(disk := d))
  {
    MovedLayout(log, d);
  }

  lemma RenamedStale(log: Log, q: nat, k: nat)
    requires Layout(log) && q < |log.records| && k <= |KeptFiles(log, q).names|
    ensures OnlyStale(log.options, log.names, Rename(log.disk, KeptFiles(log, q), k), End(log))
  {
    var w, d := KeptFiles(log, q), Rename(log.disk, KeptFiles(log, q), k);
    KeptFacts(log, q);
    forall f | f in d && log.options.format.isSegment(f) && f !in log.names
      ensures StaleName(log.options, f, End(log))
    {
      Renamed(log.disk, w, k, f);
      if f in w.names[..k] {
        var j :| 0 <= j < k && w.names[j] == f;
        var n := KeptName(log, q, j);
      }
    }
  }

  lemma RenamedOthers(log: Log, q: nat, k: nat, name: string)
    requires Layout(log) && q < |log.records| && k <= |KeptFiles(log, q).names| && !log.options.format.isSegment(name)
    ensures var d := Rename(log.disk, KeptFiles(log, q), k);
            (name in d <==> name in log.disk) && (name in d ==> d[name] == log.disk[name])
  {
    var w := KeptFiles(log, q);
    KeptFacts(log, q);
    Renamed(log.disk, w, k, name);
    if name in w.names[..k] {
      var j :| 0 <= j < k && w.names[j] == name;
      var n := KeptName(log, q, j);
    }
  }

  /** A process that stops between any two renames of a compaction leaves the log as it was: it reopens unchanged,
      with files that no later append can touch. */
  lemma CrashWhileRenaming(log: Log, q: nat, k: nat)
    requires Inv(log) && q < |log.records| && k <= |KeptFiles(log, q).names|
    ensures var d := Rename(log.disk, KeptFiles(log, q), k);
            Inv(log.(disk := d)) && Recover(log.options, d) == Some(log.(disk := d))
  {
    var d := Rename(log.disk, KeptFiles(log, q), k);
    forall i | 0 <= i < |log.names|
      ensures log.names[i] in log.disk && log.names[i] in d && d[log.names[i]] == log.disk[log.names[i]]
    {
      RenameKeepsListed(log, q, k, i);
    }
    RenamedOthers(log, q, k, MANIFEST);
    RenamedOthers(log, q, k, SNAPSHOT);
    RenamedStale(log, q, k);
    MovedInv(log, d);
    RecoverRoundTrip(log.(disk := d));
  }

  // ---------------------------------------------------------------- the rewritten log

  /** The log with its first q records gone and the rest renamed into place, before the manifest is written. */
  function Rewritten(log: Log, q: nat): Log
    requires q < |log.records|
  {
    var w, s := KeptFiles(log, q), KeptPack(log, q);
    var last := if s == [] then [] else s[|s| - 1];
    log.(records := log.records[q..], earliest := log.earliest + q, names := w.names,
         disk := Rename(log.disk, w, |w.names|),
         activeFirst := if last == [] then 0 else last[0].offset,
         activeSize := Size(log.options.format.framing, last))
  }

  lemma RewrittenStored(log: Log, q: nat)
    requires Layout(log) && q < |log.records|
    ensures var l := Rewritten(log, q);
            Packed(l) == KeptPack(log, q) && Stored(l.options, l.names, l.disk, Packed(l)) && ActiveIsLast(l, Packed(l))
  {
    KeptFacts(log, q);
    var s, w := KeptPack(log, q), KeptFiles(log, q);
    StoredByRename(log.options, log.disk, w, s);
    assert FileWritten(log.options, w, s, |s| - 1);
  }

  lemma RewrittenStale(log: Log, q: nat)
    requires Layout(log) && q < |log.records|
    ensures var l := Rewritten(log, q); OnlyStale(l.options, l.names, l.disk, End(l))
  {
    var l, w := Rewritten(log, q), KeptFiles(log, q);
    KeptFacts(log, q);
    forall f | f in l.disk && l.options.format.isSegment(f) && f !in l.names
      ensures StaleName(l.options, f, End(l))
    {
      assert w.names[..|w.names|] == w.names;
      Renamed(log.disk, w, |w.names|, f);
      if f in log.names {
        var i :| 0 <= i < |log.names| && log.names[i] == f;
        var n := NameAt(log, i);
      } else {
        assert StaleName(log.options, f, End(log));
      }
    }
  }

  lemma RewrittenLayout(log: Log, q: nat)
    requires Layout(log) && q < |log.records|
    ensures Layout(Rewritten(log, q))
  {
    RewrittenStored(log, q);
    RewrittenStale(log, q);
    ContiguousRest(log.records, log.earliest, q);
    OwnedRest(log.options, log.records, q);
  }

  /** The committed version is found among the retained records. */
  predicate VersionKept(log: Log, q: nat)
    requires q < |log.records|
  {
    MaxVersion(log.records[q..]) == log.committed
  }

  lemma RewrittenHistory(log: Log, q: nat)
    requires Layout(log) && HistoryStored(log) && q < |log.records|
    ensures HistoryStored(Rewritten(log, q))
  {
    KeptFacts(log, q);
    RenamedOthers(log, q, |KeptFiles(log, q).names|, SNAPSHOT);
  }

  /** The compacted log, before old segments are removed. */
  ghost function Compacted(log: Log, q: nat): Log
    requires q < |log.records|
  {
    PersistManifest(Rewritten(log, q)).log
  }

  /** Writing the manifest makes a laid-out log a stored one. */
  lemma PersistKeeps(r: Log)
    requires Layout(r) && HistoryStored(r)
    ensures var p := PersistManifest(r);
            p.ok && p.log == r.(disk := p.log.disk) && Layout(p.log) && ManifestStored(p.log) && HistoryStored(p.log)
  {
    PersistManifestStores(r);
  }

  lemma RewrittenCounters(log: Log, q: nat)
    requires Counters(log) && q < |log.records| && VersionKept(log, q)
    ensures Counters(Rewritten(log, q))
  {
  }

  lemma CompactedMeans(log: Log, q: nat)
    requires Inv(log) && q < |log.records|
    ensures PersistManifest(Rewritten(log, q)).ok
    ensures var l := Compacted(log, q);
            && l == Rewritten(log, q).(disk := l.disk) && Layout(l) && ManifestStored(l) && HistoryStored(l)
            && (VersionKept(log, q) ==> Inv(l))
  {
    RewrittenLayout(log, q);
    RewrittenHistory(log, q);
    PersistKeeps(Rewritten(log, q));
    if VersionKept(log, q) { RewrittenCounters(log, q); }
  }

  // ---------------------------------------------------------------- removing old segments

  /** Files that may go: segments that are not in use. */
  predicate Removable(log: Log, gone: set<string>) {
    forall f :: f in gone ==> f !in log.names && log.options.format.isSegment(f)
  }

  lemma RemovalSameListed(log: Log, gone: set<string>)
    requires Layout(log) && MANIFEST in log.disk && Removable(log, gone)
    ensures SameListed(log, log.disk - gone)
  {
    forall i | 0 <= i < |log.names|
      ensures log.names[i] in log.disk && log.names[i] in log.disk - gone
    {
      assert SegmentStored(log.options, log.names, log.disk, Packed(log), i);
    }
    forall f | f in log.disk - gone && log.options.format.isSegment(f) && f !in log.names
      ensures StaleName(log.options, f, End(log))
    {
      assert f in log.disk;
    }
  }

  lemma RemovalKeepsInv(log: Log, gone: set<string>)
    requires Inv(log) && Removable(log, gone)
    ensures Inv(log.(disk := log.disk - gone))
  {
    RemovalSameListed(log, gone);
    MovedInv(log, log.disk - gone);
  }

  /** A process that stops after any of the removals leaves the compacted log: it reopens as such. */
  lemma CrashWhileRemoving(log: Log, q: nat, gone: set<string>)
    requires Inv(log) && q < |log.records| && VersionKept(log, q) && Removable(Compacted(log, q), gone)
    ensures var l := Compacted(log, q);
            var d := l.disk - gone;
            Inv(l.(disk := d)) && Recover(log.options, d) == Some(l.(disk := d))
  {
    CompactedMeans(log, q);
    var l := Compacted(log, q);
    RemovalKeepsInv(l, gone);
    RecoverRoundTrip(l.(disk := l.disk - gone));
  }

  /** The old segments that a compaction removes. */
  function OldSegments(log: Log, q: nat): set<string>
    requires q < |log.records|
  {
    SegmentFiles(log.options.format, log.disk) - set x | x in KeptFiles(log, q).names
  }

  lemma OldRemovable(log: Log, q: nat)
    requires Inv(log) && q < |log.records|
    ensures Removable(Compacted(log, q), OldSegments(log, q))
  {
    CompactedMeans(log, q);
  }

  /** What compaction leaves. */
  ghost function Trimmed(log: Log, q: nat): Log
    requires q < |log.records|
  {
    var l := Compacted(log, q);
    l.(disk := l.disk - OldSegments(log, q))
  }

  lemma LastKeptFile(log: Log, q: nat)
    requires Inv(log) && q < |log.records|
    ensures var w, l := KeptFiles(log, q), Compacted(log, q);
            && w.names != [] && w.names[|w.names| - 1] in l.disk - OldSegments(log, q)
            && log.options.format.number(w.names[|w.names| - 1]) == l.activeFirst
            && |(l.disk - OldSegments(log, q))[w.names[|w.names| - 1]]| == l.activeSize
  {
    var w, s, l := KeptFiles(log, q), KeptPack(log, q), Compacted(log, q);
    KeptFacts(log, q);
    CompactedMeans(log, q);
    RewrittenStored(log, q);
    assert SegmentStored(l.options, l.names, l.disk, s, |s| - 1);
    var n := KeptName(log, q, |s| - 1);
  }

  // ---------------------------------------------------------------- compaction

  lemma PersistIgnoresActive(l: Log, first: nat, size: nat)
    ensures var p := PersistManifest(l);
            PersistManifest(l.(activeFirst := first, activeSize := size)) ==
            Outcome(p.log.(activeFirst := first, activeSize := size), p.ok)
  {
    var k := l.(activeFirst := first, activeSize := size);
    assert NamesToPersist(k) == NamesToPersist(l);
  }

  /** The log that the rewriting starts from. */
  function Cleared(log: Log, q: nat): Log
    requires q < |log.records|
  {
    log.(records := log.records[q..], earliest := log.earliest + q)
  }

  /** `RewriteSegmentsLocked` makes the compacted log and removes the old segments. */
  lemma RewriteTrims(log: Log, q: nat)
    requires Inv(log) && q < |log.records|
    ensures Rewrite(Cleared(log, q)) == Outcome(Trimmed(log, q), true)
  {
    CompactedMeans(log, q);
    LastKeptFile(log, q);
    RewriteRuns(log, q, Rewritten(log, q));
  }

  /** The steps of `RewriteSegmentsLocked`, given what the manifest step does. */
  lemma RewriteRuns(log: Log, q: nat, r: Log)
    requires q < |log.records| && r == Rewritten(log, q) && PersistManifest(r).ok
    requires var w, l := KeptFiles(log, q), Compacted(log, q);
             && l == r.(disk := l.disk) && w.names != [] && w.names[|w.names| - 1] in l.disk - OldSegments(log, q)
             && log.options.format.number(w.names[|w.names| - 1]) == l.activeFirst
             && |(l.disk - OldSegments(log, q))[w.names[|w.names| - 1]]| == l.activeSize
    ensures Rewrite(Cleared(log, q)) == Outcome(Trimmed(log, q), true)
  {
    var c := Cleared(log, q);
    assert c.(names := r.names, disk := r.disk) == r.(activeFirst := log.activeFirst, activeSize := log.activeSize);
    PersistIgnoresActive(r, log.activeFirst, log.activeSize);
  }

  lemma CompactClears(log: Log, from: nat, q: nat)
    requires Contiguous(log.records, log.earliest) && from == log.earliest + q && 0 < q < |log.records|
    ensures Compact(log, from) == Rewrite(Cleared(log, q))
  {
    RetainedIsRest(log.records, log.earliest, from);
    assert log.records[q..][0].offset == from;
    assert log.(records := log.records[q..], earliest := from) == Cleared(log, q);
  }

  lemma CompactIsTrimming(log: Log, from: nat, q: nat)
    requires Inv(log) && from == log.earliest + q && 0 < q < |log.records|
    ensures Compact(log, from) == Outcome(Trimmed(log, q), true)
  {
    var out := Compact(log, from);
    assert out == Rewrite(Cleared(log, q)) by { CompactClears(log, from, q); }
    RewriteTrims(log, q);
  }

  /** A compaction that drops exactly the first q records and leaves history and watermark alone. */
  ghost predicate Trims(log: Log, q: nat, out: Outcome) {
    && q <= |log.records| && out.ok && Inv(out.log) && Tidy(out.log)
    && out.log.records == log.records[q..] && out.log.history == log.history
    && out.log.earliest == log.earliest + q && out.log.highWatermark == log.highWatermark
    && out.log.committed == log.committed && out.log.options == log.options
  }

  lemma TrimmedTrims(log: Log, q: nat)
    requires Inv(log) && q < |log.records| && VersionKept(log, q)
    ensures Trims(log, q, Outcome(Trimmed(log, q), true))
  {
    CompactedMeans(log, q);
    OldRemovable(log, q);
    RemovalKeepsInv(Compacted(log, q), OldSegments(log, q));
    TrimmedTidy(log, q);
  }

  /** Compaction keeps the invariant as long as it does not lose the highest version. */
  lemma CompactKeepsInv(log: Log, from: nat, q: nat)
    requires Inv(log) && from == log.earliest + q && 0 < q < |log.records| && VersionKept(log, q)
    ensures Trims(log, q, Compact(log, from))
  {
    CompactIsTrimming(log, from, q);
    TrimmedTrims(log, q);
  }

  lemma RenamedIsNamed(log: Log, q: nat, f: string)
    requires q < |log.records| && f in Rewritten(log, q).disk && log.options.format.isSegment(f)
    ensures f in Rewritten(log, q).names || f in OldSegments(log, q)
  {
    var w := KeptFiles(log, q);
    assert w.names[..|w.names|] == w.names;
    Renamed(log.disk, w, |w.names|, f);
  }

  /** No old segment is left. */
  lemma TrimmedTidy(log: Log, q: nat)
    requires Inv(log) && q < |log.records|
    ensures Tidy(Trimmed(log, q))
  {
    var l := Trimmed(log, q);
    PersistDisk(Rewritten(log, q));
    forall f | f in l.disk && l.options.format.isSegment(f)
      ensures f in l.names
    {
      RenamedIsNamed(log, q, f);
    }
  }

  lemma PersistDisk(l: Log)
    requires Good(l.options.format)
    ensures var p := PersistManifest(l).log;
            p.names == l.names && forall f :: l.options.format.isSegment(f) ==> (f in p.disk <==> f in l.disk)
  {
  }

  /** With versions that never decrease, the last record carries the highest one. */
  lemma {:induction false} MaxVersionIsLast(rs: seq<ChangeRecord>)
    requires Monotone(rs) && rs != []
    ensures MaxVersion(rs) == rs[|rs| - 1].commitVersion
    decreases |rs|
  {
    if |rs| > 1 { MaxVersionIsLast(rs[..|rs| - 1]); }
  }

  lemma MonotoneKeepsVersion(log: Log, q: nat)
    requires Counters(log) && Monotone(log.records) && q < |log.records|
    ensures VersionKept(log, q) && Monotone(log.records[q..])
  {
    MaxVersionIsLast(log.records);
    MaxVersionIsLast(log.records[q..]);
  }

  /** A compacted log reopens if and only if the committed version is found among what was retained. */
  lemma ReopenAfterCompact(log: Log, from: nat, q: nat)
    requires Inv(log) && from == log.earliest + q && 0 < q < |log.records|
    ensures Recover(log.options, Compact(log, from).log.disk) ==
            if VersionKept(log, q) then Some(Compact(log, from).log) else None
  {
    CompactIsTrimming(log, from, q);
    CompactedMeans(log, q);
    OldRemovable(log, q);
    var l := Compacted(log, q);
    RemovalSameListed(l, OldSegments(log, q));
    if VersionKept(log, q) {
      CompactKeepsInv(log, from, q);
      RecoverRoundTrip(Trimmed(log, q));
    } else {
      MovedLayout(l, l.disk - OldSegments(log, q));
      WrongVersionRefused(Trimmed(log, q));
    }
  }
}
