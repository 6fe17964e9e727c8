/** The readers of a change log in tools/storaged.cc and the maintenance of src/cdc/change_log_maintenance.cc. */
module LogClients {
  import opened ChangeRecords
  import opened Framings
  import opened Intents
  import opened LogPaging
  import opened Segments
  import opened ChangeLogs
  import S = LogSpec
  import LogMaintenance
  import opened Wrappers

  // ---------------------------------------------------------------- maintenance

  class ChangeLogMaintenance {
    const config: LogMaintenance.Config

    constructor (c: LogMaintenance.Config)
      ensures config == c
    {
      config := c;
    }

    /** `GetState`, as far as maintenance uses it. */
    method SegmentBytes(log: PartitionChangeLog) returns (bytes: nat)
      ensures bytes == LogMaintenance.SegmentBytes(log.disk, log.names)
    {
      bytes := 0;
      var i := 0;
      assert log.names[0..] == log.names;
      while i < |log.names|
        invariant i <= |log.names|
        invariant LogMaintenance.SegmentBytes(log.disk, log.names) == bytes
                  + LogMaintenance.SegmentBytes(log.disk, log.names[i..])
      {
        assert log.names[i..][1..] == log.names[i + 1..];
        bytes := bytes + |S.Contents(log.disk, log.names[i])|;
        i := i + 1;
      }
    }

    /** One maintenance pass; the age of the youngest closed segment comes from the clock. */
    method RunOnce(log: PartitionChangeLog, youngestClosedAge: nat) returns (ok: bool)
      modifies log
      ensures AllFit(log.options.format.framing, old(log.records)) ==>
                S.Outcome(log.View(), ok) == LogMaintenance.RunOnce(old(log.View()), config, youngestClosedAge)
    {
      if !LogMaintenance.ValidConfig(config) { return false; }
      var bytes := SegmentBytes(log);
      if bytes <= config.maxRetainedBytes { return true; }
      if |log.names| <= 1 || youngestClosedAge < config.minRetentionHours { return true; }
      if log.activeFirst == 0 || log.activeFirst > log.highWatermark + 1 { return false; }
      ok := log.Compact(log.activeFirst);
    }
  }

  // ---------------------------------------------------------------- looking for a batch

  /** The record is the i-th one of the batch. */
  predicate Matches(r: ChangeRecord, b: IntentBatch, i: nat)
    requires i < |b.records|
  {
    var e := b.records[i].1;
    && r.txnId == b.txnId && r.commitVersion == b.version && r.batchSize == |b.records| && r.batchIndex == i
    && r.entityId == e.entityId && r.targetId == e.targetId && r.entityType == e.entityType && r.columnId == e.columnId
    && r.operation == e.operation && r.payload == e.payload
  }

  predicate Found(rs: seq<ChangeRecord>, b: IntentBatch, i: nat)
    requires i < |b.records|
  {
    exists r :: r in rs && Matches(r, b, i)
  }

  /** A plain scan finds every record of a batch that is not empty. */
  predicate HasBatch(rs: seq<ChangeRecord>, b: IntentBatch) {
    b.records != [] && forall i :: 0 <= i < |b.records| ==> Found(rs, b, i)
  }

  const PAGE_RECORDS: nat := 4096
  const PAGE_BYTES: nat := 4 * 1024 * 1024

  /** What a reader of pages still gets to see after an offset. */
  function Ahead(o: S.Options, rs: seq<ChangeRecord>, offset: nat): seq<ChangeRecord> {
    var count, limit := Min(PAGE_RECORDS, o.maxFetchRecords), Min(PAGE_BYTES, o.maxFetchBytes);
    if count == 0 || limit == 0 then [] else Reachable(SizesOf(o), After(rs, offset), limit)
  }

  function Visible(o: S.Options, rs: seq<ChangeRecord>): seq<ChangeRecord> { Ahead(o, rs, 0) }

  function NextPage(o: S.Options, rs: seq<ChangeRecord>, offset: nat): seq<ChangeRecord> {
    Page(SizesOf(o), rs, offset, Min(PAGE_RECORDS, o.maxFetchRecords), Min(PAGE_BYTES, o.maxFetchBytes))
  }

  /** Marks the records of a page that belong to the batch. */
  method MarkPage(page: seq<ChangeRecord>, b: IntentBatch, before: seq<bool>,
                  ghost seen: seq<ChangeRecord>) returns (matched: seq<bool>)
    requires |before| == |b.records| && forall i :: 0 <= i < |before| ==> (before[i] <==> Found(seen, b, i))
    ensures |matched| == |b.records| && forall i :: 0 <= i < |matched| ==> (matched[i] <==> Found(seen + page, b, i))
  {
    matched := before;
    var k := 0;
    assert seen + page[..0] == seen;
    while k < |page|
      invariant k <= |page| && |matched| == |b.records|
      invariant forall i :: 0 <= i < |matched| ==> (matched[i] <==> Found(seen + page[..k], b, i))
    {
      var r := page[k];
      assert seen + page[..k + 1] == (seen + page[..k]) + [r];
      FoundMore(seen + page[..k], r, b);
      if r.batchIndex < |b.records| && Matches(r, b, r.batchIndex) {
        matched := matched[r.batchIndex := true];
      }
      k := k + 1;
    }
    assert page[..k] == page;
  }

  lemma FoundMore(rs: seq<ChangeRecord>, r: ChangeRecord, b: IntentBatch)
    ensures forall i :: 0 <= i < |b.records| ==> (Found(rs + [r], b, i) <==> Found(rs, b, i) || Matches(r, b, i))
  {
    forall i | 0 <= i < |b.records|
      ensures Found(rs + [r], b, i) <==> Found(rs, b, i) || Matches(r, b, i)
    {
      if Found(rs, b, i) {
        var x :| x in rs && Matches(x, b, i);
        assert x in rs + [r];
      }
      if Matches(r, b, i) { assert r in rs + [r]; }
    }
  }

  lemma FoundGrows(a: seq<ChangeRecord>, c: seq<ChangeRecord>, b: IntentBatch)
    requires HasBatch(a, b)
    ensures HasBatch(a + c, b)
  {
    forall i | 0 <= i < |b.records|
      ensures Found(a + c, b, i)
    {
      assert Found(a, b, i);
      var r :| r in a && Matches(r, b, i);
      assert r in a + c;
    }
  }

  /** One page further. */
  lemma AheadStep(o: S.Options, rs: seq<ChangeRecord>, first: nat, offset: nat)
    requires Contiguous(rs, first)
    ensures var page := NextPage(o, rs, offset);
            if page == [] then Ahead(o, rs, offset) == []
            else
              && offset < page[|page| - 1].offset && |After(rs, page[|page| - 1].offset)| < |After(rs, offset)|
              && Ahead(o, rs, offset) == page + Ahead(o, rs, page[|page| - 1].offset)
  {
    var count, limit := Min(PAGE_RECORDS, o.maxFetchRecords), Min(PAGE_BYTES, o.maxFetchBytes);
    var page := NextPage(o, rs, offset);
    PageIsReachable(SizesOf(o), After(rs, offset), count, limit, limit);
    if page != [] { AfterPage(SizesOf(o), rs, first, offset, |page|); }
  }

  /** `offset = max(offset, record.offset())` over a page. */
  method LastOffsetOf(page: seq<ChangeRecord>, offset: nat) returns (last: nat)
    requires forall i :: 0 <= i < |page| ==> offset < page[i].offset <= page[|page| - 1].offset
    ensures last == if page == [] then offset else page[|page| - 1].offset
  {
    last := offset;
    var i := 0;
    while i < |page|
      invariant i <= |page| && last == if i == 0 then offset else S.Max(last, page[i - 1].offset)
      invariant i > 0 ==> offset < last <= page[|page| - 1].offset && page[i - 1].offset <= last
    {
      last := S.Max(last, page[i].offset);
      i := i + 1;
    }
  }

  lemma PageRises(size: Sizes, rs: seq<ChangeRecord>, first: nat, offset: nat, count: nat, limit: nat)
    requires Contiguous(rs, first)
    ensures var page := Page(size, rs, offset, count, limit);
            forall i :: 0 <= i < |page| ==> offset < page[i].offset <= page[|page| - 1].offset
  {
    AfterOfContiguous(rs, first, offset);
  }

  lemma NothingFound(b: IntentBatch)
    ensures !HasBatch([], b)
  {
    if b.records != [] { assert !Found([], b, 0); }
  }

  /** Reads the whole log page by page and reports whether a plain scan of what it could see finds the batch. */
  method ContainsBatch(log: PartitionChangeLog, b: IntentBatch) returns (found: bool)
    requires Contiguous(log.records, log.earliest) && AllFit(log.options.format.framing, log.records)
    ensures found == HasBatch(Visible(log.options, log.records), b)
  {
    var o, rs := log.options, log.records;
    var offset: nat := 0;
    var matched := seq(|b.records|, i => false);
    ghost var seen: seq<ChangeRecord> := [];
    NothingFound(b);
    assert [] + Visible(o, rs) == Visible(o, rs);
    while true
      invariant Visible(o, rs) == seen + Ahead(o, rs, offset)
      invariant |matched| == |b.records| && forall i :: 0 <= i < |matched| ==> (matched[i] <==> Found(seen, b, i))
      invariant !HasBatch(seen, b)
      decreases |After(rs, offset)|
    {
      var read := log.ReadAfter(offset, PAGE_RECORDS, PAGE_BYTES);
      assert read == Some(NextPage(o, rs, offset));
      AheadStep(o, rs, log.earliest, offset);
      if read.None? || read.value == [] {
        assert seen + [] == seen;
        return false;
      }
      var page := read.value;
      PageRises(SizesOf(o), rs, log.earliest, offset, Min(PAGE_RECORDS, o.maxFetchRecords),
          Min(PAGE_BYTES, o.maxFetchBytes));
      matched := MarkPage(page, b, matched, seen);
      offset := LastOffsetOf(page, offset);
      assert seen + (page + Ahead(o, rs, offset)) == (seen + page) + Ahead(o, rs, offset);
      seen := seen + page;
      if matched != [] && forall i :: 0 <= i < |matched| ==> matched[i] {
        FoundGrows(seen, Ahead(o, rs, offset), b);
        return true;
      }
    }
  }

  /** If every record fits a page, the answer is that of a plain scan of the log. */
  lemma VisibleIsAll(o: S.Options, rs: seq<ChangeRecord>, first: nat)
    requires Contiguous(rs, first) && first > 0 && o.maxFetchRecords > 0 && o.maxFetchBytes > 0
    ensures Visible(o, rs) == rs <==> EachFits(SizesOf(o), rs, Min(PAGE_BYTES, o.maxFetchBytes))
  {
    AfterOfContiguous(rs, first, 0);
    AllReachable(SizesOf(o), rs, Min(PAGE_BYTES, o.maxFetchBytes));
  }
}
