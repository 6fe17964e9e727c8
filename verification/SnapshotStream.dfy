/** The streaming loop of `GetComputeSnapshot` in tools/storaged.cc: a log that keeps growing is read page by page up to
    where it ended when the stream began. */
module SnapshotStream {
  import opened ChangeRecords
  import opened LogPaging
  import opened Segments

  datatype Batch = Batch(records: seq<ChangeRecord>, sequence: nat, resumeOffset: nat, final: bool)

  /** The records that the snapshot's version admits. */
  function Admitted(rs: seq<ChangeRecord>, version: nat): seq<ChangeRecord> {
    if rs == [] then [] else (if rs[0].commitVersion <= version then [rs[0]] else []) + Admitted(rs[1..], version)
  }

  function Sent(batches: seq<Batch>): seq<ChangeRecord>
    decreases |batches|
  {
    if batches == [] then [] else Sent(batches[..|batches| - 1]) + batches[|batches| - 1].records
  }

  predicate AllLater(rs: seq<ChangeRecord>, version: nat) {
    forall i :: 0 <= i < |rs| ==> rs[i].commitVersion > version
  }

  lemma {:induction false} AdmittedConcat(a: seq<ChangeRecord>, b: seq<ChangeRecord>, version: nat)
    ensures Admitted(a + b, version) == Admitted(a, version) + Admitted(b, version)
  {
    if a == [] {
      assert a + b == b;
    } else {
      var head := if a[0].commitVersion <= version then [a[0]] else [];
      assert (a + b)[1..] == a[1..] + b && (a + b)[0] == a[0];
      AdmittedConcat(a[1..], b, version);
      assert head + (Admitted(a[1..], version) + Admitted(b, version)) == head + Admitted(a[1..], version)
          + Admitted(b, version);
    }
  }

  lemma {:induction false} NoneAdmitted(rs: seq<ChangeRecord>, version: nat)
    requires AllLater(rs, version)
    ensures Admitted(rs, version) == []
  {
    if rs != [] { NoneAdmitted(rs[1..], version); }
  }

  lemma {:induction false} AfterConcat(a: seq<ChangeRecord>, b: seq<ChangeRecord>, offset: nat)
    ensures After(a + b, offset) == After(a, offset) + After(b, offset)
  {
    if a == [] {
      assert a + b == b;
    } else {
      assert (a + b)[1..] == a[1..] + b;
      AfterConcat(a[1..], b, offset);
    }
  }

  lemma {:induction false} AfterLater(rs: seq<ChangeRecord>, offset: nat, version: nat)
    requires AllLater(rs, version)
    ensures AllLater(After(rs, offset), version)
  {
    if rs != [] { AfterLater(rs[1..], offset, version); }
  }

  lemma {:induction false} PageFits(size: Sizes, rs: seq<ChangeRecord>, count: nat, bytes: nat, limit: nat)
    requires bytes <= limit
    ensures EachFits(size, rs[..PageLength(size, rs, count, bytes)], limit)
    decreases |rs|
  {
    var n := PageLength(size, rs, count, bytes);
    if n > 0 {
      PageFits(size, rs[1..], count - 1, bytes - size(rs[0]), limit);
      assert forall i :: 0 < i < n ==> rs[..n][i] == rs[1..][..n - 1][i - 1];
    }
  }

  /** The offset that the loop goes on from. */
  function Next(page: seq<ChangeRecord>, cursor: nat): nat { if page == [] then cursor else page[|page| - 1].offset }

  /** What one page says about the records that were there at the start. */
  predicate Advances(size: Sizes, start: seq<ChangeRecord>, page: seq<ChangeRecord>, cursor: nat, limit: nat,
                     version: nat) {
    var a, next := After(start, cursor), Next(page, cursor);
    && Admitted(a, version) == Admitted(page, version) + Admitted(After(start, next), version)
    && (EachFits(size, a, limit) <==> EachFits(size, After(start, next), limit))
  }

  lemma PageInside(size: Sizes, start: seq<ChangeRecord>, first: nat, page: seq<ChangeRecord>, cursor: nat, limit: nat,
                   version: nat)
    requires Contiguous(start, first) && 0 < |page| <= |After(start, cursor)| && page == After(start, cursor)[..|page|]
    requires EachFits(size, page, limit)
    ensures Advances(size, start, page, cursor, limit, version)
  {
    var a, n := After(start, cursor), |page|;
    AfterPage(size, start, first, cursor, n);
    assert a == page + a[n..] && After(start, page[n - 1].offset) == a[n..];
    AdmittedConcat(page, a[n..], version);
    FitsConcat(size, page, a[n..], limit);
  }

  lemma FitsConcat(size: Sizes, a: seq<ChangeRecord>, b: seq<ChangeRecord>, limit: nat)
    ensures EachFits(size, a + b, limit) <==> EachFits(size, a, limit) && EachFits(size, b, limit)
  {
    if EachFits(size, a + b, limit) {
      assert forall i :: 0 <= i < |a| ==> a[i] == (a + b)[i];
      assert forall i :: 0 <= i < |b| ==> b[i] == (a + b)[|a| + i];
    }
  }

  lemma PageBeyond(size: Sizes, start: seq<ChangeRecord>, first: nat, page: seq<ChangeRecord>, cursor: nat, limit: nat,
                   version: nat,
                   later: seq<ChangeRecord>)
    requires Contiguous(start, first) && page == After(start, cursor) + later && later != [] && AllLater(later, version)
    requires EachFits(size, page, limit) && page[|page| - 1].offset >= first + |start|
    ensures Advances(size, start, page, cursor, limit, version)
  {
    var a := After(start, cursor);
    AfterOfContiguous(start, first, page[|page| - 1].offset);
    AdmittedConcat(a, later, version);
    NoneAdmitted(later, version);
    assert Admitted(a, version) + [] == Admitted(a, version);
    FitsConcat(size, a, later, limit);
  }

  lemma LaterOffset(more: seq<ChangeRecord>, end: nat, cursor: nat, i: nat)
    requires Contiguous(more, end) && i < |After(more, cursor)|
    ensures After(more, cursor)[i].offset >= end && After(more, cursor)[i].offset > cursor
  {
    AfterOfContiguous(more, end, cursor);
  }

  lemma SplitContiguous(start: seq<ChangeRecord>, more: seq<ChangeRecord>, first: nat)
    requires Contiguous(start + more, first)
    ensures Contiguous(start, first) && Contiguous(more, first + |start|)
  {
    assert forall i :: 0 <= i < |start| ==> start[i] == (start + more)[i];
    assert forall i :: 0 <= i < |more| ==> more[i] == (start + more)[|start| + i];
  }

  /** A page of the grown log: of what was there at the start, and perhaps of what came later. */
  lemma PageSplits(size: Sizes, start: seq<ChangeRecord>, more: seq<ChangeRecord>, cursor: nat, count: nat, limit: nat)
    requires count > 0 && limit > 0
    ensures var page, a, b := Page(size, start + more, cursor, count, limit), After(start, cursor), After(more, cursor);
            && |page| <= |a + b| && page == (a + b)[..|page|] && EachFits(size, page, limit)
            && (page == [] && a != [] ==> !EachFits(size, a, limit))
  {
    var a, b := After(start, cursor), After(more, cursor);
    AfterConcat(start, more, cursor);
    PageFits(size, a + b, count, limit, limit);
    if a != [] { assert (a + b)[0] == a[0]; }
  }

  lemma PagePastStart(size: Sizes, start: seq<ChangeRecord>, more: seq<ChangeRecord>, first: nat,
                      page: seq<ChangeRecord>, cursor: nat,
                      limit: nat, version: nat)
    requires Contiguous(start, first) && Contiguous(more, first + |start|) && AllLater(more, version)
             && EachFits(size, page, limit)
    requires var a, b := After(start, cursor), After(more, cursor); |a| < |page| <= |a + b| && page == (a + b)[..|page|]
    ensures Advances(size, start, page, cursor, limit, version) && cursor < page[|page| - 1].offset
  {
    var a, b := After(start, cursor), After(more, cursor);
    var later := b[..|page| - |a|];
    assert page == a + later && page[|page| - 1] == b[|later| - 1];
    LaterOffset(more, first + |start|, cursor, |later| - 1);
    AfterLater(more, cursor, version);
    PageBeyond(size, start, first, page, cursor, limit, version, later);
  }

  lemma PageInStart(size: Sizes, start: seq<ChangeRecord>, more: seq<ChangeRecord>, first: nat, page: seq<ChangeRecord>,
                    cursor: nat,
                    limit: nat, version: nat)
    requires Contiguous(start, first) && EachFits(size, page, limit)
    requires var a, b := After(start, cursor), After(more, cursor); 0 < |page| <= |a| && page == (a + b)[..|page|]
    ensures Advances(size, start, page, cursor, limit, version) && cursor < page[|page| - 1].offset
  {
    var a, n := After(start, cursor), |page|;
    assert page == a[..n];
    AfterPage(size, start, first, cursor, n);
    PageInside(size, start, first, page, cursor, limit, version);
  }

  /** What a page of the grown log means for the log at the start. */
  predicate GoesOn(size: Sizes, start: seq<ChangeRecord>, first: nat, page: seq<ChangeRecord>, cursor: nat, limit: nat,
                   version: nat) {
    if page == [] then cursor + 1 < first + |start| ==> !EachFits(size, After(start, cursor), limit)
    else Advances(size, start, page, cursor, limit, version) && cursor < page[|page| - 1].offset
  }

  lemma PageGoesOn(size: Sizes, start: seq<ChangeRecord>, more: seq<ChangeRecord>, first: nat, page: seq<ChangeRecord>,
                   cursor: nat,
                   count: nat, limit: nat, version: nat)
    requires Contiguous(start + more, first) && AllLater(more, version) && count > 0 && limit > 0
             && (start == [] ==> first == 1)
    requires page == Page(size, start + more, cursor, count, limit)
    ensures GoesOn(size, start, first, page, cursor, limit, version)
  {
    SplitContiguous(start, more, first);
    PageSplits(size, start, more, cursor, count, limit);
    if page == [] {
      AfterOfContiguous(start, first, cursor);
    } else if |page| <= |After(start, cursor)| {
      PageInStart(size, start, more, first, page, cursor, limit, version);
    } else {
      PagePastStart(size, start, more, first, page, cursor, limit, version);
    }
  }

  // ---------------------------------------------------------------- the loop

  /** The batches are numbered from zero and none of them is final. */
  predicate Open(batches: seq<Batch>) {
    forall i :: 0 <= i < |batches| ==> batches[i].sequence == i && !batches[i].final
  }

  /** The batches are numbered from zero and exactly the last one is final. */
  predicate Closed(batches: seq<Batch>) {
    && batches != []
    && forall i :: 0 <= i < |batches| ==>
         batches[i].sequence == i && (batches[i].final <==> i == |batches| - 1)
  }

  lemma SentMore(batches: seq<Batch>, b: Batch)
    ensures Sent(batches + [b]) == Sent(batches) + b.records
  {
    assert (batches + [b])[..|batches|] == batches;
  }

  /** The loop over a page that keeps what the version admits. */
  method Admit(page: seq<ChangeRecord>, version: nat) returns (kept: seq<ChangeRecord>)
    ensures kept == Admitted(page, version)
  {
    kept := [];
    var i := 0;
    assert page[..0] == [];
    while i < |page|
      invariant i <= |page| && kept == Admitted(page[..i], version)
    {
      assert page[..i + 1] == page[..i] + [page[i]];
      AdmittedConcat(page[..i], [page[i]], version);
      assert [page[i]][1..] == [];
      if page[i].commitVersion <= version { kept := kept + [page[i]]; }
      i := i + 1;
    }
    assert page[..i] == page;
  }

  /** What was sent and what is still ahead make up what is to be sent. */
  predicate Streamed(size: Sizes, start: seq<ChangeRecord>, resume: nat, limit: nat, version: nat, batches: seq<Batch>,
                     cursor: nat) {
    && Admitted(After(start, resume), version) == Sent(batches) + Admitted(After(start, cursor), version)
    && (EachFits(size, After(start, resume), limit) <==> EachFits(size, After(start, cursor), limit))
  }

  lemma StreamedNothing(size: Sizes, start: seq<ChangeRecord>, resume: nat, limit: nat, version: nat)
    ensures Streamed(size, start, resume, limit, version, [], resume)
  {
    assert [] + Admitted(After(start, resume), version) == Admitted(After(start, resume), version);
  }

  lemma StreamedMore(size: Sizes, start: seq<ChangeRecord>, resume: nat, limit: nat, version: nat, batches: seq<Batch>,
                     cursor: nat,
                     page: seq<ChangeRecord>, b: Batch)
    requires Streamed(size, start, resume, limit, version, batches, cursor)
    requires Advances(size, start, page, cursor, limit, version) && b.records == Admitted(page, version)
    ensures Streamed(size, start, resume, limit, version, batches + [b], Next(page, cursor))
    ensures b.records == [] ==> Streamed(size, start, resume, limit, version, batches, Next(page, cursor))
  {
    SentMore(batches, b);
    Join(Admitted(After(start, resume), version), Sent(batches), Admitted(After(start, cursor), version), b.records,
         Admitted(After(start, Next(page, cursor)), version));
  }

  lemma Join(all: seq<ChangeRecord>, sent: seq<ChangeRecord>, ahead: seq<ChangeRecord>, now: seq<ChangeRecord>,
             later: seq<ChangeRecord>)
    requires all == sent + ahead && ahead == now + later
    ensures all == (sent + now) + later && (now == [] ==> all == sent + later)
  {
  }

  /** At the end of the log nothing is ahead. */
  lemma StreamedAll(size: Sizes, start: seq<ChangeRecord>, first: nat, resume: nat, limit: nat, version: nat,
                    batches: seq<Batch>,
                    cursor: nat)
    requires Streamed(size, start, resume, limit, version, batches, cursor)
    requires Contiguous(start, first) && cursor + 1 >= first + |start|
    ensures Sent(batches) == Admitted(After(start, resume), version) && EachFits(size, After(start, resume), limit)
  {
    AfterOfContiguous(start, first, cursor);
    assert Sent(batches) + [] == Sent(batches);
  }

  /** An empty page at or past the end changes nothing. */
  lemma NoPage(size: Sizes, start: seq<ChangeRecord>, cursor: nat, limit: nat, version: nat)
    ensures Advances(size, start, [], cursor, limit, version)
  {
    assert [] + Admitted(After(start, cursor), version) == Admitted(After(start, cursor), version);
  }

  /** The log before page `turn`. */
  function Grown(start: seq<ChangeRecord>, arrivals: seq<seq<ChangeRecord>>, turn: nat): seq<ChangeRecord> {
    start + Flatten(arrivals[..if turn < |arrivals| then turn else |arrivals|])
  }

  lemma {:induction false} FlattenPrefix(arrivals: seq<seq<ChangeRecord>>, n: nat)
    requires n <= |arrivals|
    ensures |Flatten(arrivals[..n])| <= |Flatten(arrivals)|
    ensures Flatten(arrivals[..n]) == Flatten(arrivals)[..|Flatten(arrivals[..n])|]
    decreases n
  {
    if n > 0 {
      FlattenPrefix(arrivals[1..], n - 1);
      assert arrivals[..n][1..] == arrivals[1..][..n - 1];
    }
  }

  lemma GrownFacts(start: seq<ChangeRecord>, arrivals: seq<seq<ChangeRecord>>, turn: nat, first: nat, version: nat)
    requires Contiguous(start + Flatten(arrivals), first) && AllLater(Flatten(arrivals), version)
    ensures var more := Flatten(arrivals[..if turn < |arrivals| then turn else |arrivals|]);
            Contiguous(start + more, first) && AllLater(more, version) && Contiguous(start, first)
  {
    var n := if turn < |arrivals| then turn else |arrivals|;
    FlattenPrefix(arrivals, n);
    PrefixFacts(start, Flatten(arrivals), |Flatten(arrivals[..n])|, first, version);
  }

  lemma PrefixFacts(start: seq<ChangeRecord>, all: seq<ChangeRecord>, n: nat, first: nat, version: nat)
    requires Contiguous(start + all, first) && AllLater(all, version) && n <= |all|
    ensures Contiguous(start + all[..n], first) && AllLater(all[..n], version) && Contiguous(start, first)
  {
    assert forall i :: 0 <= i < |start + all[..n]| ==> (start + all[..n])[i] == (start + all)[i];
    assert forall i :: 0 <= i < |start| ==> start[i] == (start + all)[i];
  }

  /** One turn of the loop: either the next record is too large, or the stream can go on. */
  lemma StreamTurn(size: Sizes, start: seq<ChangeRecord>, first: nat, version: nat, resume: nat, count: nat, limit: nat,
                   arrivals: seq<seq<ChangeRecord>>, turn: nat, batches: seq<Batch>, cursor: nat,
                       page: seq<ChangeRecord>, b: Batch)
    requires first > 0 && (start == [] ==> first == 1) && count > 0 && limit > 0
    requires Contiguous(start + Flatten(arrivals), first) && AllLater(Flatten(arrivals), version)
    requires Streamed(size, start, resume, limit, version, batches, cursor)
    requires page == Page(size, Grown(start, arrivals, turn), cursor, count, limit)
             && b.records == Admitted(page, version)
    ensures page == [] && cursor + 1 < first + |start| ==> !EachFits(size, After(start, resume), limit)
    ensures Streamed(size, start, resume, limit, version, batches + [b], Next(page, cursor))
    ensures b.records == [] ==> Streamed(size, start, resume, limit, version, batches, Next(page, cursor))
    ensures page != [] ==> Next(page, cursor) > cursor
  {
    GrownFacts(start, arrivals, turn, first, version);
    PageGoesOn(size, start, Flatten(arrivals[..if turn < |arrivals| then turn else |arrivals|]), first, page, cursor,
        count, limit,
               version);
    if page == [] { NoPage(size, start, cursor, limit, version); }
    StreamedMore(size, start, resume, limit, version, batches, cursor, page, b);
  }

  const MAX_RECORDS: nat := 4096
  const MAX_BYTES: nat := 4 * 1024 * 1024

  /** The limits of a request, and those that the log was opened with, which are not zero. */
  datatype Limits = Limits(records: nat, bytes: nat)

  predicate LimitsValid(l: Limits) { 0 < l.records <= MAX_RECORDS && 0 < l.bytes <= MAX_BYTES }

  /** Streams the log as it was at the start, although more records may arrive before every page.
      It succeeds if and only if the limits are valid and every record to be streamed fits a page; the batches then hold
      exactly the records present at the start after the resume offset that the version admits, in order, and end with
      the only final batch. */
  method Stream(size: Sizes, start: seq<ChangeRecord>, first: nat, version: nat, resume: nat, request: Limits,
                log: Limits, arrivals: seq<seq<ChangeRecord>>) returns (ok: bool, batches: seq<Batch>)
    requires first > 0 && (start == [] ==> first == 1) && log.records > 0 && log.bytes > 0
    requires Contiguous(start + Flatten(arrivals), first) && AllLater(Flatten(arrivals), version)
    ensures ok <==> LimitsValid(request) && EachFits(size, After(start, resume), Min(request.bytes, log.bytes))
    ensures ok ==> Sent(batches) == Admitted(After(start, resume), version) && Closed(batches)
  {
    if !LimitsValid(request) { return false, []; }
    var count, limit := Min(request.records, log.records), Min(request.bytes, log.bytes);
    var highWatermark := first + |start| - 1;
    var cursor, turn := resume, 0;
    batches := [];
    StreamedNothing(size, start, resume, limit, version);
    SplitContiguous(start, Flatten(arrivals), first);
    while true
      invariant Open(batches) && (batches != [] ==> cursor < highWatermark)
      invariant Streamed(size, start, resume, limit, version, batches, cursor)
      decreases highWatermark - cursor
    {
      var page := Page(size, Grown(start, arrivals, turn), cursor, count, limit);
      var next := Next(page, cursor);
      var kept := Admit(page, version);
      var reachedEnd := next >= highWatermark || page == [];
      var b := Batch(kept, |batches|, cursor, reachedEnd);
      StreamTurn(size, start, first, version, resume, count, limit, arrivals, turn, batches, cursor, page, b);
      if page == [] && cursor < highWatermark { return false, batches; }
      turn := turn + 1;
      cursor := next;
      if kept == [] && batches != [] && !reachedEnd { continue; }
      batches := batches + [b];
      if reachedEnd {
        StreamedAll(size, start, first, resume, limit, version, batches, cursor);
        return true, batches;
      }
    }
  }
}
