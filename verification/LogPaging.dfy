/** Reading a change log page by page: `ReadAfter` of src/cdc/partition_change_log.cc and its callers in
    tools/storaged.cc. */
module LogPaging {
  import opened ChangeRecords
  import opened Segments

  type Sizes = ChangeRecord -> nat

  function Min(a: nat, b: nat): nat { if a < b then a else b }

  function After(rs: seq<ChangeRecord>, offset: nat): seq<ChangeRecord> {
    if rs == [] then [] else (if rs[0].offset <= offset then [] else [rs[0]]) + After(rs[1..], offset)
  }

  /** How many records go on a page that takes `count` more records and `bytes` more bytes. */
  function PageLength(size: Sizes, rs: seq<ChangeRecord>, count: nat, bytes: nat): (n: nat)
    ensures n <= |rs| && n <= count
    decreases |rs|
  {
    if rs == [] || count == 0 || size(rs[0]) > bytes then 0
    else 1 + PageLength(size, rs[1..], count - 1, bytes - size(rs[0]))
  }

  /** The page after an offset, within the limits that are in effect. */
  function Page(size: Sizes, rs: seq<ChangeRecord>, offset: nat, count: nat, bytes: nat): seq<ChangeRecord> {
    var rest := After(rs, offset);
    if count == 0 || bytes == 0 then [] else rest[..PageLength(size, rest, count, bytes)]
  }

  function TotalSize(size: Sizes, rs: seq<ChangeRecord>): nat {
    if rs == [] then 0 else size(rs[0]) + TotalSize(size, rs[1..])
  }

  /** The records up to the first one that no page can take. */
  function Reachable(size: Sizes, rs: seq<ChangeRecord>, bytes: nat): (s: seq<ChangeRecord>)
    ensures |s| <= |rs|
  {
    if rs == [] || size(rs[0]) > bytes then [] else [rs[0]] + Reachable(size, rs[1..], bytes)
  }

  // ---------------------------------------------------------------- one page

  /** A page stays within both limits and is as long as the limits allow. */
  lemma {:induction false} PageWithinLimits(size: Sizes, rs: seq<ChangeRecord>, count: nat, bytes: nat)
    ensures var n := PageLength(size, rs, count, bytes);
            && TotalSize(size, rs[..n]) <= bytes
            && (n < |rs| && n < count ==> TotalSize(size, rs[..n + 1]) > bytes)
    decreases |rs|
  {
    var n := PageLength(size, rs, count, bytes);
    if n > 0 {
      PageWithinLimits(size, rs[1..], count - 1, bytes - size(rs[0]));
      assert rs[..n][1..] == rs[1..][..n - 1];
      if n < |rs| { assert rs[..n + 1][1..] == rs[1..][..n]; }
    } else if rs != [] && count > 0 {
      assert rs[..1][1..] == [];
    }
  }

  lemma {:induction false} AfterOfContiguous(rs: seq<ChangeRecord>, first: nat, offset: nat)
    requires Contiguous(rs, first)
    ensures After(rs, offset) == if offset < first then rs else if offset < first + |rs| then rs[offset + 1 - first..]
            else []
    decreases |rs|
  {
    if rs != [] {
      AfterOfContiguous(rs[1..], first + 1, offset);
      assert rs == [rs[0]] + rs[1..];
      if first <= offset < first + |rs| - 1 { assert rs[1..][offset - first..] == rs[offset + 1 - first..]; }
    }
  }

  lemma {:induction false} PageIsReachable(size: Sizes, rs: seq<ChangeRecord>, count: nat, bytes: nat, limit: nat)
    requires bytes <= limit
    ensures var n := PageLength(size, rs, count, bytes);
            n <= |Reachable(size, rs, limit)| && Reachable(size, rs, limit) == rs[..n] + Reachable(size, rs[n..], limit)
    decreases |rs|
  {
    var n := PageLength(size, rs, count, bytes);
    if n > 0 {
      PageIsReachable(size, rs[1..], count - 1, bytes - size(rs[0]), limit);
      assert rs[1..][n - 1..] == rs[n..];
      assert rs[..n] == [rs[0]] + rs[1..][..n - 1];
    } else {
      assert rs[..0] == [] && rs[0..] == rs;
      assert [] + Reachable(size, rs, limit) == Reachable(size, rs, limit);
    }
  }

  // ---------------------------------------------------------------- all pages

  /** Going on from the last offset of a page gives what is left after it. */
  lemma AfterPage(size: Sizes, rs: seq<ChangeRecord>, first: nat, offset: nat, n: nat)
    requires Contiguous(rs, first) && 0 < n <= |After(rs, offset)|
    ensures var rest := After(rs, offset);
            offset < rest[n - 1].offset < first + |rs| && After(rs, rest[n - 1].offset) == rest[n..]
  {
    var rest := After(rs, offset);
    AfterOfContiguous(rs, first, offset);
    AfterOfContiguous(rs, first, rest[n - 1].offset);
    if offset < first {
      assert rs[n..] == rest[n..];
    } else {
      assert rs[offset + 1 - first..][n..] == rs[offset + 1 - first + n..];
    }
  }

  /** A reader that asks for the next page with the last offset it has seen, until a page is empty. */
  function Pages(size: Sizes, rs: seq<ChangeRecord>, first: nat, offset: nat, count: nat,
                 bytes: nat): seq<seq<ChangeRecord>>
    requires Contiguous(rs, first)
    decreases |After(rs, offset)|
  {
    var page := Page(size, rs, offset, count, bytes);
    if page == [] then []
    else
      AfterPage(size, rs, first, offset, |page|);
      [page] + Pages(size, rs, first, page[|page| - 1].offset, count, bytes)
  }

  /** The pages of a reader enumerate, once and in order, every record after the start up to the first one that is
      larger than a whole page. */
  lemma {:induction false} PagesEnumerate(size: Sizes, rs: seq<ChangeRecord>, first: nat, offset: nat, count: nat,
                                          bytes: nat)
    requires Contiguous(rs, first) && count > 0 && bytes > 0
    ensures Flatten(Pages(size, rs, first, offset, count, bytes)) == Reachable(size, After(rs, offset), bytes)
    decreases |After(rs, offset)|
  {
    var rest, page := After(rs, offset), Page(size, rs, offset, count, bytes);
    PageIsReachable(size, rest, count, bytes, bytes);
    if page != [] {
      AfterPage(size, rs, first, offset, |page|);
      PagesEnumerate(size, rs, first, page[|page| - 1].offset, count, bytes);
    }
  }

  predicate EachFits(size: Sizes, rs: seq<ChangeRecord>, bytes: nat) {
    forall i :: 0 <= i < |rs| ==> size(rs[i]) <= bytes
  }

  /** A reader gets everything if and only if every record fits a page. */
  lemma {:induction false} AllReachable(size: Sizes, rs: seq<ChangeRecord>, bytes: nat)
    ensures Reachable(size, rs, bytes) == rs <==> EachFits(size, rs, bytes)
  {
    if rs != [] {
      AllReachable(size, rs[1..], bytes);
      assert rs == [rs[0]] + rs[1..];
      if size(rs[0]) <= bytes && Reachable(size, rs, bytes) == rs {
        assert Reachable(size, rs, bytes)[1..] == rs[1..];
      }
      if EachFits(size, rs[1..], bytes) && size(rs[0]) <= bytes {
        assert forall i :: 0 <= i < |rs| ==> i == 0 || rs[i] == rs[1..][i - 1];
      }
    }
  }

  // ---------------------------------------------------------------- filling a page in a loop

  /** The page when `out` has been taken and records[i..] are still to be looked at. */
  function Filled(size: Sizes, rs: seq<ChangeRecord>, offset: nat, count: nat, limit: nat, i: nat,
                  out: seq<ChangeRecord>, bytes: nat)
    : seq<ChangeRecord>
    requires i <= |rs| && |out| <= count && bytes <= limit
  {
    var rest := After(rs[i..], offset);
    out + rest[..PageLength(size, rest, count - |out|, limit - bytes)]
  }

  lemma FilledStart(size: Sizes, rs: seq<ChangeRecord>, offset: nat, count: nat, limit: nat)
    requires count > 0 && limit > 0
    ensures Filled(size, rs, offset, count, limit, 0, [], 0) == Page(size, rs, offset, count, limit)
  {
    assert rs[0..] == rs;
  }

  lemma AfterFirst(rs: seq<ChangeRecord>, i: nat, offset: nat)
    requires i < |rs|
    ensures After(rs[i..], offset) ==
            if rs[i].offset > offset then [rs[i]] + After(rs[i + 1..], offset) else After(rs[i + 1..], offset)
  {
    assert rs[i..][1..] == rs[i + 1..];
    assert [] + After(rs[i + 1..], offset) == After(rs[i + 1..], offset);
  }

  lemma FilledStep(size: Sizes, rs: seq<ChangeRecord>, offset: nat, count: nat, limit: nat, i: nat,
                   out: seq<ChangeRecord>, bytes: nat)
    requires i < |rs| && |out| < count && bytes <= limit
    ensures Filled(size, rs, offset, count, limit, i, out, bytes) ==
            if rs[i].offset <= offset then Filled(size, rs, offset, count, limit, i + 1, out, bytes)
            else if bytes + size(rs[i]) > limit then out
            else Filled(size, rs, offset, count, limit, i + 1, out + [rs[i]], bytes + size(rs[i]))
  {
    AfterFirst(rs, i, offset);
    if rs[i].offset > offset {
      var r, rest := rs[i], After(rs[i + 1..], offset);
      assert ([r] + rest)[1..] == rest;
      var n := PageLength(size, [r] + rest, count - |out|, limit - bytes);
      if n > 0 { assert out + ([r] + rest)[..n] == out + [r] + rest[..n - 1]; }
    }
  }

  lemma FilledEnd(size: Sizes, rs: seq<ChangeRecord>, offset: nat, count: nat, limit: nat, i: nat,
                  out: seq<ChangeRecord>, bytes: nat)
    requires i <= |rs| && |out| <= count && bytes <= limit && (i == |rs| || |out| == count)
    ensures Filled(size, rs, offset, count, limit, i, out, bytes) == out
  {
  }
}
