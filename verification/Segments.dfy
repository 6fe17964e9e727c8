/** How records are cut into segment files: appending fills the active segment and rolls when the next frame would
    not fit; compaction packs what it keeps by the same rule. */
module Segments {
  import opened ChangeRecords
  import opened Framings

  type Segment = seq<ChangeRecord>

  function Size(f: Framing, rs: seq<ChangeRecord>): (n: nat) { |FrameList(f, rs)| }

  /** How many of rs still fit a segment that holds `used` bytes. */
  function Fill(f: Framing, max: nat, rs: seq<ChangeRecord>, used: nat): (n: nat)
    ensures n <= |rs|
    decreases |rs|
  {
    if rs == [] || used + |f.frame(rs[0])| > max then 0
    else 1 + Fill(f, max, rs[1..], used + |f.frame(rs[0])|)
  }

  /** The length of a segment that starts with rs[0]; a first frame is taken whatever its size. */
  function Reach(f: Framing, max: nat, rs: seq<ChangeRecord>): (n: nat)
    requires rs != []
    ensures 0 < n <= |rs|
  {
    1 + Fill(f, max, rs[1..], |f.frame(rs[0])|)
  }

  function Pack(f: Framing, max: nat, rs: seq<ChangeRecord>): (segments: seq<Segment>)
    decreases |rs|
  {
    if rs == [] then []
    else var n := Reach(f, max, rs); [rs[..n]] + Pack(f, max, rs[n..])
  }

  function Flatten(segments: seq<Segment>): seq<ChangeRecord> {
    if segments == [] then [] else segments[0] + Flatten(segments[1..])
  }

  /** The append rule: extend the last segment, or roll. */
  function Place(f: Framing, max: nat, segments: seq<Segment>, r: ChangeRecord): (s: seq<Segment>)
  {
    if segments == [] || Size(f, segments[|segments| - 1]) + |f.frame(r)| > max then segments + [[r]]
    else segments[..|segments| - 1] + [segments[|segments| - 1] + [r]]
  }

  lemma {:induction false} PackFlattens(f: Framing, max: nat, rs: seq<ChangeRecord>)
    ensures Flatten(Pack(f, max, rs)) == rs
    decreases |rs|
  {
    if rs != [] {
      var n := Reach(f, max, rs);
      PackFlattens(f, max, rs[n..]);
      assert rs == rs[..n] + rs[n..];
    }
  }

  lemma SizeOfFirst(f: Framing, rs: seq<ChangeRecord>)
    requires rs != []
    ensures Size(f, rs) == |f.frame(rs[0])| + Size(f, rs[1..])
  {
  }

  lemma SizeOfLast(f: Framing, rs: seq<ChangeRecord>, r: ChangeRecord)
    ensures Size(f, rs + [r]) == Size(f, rs) + |f.frame(r)|
  {
    FrameListConcat(f, rs, [r]);
    FrameListOne(f, r);
  }

  /** Appending a record changes the fill only when everything before it fitted. */
  lemma {:induction false} FillLast(f: Framing, max: nat, rs: seq<ChangeRecord>, r: ChangeRecord, used: nat)
    ensures Fill(f, max, rs + [r], used) ==
            if Fill(f, max, rs, used) < |rs| then Fill(f, max, rs, used)
            else if used + Size(f, rs) + |f.frame(r)| > max then |rs|
            else |rs| + 1
    decreases |rs|
  {
    if rs == [] {
      assert rs + [r] == [r];
      assert [r][1..] == [];
    } else {
      assert (rs + [r])[1..] == rs[1..] + [r] && (rs + [r])[0] == rs[0];
      SizeOfFirst(f, rs);
      FillLast(f, max, rs[1..], r, used + |f.frame(rs[0])|);
    }
  }

  lemma ReachLast(f: Framing, max: nat, rs: seq<ChangeRecord>, r: ChangeRecord)
    requires rs != []
    ensures Reach(f, max, rs + [r]) ==
            if Reach(f, max, rs) < |rs| then Reach(f, max, rs)
            else if Size(f, rs) + |f.frame(r)| > max then |rs|
            else |rs| + 1
  {
    assert (rs + [r])[1..] == rs[1..] + [r] && (rs + [r])[0] == rs[0];
    SizeOfFirst(f, rs);
    FillLast(f, max, rs[1..], r, |f.frame(rs[0])|);
  }

  lemma PackOne(f: Framing, max: nat, r: ChangeRecord)
    ensures Pack(f, max, [r]) == [[r]]
  {
    assert Reach(f, max, [r]) == 1;
    assert [r][..1] == [r] && [r][1..] == [];
  }

  /** Packing from the front and placing one record after the other give the same segments: append-time and
      rewrite-time packing agree. */
  lemma {:induction false} PackLast(f: Framing, max: nat, rs: seq<ChangeRecord>, r: ChangeRecord)
    ensures Pack(f, max, rs + [r]) == Place(f, max, Pack(f, max, rs), r)
    decreases |rs|
  {
    if rs == [] {
      assert rs + [r] == [r];
      PackOne(f, max, r);
    } else {
      ReachLast(f, max, rs, r);
      var n := Reach(f, max, rs);
      if n < |rs| {
        PackLastLater(f, max, rs, r, n);
      } else {
        PackLastHere(f, max, rs, r);
      }
    }
  }

  lemma {:induction false} PackLastLater(f: Framing, max: nat, rs: seq<ChangeRecord>, r: ChangeRecord, n: nat)
    requires rs != [] && n == Reach(f, max, rs) == Reach(f, max, rs + [r]) && n < |rs|
    ensures Pack(f, max, rs + [r]) == Place(f, max, Pack(f, max, rs), r)
    decreases |rs|, 0
  {
    PackLast(f, max, rs[n..], r);
    var rest := Pack(f, max, rs[n..]);
    assert (rs + [r])[..n] == rs[..n] && (rs + [r])[n..] == rs[n..] + [r];
    assert rest != [];
    assert Pack(f, max, rs) == [rs[..n]] + rest;
    assert ([rs[..n]] + rest)[|rest|] == rest[|rest| - 1];
    assert Place(f, max, [rs[..n]] + rest, r) == [rs[..n]] + Place(f, max, rest, r);
  }

  lemma PackLastHere(f: Framing, max: nat, rs: seq<ChangeRecord>, r: ChangeRecord)
    requires rs != [] && Reach(f, max, rs) == |rs|
    ensures Pack(f, max, rs + [r]) == Place(f, max, Pack(f, max, rs), r)
  {
    var n := |rs|;
    ReachLast(f, max, rs, r);
    assert rs[..n] == rs && rs[n..] == [];
    assert Pack(f, max, rs) == [rs];
    if Size(f, rs) + |f.frame(r)| > max {
      assert (rs + [r])[..n] == rs && (rs + [r])[n..] == [r];
      PackOne(f, max, r);
      assert [rs] + [[r]] == Place(f, max, [rs], r);
    } else {
      assert (rs + [r])[..n + 1] == rs + [r] && (rs + [r])[n + 1..] == [];
      assert [rs + [r]] == Place(f, max, [rs], r);
    }
  }

  // ---------------------------------------------------------------- offsets

  predicate Contiguous(rs: seq<ChangeRecord>, first: nat) {
    forall i :: 0 <= i < |rs| ==> rs[i].offset == first + i
  }

  /** Non-empty segments with consecutive offsets from `first`. */
  predicate Chained(segments: seq<Segment>, first: nat) {
    segments == [] ||
    (segments[0] != [] && Contiguous(segments[0], first) && Chained(segments[1..], first + |segments[0]|))
  }

  lemma {:induction false} PackChained(f: Framing, max: nat, rs: seq<ChangeRecord>, first: nat)
    requires Contiguous(rs, first)
    ensures Chained(Pack(f, max, rs), first)
    decreases |rs|
  {
    if rs != [] {
      var n := Reach(f, max, rs);
      PackChained(f, max, rs[n..], first + n);
    }
  }

  lemma {:induction false} ChainedBounds(segments: seq<Segment>, first: nat, i: nat)
    requires Chained(segments, first) && i < |segments|
    ensures segments[i] != [] && first <= segments[i][0].offset
    ensures segments[i][0].offset + |segments[i]| <= first + |Flatten(segments)|
    ensures Contiguous(segments[i], segments[i][0].offset)
  {
    if i > 0 { ChainedBounds(segments[1..], first + |segments[0]|, i - 1); }
  }

  lemma {:induction false} ChainedAscends(segments: seq<Segment>, first: nat, i: nat, j: nat)
    requires Chained(segments, first) && i < j < |segments|
    ensures segments[i] != [] && segments[j] != [] && segments[i][0].offset < segments[j][0].offset
  {
    ChainedBounds(segments, first, i);
    ChainedBounds(segments, first, j);
    if i > 0 {
      ChainedAscends(segments[1..], first + |segments[0]|, i - 1, j - 1);
    } else {
      ChainedBounds(segments[1..], first + |segments[0]|, j - 1);
    }
  }

  /** Every segment fits the limit unless it is a single frame. */
  lemma {:induction false} PackFits(f: Framing, max: nat, rs: seq<ChangeRecord>, i: nat)
    requires i < |Pack(f, max, rs)|
    ensures Pack(f, max, rs)[i] != []
    ensures Size(f, Pack(f, max, rs)[i]) <= max || |Pack(f, max, rs)[i]| == 1
    decreases |rs|
  {
    var n := Reach(f, max, rs);
    if i > 0 {
      PackFits(f, max, rs[n..], i - 1);
    } else {
      SizeOfFirst(f, rs[..n]);
      assert rs[..n][1..] == rs[1..][..n - 1];
      FillFits(f, max, rs[1..], |f.frame(rs[0])|);
    }
  }

  lemma {:induction false} FillFits(f: Framing, max: nat, rs: seq<ChangeRecord>, used: nat)
    ensures var n := Fill(f, max, rs, used); n > 0 ==> used + Size(f, rs[..n]) <= max
    decreases |rs|
  {
    var n := Fill(f, max, rs, used);
    if n > 0 {
      FillFits(f, max, rs[1..], used + |f.frame(rs[0])|);
      SizeOfFirst(f, rs[..n]);
      assert rs[..n][1..] == rs[1..][..n - 1];
      if n == 1 { assert rs[1..][..0] == []; }
    }
  }
}
