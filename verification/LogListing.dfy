/** Listing a directory: entries come in any order and are sorted by name. */
module LogListing {
  import opened Decimal
  import opened LogInvariant
  import opened LogSpec

  lemma {:induction false} InsertBack(s: seq<string>, i: nat)
    requires Ascending(s) && i < |s|
    ensures Insert(s[i], s[..i] + s[i + 1..]) == s
    decreases |s|
  {
    var t := s[..i] + s[i + 1..];
    if i == 0 {
      assert t == s[1..];
      if t != [] { assert Before(s[0], s[1]); }
      assert s == [s[0]] + s[1..];
    } else {
      assert Before(s[0], s[i]);
      BeforeTotal(s[0], s[i]);
      assert t[0] == s[0] && t[1..] == s[1..][..i - 1] + s[1..][i..];
      InsertBack(s[1..], i - 1);
      assert s == [s[0]] + s[1..];
    }
  }

  lemma AscendingWithout(s: seq<string>, i: nat, t: seq<string>)
    requires Ascending(s) && i < |s| && t == s[..i] + s[i + 1..]
    ensures Ascending(t) && (set x | x in t) == (set x | x in s) - {s[i]}
  {
    assert forall j :: 0 <= j < |t| ==> t[j] == s[if j < i then j else j + 1];
    forall x | x in s
      ensures x == s[i] || x in t
    {
      var j :| 0 <= j < |s| && s[j] == x;
      if j < i { assert t[j] == x; } else if j > i { assert t[j - 1] == x; }
    }
    forall x | x in t
      ensures x != s[i] && x in s
    {
      var j :| 0 <= j < |t| && t[j] == x;
      if j < i {
        assert Before(s[j], s[i]);
        BeforeTotal(s[j], s[i]);
      } else {
        assert Before(s[i], s[j + 1]);
        BeforeTotal(s[i], s[j + 1]);
      }
    }
  }

  /** A directory is listed in name order, whatever order its entries come in. */
  lemma {:induction false} ListingOf(names: set<string>, s: seq<string>)
    requires Lists(s, names)
    ensures Listing(names) == s
    decreases |s|
  {
    if s == [] {
      assert names == {};
    } else {
      assert s[0] in names;
      var x :| x in names && Listing(names) == Insert(x, Listing(names - {x}));
      var i :| 0 <= i < |s| && s[i] == x;
      AscendingWithout(s, i, s[..i] + s[i + 1..]);
      ListingOf(names - {x}, s[..i] + s[i + 1..]);
      InsertBack(s, i);
    }
  }

  lemma {:induction false} ListingHolds(names: set<string>, x: string)
    requires x in names
    ensures x in Listing(names)
    decreases |names|
  {
    var y :| y in names && Listing(names) == Insert(y, Listing(names - {y}));
    if x != y { ListingHolds(names - {y}, x); }
    InsertHolds(y, Listing(names - {y}), x);
  }

  lemma {:induction false} InsertHolds(y: string, s: seq<string>, x: string)
    requires x == y || x in s
    ensures x in Insert(y, s)
  {
    if s != [] && !Before(y, s[0]) {
      if x == s[0] { assert Insert(y, s)[0] == x; } else { InsertHolds(y, s[1..], x); }
    }
  }

  /** A tidy directory lists as the segment list in memory. */
  lemma FilesAreNames(l: Log)
    requires Layout(l) && Tidy(l)
    ensures SegmentFiles(l.options.format, l.disk) == (set x | x in l.names)
  {
    forall f | f in l.names
      ensures f in SegmentFiles(l.options.format, l.disk)
    {
      var i :| 0 <= i < |l.names| && l.names[i] == f;
      var n := NameAt(l, i);
      assert SegmentStored(l.options, l.names, l.disk, Packed(l), i);
    }
  }
}
