/** The fold of `SnapshotRecords`, step by step. */
module SnapshotReader {
  import opened ChangeRecords
  import opened LogPaging
  import opened LogSnapshot
  import opened Wrappers

  /** The loop over the history that overwrites older records of the same key. */
  method FoldLatest(key: Keys, h: seq<ChangeRecord>, version: nat) returns (m: map<string, ChangeRecord>)
    ensures m == Latest(key, h, version)
  {
    m := map[];
    var i := 0;
    assert h[..0] == [];
    while i < |h|
      invariant i <= |h| && m == Latest(key, h[..i], version)
    {
      assert h[..i + 1][..i] == h[..i];
      if h[i].commitVersion <= version { m := m[key(h[i]) := h[i]]; }
      i := i + 1;
    }
    assert h[..i] == h;
  }

  // ---------------------------------------------------------------- sorting

  function Insert(r: ChangeRecord, rs: seq<ChangeRecord>): (s: seq<ChangeRecord>) {
    if rs == [] || !Less(rs[0], r) then [r] + rs else [rs[0]] + Insert(r, rs[1..])
  }

  lemma {:induction false} InsertElements(r: ChangeRecord, rs: seq<ChangeRecord>)
    ensures forall x :: x in Insert(r, rs) <==> x == r || x in rs
  {
    if !(rs == [] || !Less(rs[0], r)) {
      InsertElements(r, rs[1..]);
      assert rs == [rs[0]] + rs[1..];
    }
  }

  lemma LessTransitive(a: ChangeRecord, b: ChangeRecord, c: ChangeRecord)
    requires !Less(b, a) && !Less(c, b)
    ensures !Less(c, a)
  {
  }

  lemma {:induction false} InsertInOrder(r: ChangeRecord, rs: seq<ChangeRecord>)
    requires InOrder(rs)
    ensures InOrder(Insert(r, rs))
  {
    if rs == [] || !Less(rs[0], r) {
      var t := [r] + rs;
      forall i, j | 0 <= i < j < |t|
        ensures !Less(t[j], t[i])
      {
        if i == 0 && j > 1 { LessTransitive(r, rs[0], rs[j - 1]); }
      }
    } else {
      var rest := Insert(r, rs[1..]);
      var t := [rs[0]] + rest;
      InsertInOrder(r, rs[1..]);
      InsertElements(r, rs[1..]);
      forall i, j | 0 <= i < j < |t|
        ensures !Less(t[j], t[i])
      {
        if i == 0 {
          assert rest[j - 1] in rest;
          if rest[j - 1] != r {
            var k :| 0 <= k < |rs[1..]| && rs[1..][k] == rest[j - 1];
            assert !Less(rs[k + 1], rs[0]);
          }
        } else {
          assert !Less(rest[j - 1], rest[i - 1]);
        }
      }
    }
  }

  // ---------------------------------------------------------------- the live records

  /** Each live key of `done` once. */
  predicate ListsSome(key: Keys, m: map<string, ChangeRecord>, rs: seq<ChangeRecord>, done: set<string>) {
    && (forall i :: 0 <= i < |rs| ==> key(rs[i]) in done && Live(m, key(rs[i])) && m[key(rs[i])] == rs[i])
    && (forall i, j :: 0 <= i < j < |rs| ==> key(rs[i]) != key(rs[j]))
    && (forall k :: k in done && Live(m, k) ==> m[k] in rs)
  }

  lemma {:induction false} InsertKeysDiffer(key: Keys, r: ChangeRecord, rs: seq<ChangeRecord>)
    requires forall i, j :: 0 <= i < j < |rs| ==> key(rs[i]) != key(rs[j])
    requires forall i :: 0 <= i < |rs| ==> key(rs[i]) != key(r)
    ensures forall i, j :: 0 <= i < j < |Insert(r, rs)| ==> key(Insert(r, rs)[i]) != key(Insert(r, rs)[j])
  {
    if !(rs == [] || !Less(rs[0], r)) {
      InsertKeysDiffer(key, r, rs[1..]);
      InsertElements(r, rs[1..]);
      var rest := Insert(r, rs[1..]);
      var t := [rs[0]] + rest;
      forall i, j | 0 <= i < j < |t|
        ensures key(t[i]) != key(t[j])
      {
        if i == 0 {
          assert rest[j - 1] in rest;
          if rest[j - 1] != r {
            var k :| 0 <= k < |rs[1..]| && rs[1..][k] == rest[j - 1];
            assert key(rs[0]) != key(rs[k + 1]);
          }
        } else {
          assert key(rest[i - 1]) != key(rest[j - 1]);
        }
      }
    }
  }

  lemma ListsOneMore(key: Keys, m: map<string, ChangeRecord>, rs: seq<ChangeRecord>, done: set<string>, k: string)
    requires Filed(key, m) && ListsSome(key, m, rs, done) && k in m && k !in done
    ensures Live(m, k) ==> ListsSome(key, m, Insert(m[k], rs), done + {k})
    ensures !Live(m, k) ==> ListsSome(key, m, rs, done + {k})
  {
    if Live(m, k) {
      var s := Insert(m[k], rs);
      InsertElements(m[k], rs);
      InsertKeysDiffer(key, m[k], rs);
      forall i | 0 <= i < |s|
        ensures key(s[i]) in done + {k} && Live(m, key(s[i])) && m[key(s[i])] == s[i]
      {
        assert s[i] in s;
      }
    }
  }

  /** The loop over the map, in any order, and the sort. */
  method CollectLive(key: Keys, m: map<string, ChangeRecord>) returns (rs: seq<ChangeRecord>)
    requires Filed(key, m)
    ensures ListsLive(key, m, rs) && InOrder(rs)
  {
    var left := m.Keys;
    rs := [];
    while left != {}
      invariant left <= m.Keys && ListsSome(key, m, rs, m.Keys - left) && InOrder(rs)
      decreases left
    {
      var k :| k in left;
      ListsOneMore(key, m, rs, m.Keys - left, k);
      assert m.Keys - (left - {k}) == (m.Keys - left) + {k};
      if !m[k].operation.Delete? {
        InsertInOrder(m[k], rs);
        rs := Insert(m[k], rs);
      }
      left := left - {k};
    }
    assert m.Keys - left == m.Keys;
  }

  // ---------------------------------------------------------------- the page

  /** The last loop of `SnapshotRecords`: renumber, skip, and fill the page. */
  method RenumberAndFill(size: Sizes, rs: seq<ChangeRecord>, after: nat, count: nat, limit: nat)
    returns (out: seq<ChangeRecord>, tooLarge: bool)
    requires count > 0 && limit > 0
    ensures out == Page(size, Numbered(rs), after, count, limit)
    ensures tooLarge <==> after < |rs| && size(Numbered(rs)[after]) > limit
  {
    out, tooLarge := [], false;
    var bytes: nat, i: nat := 0, 0;
    ghost var all := Numbered(rs);
    ghost var goal := Page(size, all, after, count, limit);
    FilledStart(size, all, after, count, limit);
    while i < |rs|
      invariant i <= |rs| && |out| < count && bytes <= limit && (out == [] ==> bytes == 0 && i <= after)
      invariant out != [] ==> after < i && size(all[after]) <= limit
      invariant goal == Filled(size, all, after, count, limit, i, out, bytes)
    {
      FilledStep(size, all, after, count, limit, i, out, bytes);
      if i + 1 > after {
        var r := Renumbered(rs[i], i + 1);
        assert r == all[i];
        if out != [] && bytes + size(r) > limit { return; }
        if out == [] && size(r) > limit { return out, true; }
        out := out + [r];
        bytes := bytes + size(r);
        if |out| >= count {
          FilledEnd(size, all, after, count, limit, i + 1, out, bytes);
          return;
        }
      }
      i := i + 1;
    }
    FilledEnd(size, all, after, count, limit, i, out, bytes);
  }

  method FillSnapshotPage(size: Sizes, rs: seq<ChangeRecord>, after: nat, count: nat, limit: nat)
    returns (page: Option<seq<ChangeRecord>>)
    requires count > 0 && limit > 0
    ensures page == SnapshotPage(size, rs, after, count, limit)
  {
    SnapshotPageIsPage(size, rs, after, count, limit);
    var out, tooLarge := RenumberAndFill(size, rs, after, count, limit);
    return if tooLarge then None else Some(out);
  }
}
