/** Snapshots of a change log: `SnapshotRecords` of src/cdc/partition_change_log.cc folds the history to the latest
    record of every logical key.  Here the key is any function that does not depend on where a record is stored. */
module LogSnapshot {
  import opened ChangeRecords
  import opened Segments
  import opened LogSpec
  import opened LogPaging
  import opened Wrappers

  type Keys = ChangeRecord -> string

  function Renumbered(r: ChangeRecord, n: nat): ChangeRecord {
    r.(offset := n, txnId := n, batchIndex := 0, batchSize := 1,
       operation := if r.operation.Unspecified? then Update else r.operation)
  }

  ghost predicate Stable(key: Keys) {
    forall r: ChangeRecord, n: nat :: key(Renumbered(r, n)) == key(r)
  }

  // ---------------------------------------------------------------- the fold

  /** The latest record of every key among those up to a version, in the order of the history. */
  function Latest(key: Keys, h: seq<ChangeRecord>, version: nat): map<string, ChangeRecord>
    decreases |h|
  {
    if h == [] then map[]
    else
      var m, r := Latest(key, h[..|h| - 1], version), h[|h| - 1];
      if r.commitVersion > version then m else m[key(r) := r]
  }

  /** Every entry is filed under its own key. */
  predicate Filed(key: Keys, m: map<string, ChangeRecord>) {
    forall k :: k in m ==> key(m[k]) == k
  }

  lemma {:induction false} LatestFiled(key: Keys, h: seq<ChangeRecord>, version: nat)
    ensures Filed(key, Latest(key, h, version))
    decreases |h|
  {
    if h != [] { LatestFiled(key, h[..|h| - 1], version); }
  }

  predicate Live(m: map<string, ChangeRecord>, k: string) { k in m && !m[k].operation.Delete? }

  /** The order of a snapshot. */
  predicate Less(a: ChangeRecord, b: ChangeRecord) {
    if a.entityId != b.entityId then a.entityId < b.entityId
    else if a.targetId != b.targetId then a.targetId < b.targetId
    else if a.edgeType != b.edgeType then a.edgeType < b.edgeType
    else a.columnId < b.columnId
  }

  predicate InOrder(rs: seq<ChangeRecord>) {
    forall i, j :: 0 <= i < j < |rs| ==> !Less(rs[j], rs[i])
  }

  /** Each live key once. */
  predicate ListsLive(key: Keys, m: map<string, ChangeRecord>, rs: seq<ChangeRecord>) {
    && (forall i :: 0 <= i < |rs| ==> Live(m, key(rs[i])) && m[key(rs[i])] == rs[i])
    && (forall i, j :: 0 <= i < j < |rs| ==> key(rs[i]) != key(rs[j]))
    && (forall k :: k in m && Live(m, k) ==> m[k] in rs)
  }

  /** What the fold may produce: the live records, sorted; records that the order does not tell apart may come in any
      order. */
  predicate IsFold(key: Keys, h: seq<ChangeRecord>, version: nat, rs: seq<ChangeRecord>) {
    ListsLive(key, Latest(key, h, version), rs) && InOrder(rs)
  }

  function Numbered(rs: seq<ChangeRecord>): (s: seq<ChangeRecord>)
    ensures |s| == |rs|
    ensures forall i :: 0 <= i < |rs| ==> s[i] == Renumbered(rs[i], i + 1)
  {
    seq(|rs|, i requires 0 <= i < |rs| => Renumbered(rs[i], i + 1))
  }

  // ---------------------------------------------------------------- replaying changes

  /** What a change says, apart from where it is stored. */
  function Content(r: ChangeRecord): ChangeRecord { Renumbered(r, 0) }

  type State = map<string, ChangeRecord>

  function Apply(key: Keys, s: State, r: ChangeRecord): State {
    if r.operation.Delete? then s - {key(r)} else s[key(r) := Content(r)]
  }

  /** The state after a list of changes. */
  function Replay(key: Keys, s: State, rs: seq<ChangeRecord>): State
    decreases |rs|
  {
    if rs == [] then s else Apply(key, Replay(key, s, rs[..|rs| - 1]), rs[|rs| - 1])
  }

  function LiveState(m: map<string, ChangeRecord>): State {
    map k | k in m && !m[k].operation.Delete? :: Content(m[k])
  }

  function UpTo(h: seq<ChangeRecord>, version: nat): seq<ChangeRecord>
    decreases |h|
  {
    if h == [] then []
    else UpTo(h[..|h| - 1], version) + (if h[|h| - 1].commitVersion <= version then [h[|h| - 1]] else [])
  }

  /** The tail that a subscriber reads after a snapshot. */
  function Beyond(h: seq<ChangeRecord>, version: nat): seq<ChangeRecord>
    decreases |h|
  {
    if h == [] then []
    else Beyond(h[..|h| - 1], version) + (if h[|h| - 1].commitVersion <= version then [] else [h[|h| - 1]])
  }

  lemma ReplayMore(key: Keys, s: State, rs: seq<ChangeRecord>, r: ChangeRecord)
    ensures Replay(key, s, rs + [r]) == Apply(key, Replay(key, s, rs), r)
  {
    assert (rs + [r])[..|rs|] == rs;
  }

  lemma LiveAfter(key: Keys, m: map<string, ChangeRecord>, r: ChangeRecord)
    ensures LiveState(m[key(r) := r]) == Apply(key, LiveState(m), r)
  {
  }

  /** The fold is the replay of what it folds. */
  lemma {:induction false} LatestIsReplay(key: Keys, h: seq<ChangeRecord>, version: nat)
    ensures LiveState(Latest(key, h, version)) == Replay(key, map[], UpTo(h, version))
    decreases |h|
  {
    if h != [] {
      var most, r := h[..|h| - 1], h[|h| - 1];
      LatestIsReplay(key, most, version);
      if r.commitVersion <= version {
        LiveAfter(key, Latest(key, most, version), r);
        ReplayMore(key, map[], UpTo(most, version), r);
      } else {
        assert UpTo(h, version) == UpTo(most, version);
      }
    }
  }

  lemma SplitMore(most: seq<ChangeRecord>, r: ChangeRecord, version: nat)
    ensures UpTo(most + [r], version) == if r.commitVersion <= version then UpTo(most, version) + [r]
            else UpTo(most, version)
    ensures Beyond(most + [r], version) == if r.commitVersion <= version then Beyond(most, version)
            else Beyond(most, version) + [r]
  {
    assert (most + [r])[..|most|] == most;
  }

  lemma {:induction false} AllUpTo(h: seq<ChangeRecord>, version: nat)
    requires forall i :: 0 <= i < |h| ==> h[i].commitVersion <= version
    ensures UpTo(h, version) == h && Beyond(h, version) == []
    decreases |h|
  {
    if h != [] {
      var most, r := h[..|h| - 1], h[|h| - 1];
      AllUpTo(most, version);
      SplitMore(most, r, version);
      assert h == most + [r];
    }
  }

  lemma MonotonePrefix(h: seq<ChangeRecord>, n: nat)
    requires Monotone(h) && n <= |h|
    ensures Monotone(h[..n])
  {
  }

  lemma NoneAbove(h: seq<ChangeRecord>, version: nat)
    requires Monotone(h) && h != [] && h[|h| - 1].commitVersion <= version
    ensures forall i :: 0 <= i < |h| ==> h[i].commitVersion <= version
  {
  }

  // ---------------------------------------------------------------- replaying a snapshot

  function KeysOf(key: Keys, rs: seq<ChangeRecord>): set<string> { set i | 0 <= i < |rs| :: key(rs[i]) }

  function Restricted(s: State, keys: set<string>): State { map k | k in s && k in keys :: s[k] }

  lemma KeysMore(key: Keys, rs: seq<ChangeRecord>, n: nat)
    requires n < |rs|
    ensures KeysOf(key, rs[..n + 1]) == KeysOf(key, rs[..n]) + {key(rs[n])}
  {
    forall k | k in KeysOf(key, rs[..n + 1])
      ensures k in KeysOf(key, rs[..n]) + {key(rs[n])}
    {
      var i :| 0 <= i < n + 1 && k == key(rs[..n + 1][i]);
      if i < n { assert k == key(rs[..n][i]); }
    }
    forall k | k in KeysOf(key, rs[..n]) + {key(rs[n])}
      ensures k in KeysOf(key, rs[..n + 1])
    {
      if k in KeysOf(key, rs[..n]) {
        var i :| 0 <= i < n && k == key(rs[..n][i]);
        assert k == key(rs[..n + 1][i]);
      } else {
        assert k == key(rs[..n + 1][n]);
      }
    }
  }

  lemma RestrictedMore(s: State, keys: set<string>, k: string)
    requires k in s
    ensures Restricted(s, keys + {k}) == Restricted(s, keys)[k := s[k]]
  {
  }

  /** A record of a snapshot puts the live state of its key in place. */
  lemma NumberedApplies(key: Keys, m: map<string, ChangeRecord>, rs: seq<ChangeRecord>, i: nat, s: State)
    requires Stable(key) && ListsLive(key, m, rs) && i < |rs|
    ensures key(rs[i]) in LiveState(m)
    ensures Apply(key, s, Numbered(rs)[i]) == s[key(rs[i]) := LiveState(m)[key(rs[i])]]
  {
    assert Live(m, key(rs[i])) && m[key(rs[i])] == rs[i];
    assert key(Renumbered(rs[i], i + 1)) == key(rs[i]);
  }

  /** Replaying the first n records of a snapshot gives the live state on their keys. */
  lemma {:induction false} ReplayNumbered(key: Keys, m: map<string, ChangeRecord>, rs: seq<ChangeRecord>, n: nat)
    requires Stable(key) && ListsLive(key, m, rs) && n <= |rs|
    ensures Replay(key, map[], Numbered(rs)[..n]) == Restricted(LiveState(m), KeysOf(key, rs[..n]))
  {
    if n == 0 {
      NothingRestricted(key, LiveState(m), rs);
    } else {
      ReplayNumbered(key, m, rs, n - 1);
      ReplayedOneMore(key, m, rs, n - 1);
    }
  }

  lemma NothingRestricted(key: Keys, s: State, rs: seq<ChangeRecord>)
    ensures Restricted(s, KeysOf(key, rs[..0])) == map[]
  {
    assert KeysOf(key, rs[..0]) == {};
  }

  lemma ReplayedOneMore(key: Keys, m: map<string, ChangeRecord>, rs: seq<ChangeRecord>, i: nat)
    requires Stable(key) && ListsLive(key, m, rs) && i < |rs|
    requires Replay(key, map[], Numbered(rs)[..i]) == Restricted(LiveState(m), KeysOf(key, rs[..i]))
    ensures Replay(key, map[], Numbered(rs)[..i + 1]) == Restricted(LiveState(m), KeysOf(key, rs[..i + 1]))
  {
    NumberedApplies(key, m, rs, i, Replay(key, map[], Numbered(rs)[..i]));
    ReplayNext(key, Numbered(rs), i);
    KeysMore(key, rs, i);
    RestrictedMore(LiveState(m), KeysOf(key, rs[..i]), key(rs[i]));
  }

  lemma ReplayNext(key: Keys, s: seq<ChangeRecord>, i: nat)
    requires i < |s|
    ensures Replay(key, map[], s[..i + 1]) == Apply(key, Replay(key, map[], s[..i]), s[i])
  {
    assert s[..i + 1] == s[..i] + [s[i]];
    ReplayMore(key, map[], s[..i], s[i]);
  }

  lemma KeysCover(key: Keys, m: map<string, ChangeRecord>, rs: seq<ChangeRecord>)
    requires ListsLive(key, m, rs) && Filed(key, m)
    ensures Restricted(LiveState(m), KeysOf(key, rs)) == LiveState(m)
  {
    forall k | k in LiveState(m)
      ensures k in KeysOf(key, rs)
    {
      assert Live(m, k);
      var i :| 0 <= i < |rs| && rs[i] == m[k];
    }
  }

  /** A snapshot replays to the state that its version's part of the history replays to. */
  lemma SnapshotIsPrefixReplay(key: Keys, h: seq<ChangeRecord>, version: nat, rs: seq<ChangeRecord>)
    requires Stable(key) && IsFold(key, h, version, rs)
    ensures Replay(key, map[], Numbered(rs)) == Replay(key, map[], UpTo(h, version))
  {
    var m := Latest(key, h, version);
    LatestFiled(key, h, version);
    ReplayNumbered(key, m, rs, |rs|);
    assert Numbered(rs)[..|rs|] == Numbered(rs) && rs[..|rs|] == rs;
    KeysCover(key, m, rs);
    LatestIsReplay(key, h, version);
  }

  // ---------------------------------------------------------------- a snapshot and the changes after it

  /** The last record of one key. */
  function LastOf(key: Keys, h: seq<ChangeRecord>, k: string): Option<ChangeRecord>
    decreases |h|
  {
    if h == [] then None
    else if key(h[|h| - 1]) == k then Some(h[|h| - 1])
    else LastOf(key, h[..|h| - 1], k)
  }

  function At(s: State, k: string): Option<ChangeRecord> { if k in s then Some(s[k]) else None }

  /** What a record leaves in the state. */
  function Outcome(r: ChangeRecord): Option<ChangeRecord> { if r.operation.Delete? then None else Some(Content(r)) }

  /** A replay leaves under each key what the key's last record says. */
  lemma {:induction false} ReplayAt(key: Keys, s: State, h: seq<ChangeRecord>, k: string)
    ensures var last := LastOf(key, h, k);
            At(Replay(key, s, h), k) == if last.Some? then Outcome(last.value) else At(s, k)
    decreases |h|
  {
    if h != [] { ReplayAt(key, s, h[..|h| - 1], k); }
  }

  lemma LastMore(key: Keys, most: seq<ChangeRecord>, r: ChangeRecord, k: string)
    ensures LastOf(key, most + [r], k) == if key(r) == k then Some(r) else LastOf(key, most, k)
  {
    assert (most + [r])[..|most|] == most;
  }

  /** How a key's last record, its last one in the tail and its last one up to the version are related. */
  predicate LastParts(version: nat, last: Option<ChangeRecord>, tail: Option<ChangeRecord>,
                      head: Option<ChangeRecord>) {
    && (tail.None? ==> last == head)
    && (tail.Some? ==> last.Some? && tail.value.commitVersion > version)
    && (last.Some? && last.value.commitVersion > version ==> tail == last)
  }

  /** The last record of a key is in the tail, or the last of those up to the version. */
  lemma {:induction false} LastSplit(key: Keys, h: seq<ChangeRecord>, version: nat, k: string)
    ensures LastParts(version, LastOf(key, h, k), LastOf(key, Beyond(h, version), k), LastOf(key, UpTo(h, version), k))
    decreases |h|
  {
    if h != [] {
      var most, r := h[..|h| - 1], h[|h| - 1];
      LastSplit(key, most, version, k);
      assert h == most + [r];
      LastSplitMore(key, most, r, version, k, UpTo(most, version), Beyond(most, version));
    }
  }

  lemma LastSplitMore(key: Keys, most: seq<ChangeRecord>, r: ChangeRecord, version: nat, k: string,
                      head: seq<ChangeRecord>,
                      tail: seq<ChangeRecord>)
    requires head == UpTo(most, version) && tail == Beyond(most, version)
    requires LastParts(version, LastOf(key, most, k), LastOf(key, tail, k), LastOf(key, head, k))
    ensures var h := most + [r];
            LastParts(version, LastOf(key, h, k), LastOf(key, Beyond(h, version), k), LastOf(key, UpTo(h, version), k))
  {
    SplitMore(most, r, version);
    LastMore(key, most, r, k);
    LastMore(key, head, r, k);
    LastMore(key, tail, r, k);
  }

  /** A key that the tail settles: its last record is in the tail, or that record and its last one in the tail both
      delete it. */
  predicate Settled(key: Keys, h: seq<ChangeRecord>, version: nat, k: string) {
    var last, tail := LastOf(key, h, k), LastOf(key, Beyond(h, version), k);
    last.Some? && tail.Some? ==>
      last.value.commitVersion > version || (last.value.operation.Delete? && tail.value.operation.Delete?)
  }

  /** Snapshot and tail agree with the whole history on a key exactly if the tail settles it. */
  lemma SettledExactly(key: Keys, h: seq<ChangeRecord>, version: nat, k: string)
    ensures var s := Replay(key, map[], UpTo(h, version));
            At(Replay(key, s, Beyond(h, version)), k) == At(Replay(key, map[], h), k) <==> Settled(key, h, version, k)
  {
    var s := Replay(key, map[], UpTo(h, version));
    ReplayAt(key, s, Beyond(h, version), k);
    ReplayAt(key, map[], UpTo(h, version), k);
    ReplayAt(key, map[], h, k);
    LastSplit(key, h, version, k);
  }

  lemma SameEverywhere(a: State, b: State)
    ensures a == b <==> forall k :: At(a, k) == At(b, k)
  {
    if forall k :: At(a, k) == At(b, k) {
      forall k
        ensures k in a <==> k in b
        ensures k in a ==> a[k] == b[k]
      {
        assert At(a, k) == At(b, k);
      }
    }
  }

  lemma {:induction false} LastKeyed(key: Keys, h: seq<ChangeRecord>, k: string)
    ensures LastOf(key, h, k).Some? ==> LastOf(key, h, k).value in h && key(LastOf(key, h, k).value) == k
    decreases |h|
  {
    if h != [] { LastKeyed(key, h[..|h| - 1], k); }
  }

  /** Loading a snapshot and then applying every change with a higher version gives the state of the full history if
      and only if the tail settles each key it changes. */
  lemma SnapshotPlusTailExactly(key: Keys, h: seq<ChangeRecord>, version: nat, rs: seq<ChangeRecord>)
    requires Stable(key) && IsFold(key, h, version, rs)
    ensures Replay(key, Replay(key, map[], Numbered(rs)), Beyond(h, version)) == Replay(key, map[], h) <==>
            forall r :: r in Beyond(h, version) ==> Settled(key, h, version, key(r))
  {
    SnapshotIsPrefixReplay(key, h, version, rs);
    var tail := Beyond(h, version);
    var a, b := Replay(key, Replay(key, map[], UpTo(h, version)), tail), Replay(key, map[], h);
    forall k
      ensures At(a, k) == At(b, k) <==> Settled(key, h, version, k)
    {
      SettledExactly(key, h, version, k);
    }
    SameEverywhere(a, b);
    if forall r :: r in tail ==> Settled(key, h, version, key(r)) {
      forall k
        ensures Settled(key, h, version, k)
      {
        LastKeyed(key, tail, k);
      }
    }
  }

  lemma {:induction false} MonotoneSettles(key: Keys, h: seq<ChangeRecord>, version: nat, k: string)
    requires Monotone(h)
    ensures Settled(key, h, version, k)
    decreases |h|
  {
    if h != [] {
      var most, r := h[..|h| - 1], h[|h| - 1];
      if r.commitVersion <= version {
        NoneAbove(h, version);
        AllUpTo(h, version);
      } else if key(r) != k {
        MonotonePrefix(h, |h| - 1);
        MonotoneSettles(key, most, version, k);
        SplitMore(most, r, version);
        assert h == most + [r];
        LastMore(key, Beyond(most, version), r, k);
      }
    }
  }

  /** In particular if the versions of the history are monotone. */
  lemma SnapshotPlusTail(key: Keys, h: seq<ChangeRecord>, version: nat, rs: seq<ChangeRecord>)
    requires Stable(key) && Monotone(h) && IsFold(key, h, version, rs)
    ensures Replay(key, Replay(key, map[], Numbered(rs)), Beyond(h, version)) == Replay(key, map[], h)
  {
    forall r | r in Beyond(h, version)
      ensures Settled(key, h, version, key(r))
    {
      MonotoneSettles(key, h, version, key(r));
    }
    SnapshotPlusTailExactly(key, h, version, rs);
  }

  /** A history that fails: of two changes of one key, the one with the higher version wins although the other one
      came later. */
  lemma OutOfOrderTailFails(key: Keys, early: ChangeRecord, late: ChangeRecord)
    requires Stable(key) && key(early) == key(late) && late.operation.Update?
    requires late.commitVersion < early.commitVersion
    ensures var h, v := [early, late], late.commitVersion;
            IsFold(key, h, v, [late]) &&
            Replay(key, Replay(key, map[], Numbered([late])), Beyond(h, v)) != Replay(key, map[], h)
  {
    var h, v, k := [early, late], late.commitVersion, key(late);
    assert h == [early] + [late] && [early] == [] + [early];
    assert [early][..0] == [] && h[..1] == [early];
    assert Latest(key, [early], v) == Latest(key, [], v) == map[];
    assert Latest(key, h, v) == map[k := late];
    SplitMore([], early, v);
    SplitMore([early], late, v);
    assert Beyond(h, v) == [early];
    assert LastOf(key, h, k) == Some(late) && LastOf(key, [early], k) == Some(early);
    SnapshotPlusTailExactly(key, h, v, [late]);
    assert early in Beyond(h, v);
  }

  // ---------------------------------------------------------------- pages of a snapshot

  /** No two live records that the order does not tell apart. */
  predicate ToldApart(m: map<string, ChangeRecord>) {
    forall k, l :: k in m && l in m && k != l && Live(m, k) && Live(m, l) ==> Less(m[k], m[l]) || Less(m[l], m[k])
  }

  /** Sorted, and no two the same in order. */
  predicate Strict(rs: seq<ChangeRecord>) {
    forall i, j :: 0 <= i < j < |rs| ==> Less(rs[i], rs[j])
  }

  lemma FoldIsStrict(key: Keys, m: map<string, ChangeRecord>, rs: seq<ChangeRecord>)
    requires ListsLive(key, m, rs) && InOrder(rs) && ToldApart(m)
    ensures Strict(rs)
  {
    forall i, j | 0 <= i < j < |rs|
      ensures Less(rs[i], rs[j])
    {
      assert key(rs[i]) != key(rs[j]) && !Less(rs[j], rs[i]);
      assert m[key(rs[i])] == rs[i] && m[key(rs[j])] == rs[j];
    }
  }

  /** There is only one strictly sorted list of the same records. */
  lemma {:induction false} StrictUnique(a: seq<ChangeRecord>, b: seq<ChangeRecord>)
    requires Strict(a) && Strict(b) && (forall r :: r in a <==> r in b)
    ensures a == b
    decreases |a|
  {
    SomeToo(a, b);
    SomeToo(b, a);
    if a != [] {
      assert a[0] in b && b[0] in a;
      var j :| 0 <= j < |b| && b[j] == a[0];
      var i :| 0 <= i < |a| && a[i] == b[0];
      assert j == 0 || Less(b[0], b[j]);
      assert i == 0 || Less(a[0], a[i]);
      RestSame(a, b);
      StrictUnique(a[1..], b[1..]);
      assert a == [a[0]] + a[1..] && b == [b[0]] + b[1..];
    }
  }

  lemma SomeToo(a: seq<ChangeRecord>, b: seq<ChangeRecord>)
    requires forall r :: r in a ==> r in b
    ensures a == [] || b != []
  {
    if a != [] { assert a[0] in b; }
  }

  lemma RestSame(a: seq<ChangeRecord>, b: seq<ChangeRecord>)
    requires Strict(a) && Strict(b) && (forall r :: r in a <==> r in b) && a != [] && b != [] && a[0] == b[0]
    ensures Strict(a[1..]) && Strict(b[1..]) && forall r :: r in a[1..] <==> r in b[1..]
  {
    RestWithin(a, b);
    RestWithin(b, a);
  }

  lemma RestWithin(a: seq<ChangeRecord>, b: seq<ChangeRecord>)
    requires Strict(a) && (forall r :: r in a ==> r in b) && a != [] && b != [] && a[0] == b[0]
    ensures Strict(a[1..]) && forall r :: r in a[1..] ==> r in b[1..]
  {
    forall r | r in a[1..]
      ensures r in b[1..]
    {
      var i :| 0 <= i < |a[1..]| && a[1..][i] == r;
      assert Less(a[0], a[i + 1]) && r in a;
      var j :| 0 <= j < |b| && b[j] == r;
      assert j > 0;
      assert b[1..][j - 1] == r;
    }
  }

  /** If no two live records tie, every call folds to the same list. */
  lemma FoldUnique(key: Keys, h: seq<ChangeRecord>, version: nat, a: seq<ChangeRecord>, b: seq<ChangeRecord>)
    requires IsFold(key, h, version, a) && IsFold(key, h, version, b) && ToldApart(Latest(key, h, version))
    ensures a == b
  {
    var m := Latest(key, h, version);
    FoldIsStrict(key, m, a);
    FoldIsStrict(key, m, b);
    forall r
      ensures r in a <==> r in b
    {
      if r in a { assert Live(m, key(r)); }
      if r in b { assert Live(m, key(r)); }
    }
    StrictUnique(a, b);
  }

  /** What `SnapshotRecords` returns after a snapshot offset; None if the next record is larger than a page. */
  function SnapshotPage(size: Sizes, rs: seq<ChangeRecord>, after: nat, count: nat,
                        bytes: nat): Option<seq<ChangeRecord>> {
    if count == 0 || bytes == 0 then Some([])
    else
      var rest := if after <= |rs| then Numbered(rs)[after..] else [];
      if rest != [] && size(rest[0]) > bytes then None else Some(rest[..PageLength(size, rest, count, bytes)])
  }

  lemma SnapshotPageIsPage(size: Sizes, rs: seq<ChangeRecord>, after: nat, count: nat, bytes: nat)
    ensures Contiguous(Numbered(rs), 1)
    ensures var p := SnapshotPage(size, rs, after, count, bytes);
            p.Some? ==> p.value == Page(size, Numbered(rs), after, count, bytes)
    ensures SnapshotPage(size, rs, after, count, bytes).None? <==>
            count > 0 && bytes > 0 && after < |rs| && size(Numbered(rs)[after]) > bytes
  {
    AfterOfContiguous(Numbered(rs), 1, after);
  }

  /** The pages of a snapshot, each asked for with the last offset of the one before, are one list: the snapshot. */
  lemma SnapshotPagesJoin(size: Sizes, rs: seq<ChangeRecord>, count: nat, bytes: nat)
    requires count > 0 && bytes > 0 && EachFits(size, Numbered(rs), bytes)
    ensures Contiguous(Numbered(rs), 1)
    ensures Flatten(Pages(size, Numbered(rs), 1, 0, count, bytes)) == Numbered(rs)
    ensures forall after :: 0 <= after ==>
              SnapshotPage(size, rs, after, count, bytes) == Some(Page(size, Numbered(rs), after, count, bytes))
  {
    AfterOfContiguous(Numbered(rs), 1, 0);
    PagesEnumerate(size, Numbered(rs), 1, 0, count, bytes);
    AllReachable(size, Numbered(rs), bytes);
    forall after | 0 <= after
      ensures SnapshotPage(size, rs, after, count, bytes) == Some(Page(size, Numbered(rs), after, count, bytes))
    {
      SnapshotPageIsPage(size, rs, after, count, bytes);
    }
  }

  // ---------------------------------------------------------------- pages from separate calls

  /** The answers to calls: the i-th call from the last, asking for what follows an offset. */
  type Answers = (nat, nat) -> Option<seq<ChangeRecord>>

  /** What a subscriber gets in at most n calls, each with the last offset of the page before. */
  function Fetched(answers: Answers, n: nat, after: nat): seq<ChangeRecord> {
    if n == 0 then []
    else
      var page := answers(n, after);
      if page.None? || page.value == [] then []
      else page.value + Fetched(answers, n - 1, page.value[|page.value| - 1].offset)
  }

  /** A page of s: at least one record if there is one, and its last offset says how far it got. */
  predicate PageOf(s: seq<ChangeRecord>, after: nat, page: Option<seq<ChangeRecord>>)
    requires after <= |s|
  {
    && page.Some? && |page.value| <= |s| - after && page.value == s[after..][..|page.value|]
    && (page.value == [] <==> after == |s|)
    && (page.value != [] ==> page.value[|page.value| - 1].offset == after + |page.value|)
  }

  lemma {:induction false} FetchedAll(answers: Answers, s: seq<ChangeRecord>, n: nat, after: nat)
    requires forall i: nat, k: nat :: k <= |s| ==> PageOf(s, k, answers(i, k))
    requires after <= |s| && n >= |s| - after
    ensures Fetched(answers, n, after) == s[after..]
    decreases n
  {
    if n > 0 {
      assert PageOf(s, after, answers(n, after));
      var page := answers(n, after).value;
      if page != [] { FetchedAll(answers, s, n - 1, after + |page|); }
    }
  }

  /** Each call folds the history anew; the fold of the i-th is folds(i). */
  function Calls(size: Sizes, folds: nat -> seq<ChangeRecord>, count: nat, bytes: nat): Answers {
    (i: nat, after: nat) => SnapshotPage(size, folds(i), after, count, bytes)
  }

  ghost predicate AllFold(key: Keys, h: seq<ChangeRecord>, version: nat, folds: nat -> seq<ChangeRecord>) {
    forall i: nat :: IsFold(key, h, version, folds(i))
  }

  /** If no two live records tie, the pages of separate calls are one snapshot: nothing is missing and nothing comes
      twice, although each call sorts for itself. */
  lemma SeparateCallsJoin(key: Keys, h: seq<ChangeRecord>, version: nat, rs: seq<ChangeRecord>, size: Sizes,
                          folds: nat -> seq<ChangeRecord>, n: nat, count: nat, bytes: nat)
    requires AllFold(key, h, version, folds) && IsFold(key, h, version, rs) && ToldApart(Latest(key, h, version))
    requires count > 0 && bytes > 0 && EachFits(size, Numbered(rs), bytes) && n >= |rs|
    ensures Fetched(Calls(size, folds, count, bytes), n, 0) == Numbered(rs)
  {
    var answers := Calls(size, folds, count, bytes);
    forall i: nat, after: nat | after <= |rs|
      ensures PageOf(Numbered(rs), after, answers(i, after))
    {
      FoldUnique(key, h, version, folds(i), rs);
      PageFrom(size, rs, after, count, bytes);
    }
    FetchedAll(answers, Numbered(rs), n, 0);
    assert Numbered(rs)[0..] == Numbered(rs);
  }

  lemma PageFrom(size: Sizes, rs: seq<ChangeRecord>, after: nat, count: nat, bytes: nat)
    requires count > 0 && bytes > 0 && EachFits(size, Numbered(rs), bytes) && after <= |rs|
    ensures PageOf(Numbered(rs), after, SnapshotPage(size, rs, after, count, bytes))
  {
    var rest := Numbered(rs)[after..];
    if rest != [] {
      assert rest[0] == Numbered(rs)[after];
      assert size(Numbered(rs)[after]) <= bytes;
    }
  }
}

/** The logical key of a change record. */
module SnapshotKeys {
  import opened ChangeRecords
  import opened Decimal
  import LogSnapshot

  function Joined(fields: seq<nat>): string {
    if fields == [] then "" else Numeral(fields[0]) + ":" + Joined(fields[1..])
  }

  function KeyFields(r: ChangeRecord): seq<nat> {
    [r.partitionId, r.entityId, r.targetId, r.entityType, r.edgeType, r.columnId]
  }

  /** `SnapshotLogicalKey`: the fields in decimal with colons between them. */
  function Key(r: ChangeRecord): string {
    Joined(KeyFields(r)[..5]) + Numeral(r.columnId)
  }

  lemma {:induction false} SplitAtColon(a: string, b: string, x: string, y: string)
    requires AllDigits(a) && AllDigits(b) && a + ":" + x == b + ":" + y
    ensures a == b && x == y
    decreases |a|
  {
    var s, t := a + ":" + x, b + ":" + y;
    assert s[0] == if a == [] then ':' else a[0];
    assert t[0] == if b == [] then ':' else b[0];
    if a == [] {
      assert s[1..] == x && t[1..] == y;
    } else {
      assert s[1..] == a[1..] + ":" + x && t[1..] == b[1..] + ":" + y;
      SplitAtColon(a[1..], b[1..], x, y);
      assert a == [a[0]] + a[1..] && b == [b[0]] + b[1..];
    }
  }

  lemma {:induction false} JoinedInjective(f: seq<nat>, g: seq<nat>, x: string, y: string)
    requires |f| == |g| && Joined(f) + x == Joined(g) + y
    ensures f == g && x == y
    decreases |f|
  {
    if f != [] {
      var s, t := Joined(f[1..]) + x, Joined(g[1..]) + y;
      assert Joined(f) + x == Numeral(f[0]) + ":" + s;
      assert Joined(g) + y == Numeral(g[0]) + ":" + t;
      SplitAtColon(Numeral(f[0]), Numeral(g[0]), s, t);
      NumeralInjective(f[0], g[0]);
      JoinedInjective(f[1..], g[1..], x, y);
      assert f == [f[0]] + f[1..] && g == [g[0]] + g[1..];
    } else {
      assert Joined(f) + x == x && Joined(g) + y == y;
    }
  }

  /** Two records have the same key string if and only if they agree on all six fields. */
  lemma KeyInjective(a: ChangeRecord, b: ChangeRecord)
    ensures Key(a) == Key(b) <==> KeyFields(a) == KeyFields(b)
  {
    if Key(a) == Key(b) {
      JoinedInjective(KeyFields(a)[..5], KeyFields(b)[..5], Numeral(a.columnId), Numeral(b.columnId));
      NumeralInjective(a.columnId, b.columnId);
      assert KeyFields(a) == KeyFields(a)[..5] + [a.columnId] && KeyFields(b) == KeyFields(b)[..5] + [b.columnId];
    }
  }

  /** The key does not depend on where a record is stored, so everything about snapshots holds of it. */
  lemma KeyStable()
    ensures LogSnapshot.Stable(r => Key(r))
  {
    forall r: ChangeRecord, n: nat
      ensures Key(LogSnapshot.Renumbered(r, n)) == Key(r)
    {
      KeyInjective(LogSnapshot.Renumbered(r, n), r);
    }
  }

  /** A snapshot by this key and the changes after its version give the state of the full history exactly if the tail
      settles each key it changes. */
  lemma KeyedSnapshotPlusTail(h: seq<ChangeRecord>, version: nat, rs: seq<ChangeRecord>)
    requires LogSnapshot.IsFold(r => Key(r), h, version, rs)
    ensures var key, tail := (r: ChangeRecord) => Key(r), LogSnapshot.Beyond(h, version);
            LogSnapshot.Replay(key, LogSnapshot.Replay(key, map[], LogSnapshot.Numbered(rs)), tail) ==
            LogSnapshot.Replay(key, map[], h) <==>
            forall r :: r in tail ==> LogSnapshot.Settled(key, h, version, Key(r))
  {
    KeyStable();
    LogSnapshot.SnapshotPlusTailExactly(r => Key(r), h, version, rs);
  }

  /** The same entity, target, edge type and column. */
  predicate Alike(a: ChangeRecord, b: ChangeRecord) {
    a.entityId == b.entityId && a.targetId == b.targetId && a.edgeType == b.edgeType && a.columnId == b.columnId
  }

  /** In one partition the order of a snapshot tells all live records apart if and only if no two of them differ only
      in the entity type, which the key holds and the order does not look at. */
  lemma ToldApartExactly(m: map<string, ChangeRecord>, partition: nat)
    requires LogSnapshot.Filed(r => Key(r), m) && forall k :: k in m ==> m[k].partitionId == partition
    ensures LogSnapshot.ToldApart(m) <==>
            forall k, l :: k in m && l in m && LogSnapshot.Live(m, k) && LogSnapshot.Live(m, l) && Alike(m[k], m[l]) ==>
              m[k].entityType == m[l].entityType
  {
    forall k, l | k in m && l in m && Alike(m[k], m[l])
      ensures k == l <==> m[k].entityType == m[l].entityType
    {
      assert Key(m[k]) == k && Key(m[l]) == l;
      KeyInjective(m[k], m[l]);
    }
    forall k, l | k in m && l in m
      ensures !Alike(m[k], m[l]) <==> LogSnapshot.Less(m[k], m[l]) || LogSnapshot.Less(m[l], m[k])
    {
    }
  }
}
