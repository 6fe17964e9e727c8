/** Stable sorting under a strict weak order: what a stable sort returns is determined by its input. */
module Sorting {

  /** A strict weak order on 0..n: asymmetric, and "not after" is transitive. */
  ghost predicate WeakOrder(less: (nat, nat) -> bool, n: nat) {
    && (forall i: nat, j: nat {:trigger less(i, j), less(j, i)} :: i < n && j < n ==> !(less(i, j) && less(j, i)))
    && (forall i: nat, j: nat, k: nat {:trigger less(j, i), less(k, j)} ::
          i < n && j < n && k < n && !less(j, i) && !less(k, j) ==> !less(k, i))
  }

  /** Before in a stable sort: less, or tied and first in the input. */
  predicate Ahead(less: (nat, nat) -> bool, i: nat, j: nat) { less(i, j) || (!less(j, i) && i < j) }

  ghost predicate Ascends(less: (nat, nat) -> bool, p: seq<nat>) {
    forall i, j :: 0 <= i < j < |p| ==> Ahead(less, p[i], p[j])
  }

  /** Exactly the positions below n. */
  ghost predicate Positions(p: seq<nat>, n: nat) { forall k: nat :: k in p <==> k < n }

  ghost predicate Below(p: seq<nat>, n: nat) { forall i :: 0 <= i < |p| ==> p[i] < n }

  ghost predicate SameMembers(p: seq<nat>, q: seq<nat>) { forall k: nat :: k in p <==> k in q }

  /** The positions of a stable sorted permutation of n things. */
  ghost predicate StableSorted(less: (nat, nat) -> bool, n: nat, p: seq<nat>) { Positions(p, n) && Ascends(less, p) }

  lemma PositionsBelow(p: seq<nat>, n: nat)
    requires Positions(p, n)
    ensures Below(p, n)
  {
    forall i | 0 <= i < |p|
      ensures p[i] < n
    {
      assert p[i] in p;
    }
  }

  lemma SomeMember(q: seq<nat>)
    ensures q == [] || exists k: nat :: k in q
  {
    if q != [] { assert q[0] in q; }
  }

  lemma AheadTransitive(less: (nat, nat) -> bool, n: nat, i: nat, j: nat, k: nat)
    requires WeakOrder(less, n) && i < n && j < n && k < n && Ahead(less, i, j) && Ahead(less, j, k)
    ensures Ahead(less, i, k)
  {
    assert !less(j, i) && !less(k, j);
    assert !less(k, i);
    assert !less(k, j) && !less(i, k) ==> !less(i, j);
  }

  lemma AheadTotal(less: (nat, nat) -> bool, n: nat, i: nat, j: nat)
    requires WeakOrder(less, n) && i < n && j < n
    ensures i != j ==> (Ahead(less, i, j) <==> !Ahead(less, j, i))
    ensures !Ahead(less, i, i)
  {
    assert !(less(i, j) && less(j, i));
    assert !(less(i, i) && less(i, i));
  }

  /** A stable sorted permutation is unique. */
  lemma {:induction false} StableUnique(less: (nat, nat) -> bool, n: nat, p: seq<nat>, q: seq<nat>)
    requires WeakOrder(less, n) && Ascends(less, p) && Ascends(less, q)
    requires Below(p, n) && SameMembers(p, q)
    ensures p == q
    decreases |p|
  {
    if p == [] {
      SomeMember(q);
    } else {
      SameLast(less, n, p, q);
      assert Below(q, n) by { forall i | 0 <= i < |q| ensures q[i] < n { assert q[i] in p; } }
      WithoutLast(less, n, p);
      WithoutLast(less, n, q);
      StableUnique(less, n, p[..|p| - 1], q[..|q| - 1]);
      assert p == p[..|p| - 1] + [p[|p| - 1]] && q == q[..|q| - 1] + [q[|q| - 1]];
    }
  }

  lemma SameLast(less: (nat, nat) -> bool, n: nat, p: seq<nat>, q: seq<nat>)
    requires WeakOrder(less, n) && Ascends(less, p) && Ascends(less, q) && p != []
    requires Below(p, n) && SameMembers(p, q)
    ensures q != [] && p[|p| - 1] == q[|q| - 1]
  {
    var a := p[|p| - 1];
    assert a in p && a in q;
    var b := q[|q| - 1];
    assert b in q && b in p;
    if a != b {
      var i :| 0 <= i < |p| && p[i] == b;
      var j :| 0 <= j < |q| && q[j] == a;
      assert Ahead(less, p[i], p[|p| - 1]) && Ahead(less, q[j], q[|q| - 1]);
      AheadTotal(less, n, a, b);
    }
  }

  lemma WithoutLast(less: (nat, nat) -> bool, n: nat, p: seq<nat>)
    requires WeakOrder(less, n) && Ascends(less, p) && p != [] && Below(p, n)
    ensures forall k: nat {:trigger k in p[..|p| - 1]} :: k in p[..|p| - 1] <==> k in p && k != p[|p| - 1]
    ensures Ascends(less, p[..|p| - 1]) && Below(p[..|p| - 1], n)
  {
    var m := |p| - 1;
    forall k: nat
      ensures k in p[..m] <==> k in p && k != p[m]
    {
      if k in p[..m] {
        var i :| 0 <= i < m && p[..m][i] == k;
        assert p[i] == k && p[i] in p && Ahead(less, p[i], p[m]);
        AheadTotal(less, n, k, k);
      }
      if k in p && k != p[m] {
        var i :| 0 <= i < |p| && p[i] == k;
        assert p[..m][i] == k;
      }
    }
  }

  // ---------------------------------------------------------------- a stable sort

  /** Places k behind everything that is not after it. */
  function Place(less: (nat, nat) -> bool, p: seq<nat>, k: nat): (r: seq<nat>)
    ensures |r| == |p| + 1
  {
    if p == [] || !less(k, p[|p| - 1]) then p + [k] else Place(less, p[..|p| - 1], k) + [p[|p| - 1]]
  }

  lemma {:induction false} PlaceMembers(less: (nat, nat) -> bool, p: seq<nat>, k: nat)
    ensures forall x: nat :: x in Place(less, p, k) <==> x in p || x == k
    decreases |p|
  {
    if !(p == [] || !less(k, p[|p| - 1])) {
      PlaceMembers(less, p[..|p| - 1], k);
      assert p == p[..|p| - 1] + [p[|p| - 1]];
    }
  }

  lemma {:induction false} PlaceMultiset(less: (nat, nat) -> bool, p: seq<nat>, k: nat)
    ensures multiset(Place(less, p, k)) == multiset(p) + multiset{k}
    decreases |p|
  {
    if !(p == [] || !less(k, p[|p| - 1])) {
      PlaceMultiset(less, p[..|p| - 1], k);
      assert p == p[..|p| - 1] + [p[|p| - 1]];
    }
  }

  function Upto(n: nat): (p: seq<nat>)
    ensures |p| == n && forall i :: 0 <= i < n ==> p[i] == i
  {
    if n == 0 then [] else Upto(n - 1) + [n - 1]
  }

  /** Where q holds the first element of p, and what both hold besides it. */
  lemma Matching(p: seq<nat>, q: seq<nat>) returns (j: nat)
    requires p != [] && multiset(p) == multiset(q)
    ensures j < |q| && q[j] == p[0] && multiset(p[1..]) == multiset(q[..j] + q[j + 1..])
    ensures p == [p[0]] + p[1..] && q == q[..j] + ([q[j]] + q[j + 1..])
  {
    assert p == [p[0]] + p[1..];
    assert p[0] in multiset(p) && p[0] in q;
    j :| 0 <= j < |q| && q[j] == p[0];
    assert q == q[..j] + ([q[j]] + q[j + 1..]);
    MultisetCancels(multiset(p[1..]), multiset(q[..j] + q[j + 1..]), p[0]);
  }

  lemma MultisetCancels(a: multiset<nat>, b: multiset<nat>, k: nat)
    requires multiset{k} + a == multiset{k} + b
    ensures a == b
  {
    assert a == (multiset{k} + a) - multiset{k};
    assert b == (multiset{k} + b) - multiset{k};
  }

  lemma {:induction false} PlaceAscends(less: (nat, nat) -> bool, n: nat, p: seq<nat>, k: nat)
    requires WeakOrder(less, n) && Ascends(less, p) && k < n && Below(p, k)
    ensures Ascends(less, Place(less, p, k))
    decreases |p|
  {
    if p != [] {
      var m := |p| - 1;
      assert p[m] in p;
      if !less(k, p[m]) {
        forall i | 0 <= i < |p|
          ensures Ahead(less, p[i], k)
        {
          assert p[i] in p;
          assert Ahead(less, p[m], k);
          if i < m { AheadTransitive(less, n, p[i], p[m], k); }
        }
      } else {
        WithoutLast(less, n, p);
        PlaceAscends(less, n, p[..m], k);
        PlaceMembers(less, p[..m], k);
        var rest := Place(less, p[..m], k);
        forall i | 0 <= i < |rest|
          ensures Ahead(less, rest[i], p[m])
        {
          assert rest[i] in rest;
          if rest[i] != k {
            var j :| 0 <= j < m && p[..m][j] == rest[i];
            assert Ahead(less, p[j], p[m]);
          }
        }
      }
    }
  }

  /** Inserts position after position; the comparisons are all the sort sees of the things sorted. */
  function Sort(less: (nat, nat) -> bool, n: nat): (p: seq<nat>)
    ensures |p| == n
  {
    if n == 0 then [] else Place(less, Sort(less, n - 1), n - 1)
  }

  lemma {:induction false} SortAscends(less: (nat, nat) -> bool, n: nat, k: nat)
    requires WeakOrder(less, n) && k <= n
    ensures StableSorted(less, k, Sort(less, k))
    decreases k
  {
    if k > 0 {
      SortAscends(less, n, k - 1);
      PlacedNext(less, n, Sort(less, k - 1), k - 1);
    }
  }

  lemma PlacedNext(less: (nat, nat) -> bool, n: nat, p: seq<nat>, k: nat)
    requires WeakOrder(less, n) && k < n && StableSorted(less, k, p)
    ensures StableSorted(less, k + 1, Place(less, p, k))
  {
    PositionsBelow(p, k);
    PlaceMembers(less, p, k);
    PlaceAscends(less, n, p, k);
  }

  lemma {:induction false} SortPermutes(less: (nat, nat) -> bool, k: nat)
    ensures multiset(Sort(less, k)) == multiset(Upto(k))
    decreases k
  {
    if k > 0 {
      SortPermutes(less, k - 1);
      PlaceMultiset(less, Sort(less, k - 1), k - 1);
      UptoNext(k - 1);
    }
  }

  lemma UptoNext(k: nat)
    ensures multiset(Upto(k + 1)) == multiset(Upto(k)) + multiset{k}
  {
    assert Upto(k + 1) == Upto(k) + [k];
  }

  lemma SortIsStable(less: (nat, nat) -> bool, n: nat)
    requires WeakOrder(less, n)
    ensures StableSorted(less, n, Sort(less, n)) && multiset(Sort(less, n)) == multiset(Upto(n))
  {
    SortAscends(less, n, n);
    SortPermutes(less, n);
  }

  /** `std::stable_sort`: there is one stable sorted permutation, and this is it. */
  method StableSort(less: (nat, nat) -> bool, n: nat) returns (p: seq<nat>)
    requires WeakOrder(less, n)
    ensures p == Sort(less, n) && StableSorted(less, n, p) && multiset(p) == multiset(Upto(n))
    ensures forall q: seq<nat> :: StableSorted(less, n, q) ==> q == p
  {
    p := [];
    var k := 0;
    while k < n
      invariant 0 <= k <= n && p == Sort(less, k)
    {
      p := Place(less, p, k);
      k := k + 1;
    }
    SortIsStable(less, n);
    forall q: seq<nat> | StableSorted(less, n, q)
      ensures q == p
    {
      PositionsBelow(q, n);
      StableUnique(less, n, q, p);
    }
  }
}
