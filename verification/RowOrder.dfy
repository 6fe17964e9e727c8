/** The comparator of the Sort operator, src/cypher/execution_plan.cc, and the sort it drives. */
module RowOrder {
  import opened Sorting
  import opened Tokens
  import opened ValueOrder
  import opened Values
  import opened Wrappers

  /** An ORDER BY item; a row is looked at only through its value. An item without an expression is skipped. */
  datatype SortItem<!Row> = SortItem(value: Option<Row -> Value>, ascending: bool)

  /** The comparator: nulls last when ascending and first when descending. */
  predicate RowLess<Row>(items: seq<SortItem<Row>>, a: Row, b: Row) {
    if items == [] then false
    else if items[0].value.None? then RowLess(items[1..], a, b)
    else
      var u, v, up := items[0].value.value(a), items[0].value.value(b), items[0].ascending;
      if u.Null? && v.Null? then RowLess(items[1..], a, b)
      else if u.Null? then !up
      else if v.Null? then up
      else if Rank(u) != Rank(v) then (if up then Rank(u) < Rank(v) else Rank(u) > Rank(v))
      else if Lt(u, v) then up
      else if Lt(v, u) then !up
      else RowLess(items[1..], a, b)
  }

  /** No sort key of the row holds a NaN. */
  predicate RowOrdered<Row>(items: seq<SortItem<Row>>, r: Row) {
    items == [] || ((items[0].value.Some? ==> Ordered(items[0].value.value(r))) && RowOrdered(items[1..], r))
  }

  // ---------------------------------------------------------------- a strict weak order

  /** The key of a value with nulls after everything else. */
  function SortKey(v: Value): seq<Token> { if v.Null? then [Num(15)] else Key(v) }

  function ItemCmp(up: bool, u: Value, v: Value): int {
    if up then Cmp(SortKey(u), SortKey(v)) else Cmp(SortKey(v), SortKey(u))
  }

  /** Three-way comparison by the first item that tells the rows apart. */
  function RowCmp<Row>(items: seq<SortItem<Row>>, a: Row, b: Row): int {
    if items == [] then 0
    else if items[0].value.None? then RowCmp(items[1..], a, b)
    else
      var c := ItemCmp(items[0].ascending, items[0].value.value(a), items[0].value.value(b));
      if c != 0 then c else RowCmp(items[1..], a, b)
  }

  lemma {:induction false} ItemCmpMeans(up: bool, u: Value, v: Value)
    requires Ordered(u) && Ordered(v)
    ensures u.Null? && v.Null? ==> ItemCmp(up, u, v) == 0
    ensures u.Null? && !v.Null? ==> (ItemCmp(up, u, v) < 0 <==> !up) && ItemCmp(up, u, v) != 0
    ensures !u.Null? && v.Null? ==> (ItemCmp(up, u, v) < 0 <==> up) && ItemCmp(up, u, v) != 0
    ensures !u.Null? && !v.Null? ==>
              (ItemCmp(up, u, v) < 0 <==> if up then Lt(u, v) else Lt(v, u)) &&
              (ItemCmp(up, u, v) == 0 <==> !Lt(u, v) && !Lt(v, u))
  {
    Opposite(SortKey(u), SortKey(v));
    LtIsCmp(u, v);
    LtIsCmp(v, u);
    if !u.Null? { NullLast(u); }
    if !v.Null? { NullLast(v); }
  }

  lemma NullLast(v: Value)
    requires !v.Null?
    ensures Cmp(Key(v), [Num(15)]) < 0 && Cmp([Num(15)], Key(v)) > 0
  {
    CmpFirst(Num(Rank(v)), Num(15), Body(v), []);
    CmpFirst(Num(15), Num(Rank(v)), [], Body(v));
    assert [Num(15)] + [] == [Num(15)];
  }

  lemma {:induction false} RowLessIsCmp<Row>(items: seq<SortItem<Row>>, a: Row, b: Row)
    requires RowOrdered(items, a) && RowOrdered(items, b)
    ensures RowLess(items, a, b) <==> RowCmp(items, a, b) < 0
    decreases |items|
  {
    if items != [] {
      RowLessIsCmp(items[1..], a, b);
      if items[0].value.Some? {
        var u, v := items[0].value.value(a), items[0].value.value(b);
        ItemCmpMeans(items[0].ascending, u, v);
        Trichotomy(u, v);
        if Rank(u) != Rank(v) {
          LtByRank(u, v);
          LtByRank(v, u);
        }
      }
    }
  }

  lemma ItemOpposite(up: bool, u: Value, v: Value)
    ensures ItemCmp(up, u, v) == -ItemCmp(up, v, u)
  {
    Opposite(SortKey(u), SortKey(v));
  }

  lemma ItemTransitive(up: bool, u: Value, v: Value, w: Value)
    requires ItemCmp(up, u, v) <= 0 && ItemCmp(up, v, w) <= 0
    ensures ItemCmp(up, u, w) <= 0
    ensures ItemCmp(up, u, w) == 0 ==> ItemCmp(up, u, v) == 0 && ItemCmp(up, v, w) == 0
  {
    var k, l, m := SortKey(u), SortKey(v), SortKey(w);
    Opposite(k, l);
    Opposite(l, m);
    Opposite(k, m);
    if up { Transitive(k, l, m); } else { Transitive(m, l, k); }
  }

  lemma {:induction false} RowOpposite<Row>(items: seq<SortItem<Row>>, a: Row, b: Row)
    ensures RowCmp(items, a, b) == -RowCmp(items, b, a)
    decreases |items|
  {
    if items != [] {
      RowOpposite(items[1..], a, b);
      if items[0].value.Some? { ItemOpposite(items[0].ascending, items[0].value.value(a), items[0].value.value(b)); }
    }
  }

  lemma {:induction false} RowTransitive<Row>(items: seq<SortItem<Row>>, a: Row, b: Row, c: Row)
    requires RowCmp(items, a, b) <= 0 && RowCmp(items, b, c) <= 0
    ensures RowCmp(items, a, c) <= 0
    decreases |items|
  {
    if items != [] {
      if items[0].value.Some? {
        var f, up := items[0].value.value, items[0].ascending;
        ItemTransitive(up, f(a), f(b), f(c));
        if ItemCmp(up, f(a), f(b)) == 0 && ItemCmp(up, f(b), f(c)) == 0 { RowTransitive(items[1..], a, b, c); }
      } else {
        RowTransitive(items[1..], a, b, c);
      }
    }
  }

  /** The comparator as an order on the positions of the buffered rows. */
  function At<Row>(items: seq<SortItem<Row>>, rows: seq<Row>): (nat, nat) -> bool {
    (i: nat, j: nat) => i < |rows| && j < |rows| && RowLess(items, rows[i], rows[j])
  }

  ghost predicate AllOrdered<Row>(items: seq<SortItem<Row>>, rows: seq<Row>) {
    forall i :: 0 <= i < |rows| ==> RowOrdered(items, rows[i])
  }

  /** For every list of items and directions the comparator is a strict weak order on NaN-free rows. */
  lemma {:induction false} ComparatorIsWeakOrder<Row>(items: seq<SortItem<Row>>, rows: seq<Row>)
    requires AllOrdered(items, rows)
    ensures WeakOrder(At(items, rows), |rows|)
  {
    var less := At(items, rows);
    forall i: nat, j: nat | i < |rows| && j < |rows|
      ensures !(less(i, j) && less(j, i))
    {
      RowLessIsCmp(items, rows[i], rows[j]);
      RowLessIsCmp(items, rows[j], rows[i]);
      RowOpposite(items, rows[i], rows[j]);
    }
    forall i: nat, j: nat, k: nat | i < |rows| && j < |rows| && k < |rows| && !less(j, i) && !less(k, j)
      ensures !less(k, i)
    {
      NotAfter(items, rows[i], rows[j]);
      NotAfter(items, rows[j], rows[k]);
      NotAfter(items, rows[i], rows[k]);
      RowTransitive(items, rows[i], rows[j], rows[k]);
    }
  }

  lemma {:induction false} NotAfter<Row>(items: seq<SortItem<Row>>, a: Row, b: Row)
    requires RowOrdered(items, a) && RowOrdered(items, b)
    ensures !RowLess(items, b, a) <==> RowCmp(items, a, b) <= 0
  {
    RowLessIsCmp(items, b, a);
    RowOpposite(items, a, b);
  }

  /** With a NaN key the comparator is no weak order: 1 and NaN tie, NaN and 0 tie, and 0 is before 1. */
  lemma NaNBreaksComparator()
    ensures var items := [SortItem(Some((v: Value) => v), true)];
            var rows := [Float(Finite(1.0)), Float(NaN), Float(Finite(0.0))];
            !WeakOrder(At(items, rows), 3)
  {
    var items := [SortItem(Some((v: Value) => v), true)];
    var rows := [Float(Finite(1.0)), Float(NaN), Float(Finite(0.0))];
    var less := At(items, rows);
    assert items[1..] == [];
    assert !less(1, 0) && !less(2, 1) && less(2, 0);
  }

  // ---------------------------------------------------------------- the sort

  /** The rows in the order of the positions p. */
  function Arranged<Row>(rows: seq<Row>, p: seq<nat>): (r: seq<Row>)
    requires forall i :: 0 <= i < |p| ==> p[i] < |rows|
    ensures |r| == |p| && forall i :: 0 <= i < |p| ==> r[i] == rows[p[i]]
  {
    seq(|p|, i requires 0 <= i < |p| => rows[p[i]])
  }

  lemma ArrangedConcat<Row>(rows: seq<Row>, p: seq<nat>, q: seq<nat>)
    requires Below(p, |rows|) && Below(q, |rows|)
    ensures Below(p + q, |rows|) && Arranged(rows, p + q) == Arranged(rows, p) + Arranged(rows, q)
  {
  }

  lemma {:induction false} ArrangedPermutes<Row>(rows: seq<Row>, p: seq<nat>, q: seq<nat>)
    requires Below(p, |rows|) && Below(q, |rows|) && multiset(p) == multiset(q)
    ensures multiset(Arranged(rows, p)) == multiset(Arranged(rows, q))
    decreases |p|
  {
    assert |p| == |multiset(p)| == |multiset(q)| == |q|;
    if p != [] {
      var j := Matching(p, q);
      ArrangedPermutes(rows, p[1..], q[..j] + q[j + 1..]);
      ArrangedConcat(rows, [p[0]], p[1..]);
      ArrangedConcat(rows, q[..j], q[j + 1..]);
      ArrangedConcat(rows, [q[j]], q[j + 1..]);
      ArrangedConcat(rows, q[..j], [q[j]] + q[j + 1..]);
    }
  }

  /** `sorted` is `rows` in the one order that is sorted and keeps ties as they were. */
  ghost predicate SortOf<Row>(items: seq<SortItem<Row>>, rows: seq<Row>, sorted: seq<Row>) {
    exists p: seq<nat> :: Below(p, |rows|) && StableSorted(At(items, rows), |rows|, p) && sorted == Arranged(rows, p)
  }

  /** The rows as the Sort operator buffers them. */
  ghost function Sorted<Row>(items: seq<SortItem<Row>>, rows: seq<Row>): (r: seq<Row>)
    requires AllOrdered(items, rows)
  {
    ComparatorIsWeakOrder(items, rows);
    SortIsStable(At(items, rows), |rows|);
    PositionsBelow(Sort(At(items, rows), |rows|), |rows|);
    Arranged(rows, Sort(At(items, rows), |rows|))
  }

  method SortRows<Row>(items: seq<SortItem<Row>>, rows: seq<Row>) returns (sorted: seq<Row>)
    requires AllOrdered(items, rows)
    ensures sorted == Sorted(items, rows)
  {
    ComparatorIsWeakOrder(items, rows);
    var p := StableSort(At(items, rows), |rows|);
    PositionsBelow(p, |rows|);
    sorted := Arranged(rows, p);
  }

  /** The sort is a permutation in the order of the comparator that keeps ties as they were, and no other list is. */
  lemma {:induction false} SortedMeans<Row(!new)>(items: seq<SortItem<Row>>, rows: seq<Row>)
    requires AllOrdered(items, rows)
    ensures var sorted := Sorted(items, rows);
            && SortOf(items, rows, sorted)
            && (forall other: seq<Row> :: SortOf(items, rows, other) ==> other == sorted)
            && (forall i, j :: 0 <= i < j < |sorted| ==> !RowLess(items, sorted[j], sorted[i]))
            && multiset(sorted) == multiset(rows)
  {
    var sorted, less := Sorted(items, rows), At(items, rows);
    var p := Sort(less, |rows|);
    ComparatorIsWeakOrder(items, rows);
    SortIsStable(less, |rows|);
    PositionsBelow(p, |rows|);
    forall other: seq<Row> | SortOf(items, rows, other)
      ensures other == sorted
    {
      var q: seq<nat> :| Below(q, |rows|) && StableSorted(less, |rows|, q) && other == Arranged(rows, q);
      StableUnique(less, |rows|, q, p);
    }
    forall i, j | 0 <= i < j < |sorted|
      ensures !RowLess(items, sorted[j], sorted[i])
    {
      AheadTotal(less, |rows|, p[i], p[j]);
      assert Ahead(less, p[i], p[j]);
    }
    ArrangedPermutes(rows, p, Upto(|rows|));
    assert Arranged(rows, Upto(|rows|)) == rows;
  }
}
