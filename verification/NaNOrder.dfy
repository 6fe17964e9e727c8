/** Sort keys that hold a NaN: each one ties with two values that do not tie with each other. */
module NaNOrder {
  import opened Decimal
  import opened RowOrder
  import opened Sorting
  import opened ValueOrder
  import opened Values
  import opened Wrappers

  // ---------------------------------------------------------------- a number for every NaN

  /** The value with x for each NaN that is compared. */
  function Put(v: Value, x: real): Value
    decreases v, 1
  {
    match v
    case Float(f) => if f.NaN? then Float(Finite(x)) else v
    case NodeValue(n) => NodeValue(PutNode(n, x))
    case PathValue(es) => PathValue(PutPath(es, x))
    case List(items) => List(PutItems(items, x))
    case Map(es) => Map(PutEntries(es, x))
    case _ => v
  }

  function PutNode(n: Node, x: real): Node
    decreases n, 1
  {
    n.(properties := PutEntries(n.properties, x))
  }

  function PutElement(e: Element, x: real): Element
    decreases e, 1
  {
    match e
    case NodeElement(n) => NodeElement(PutNode(n, x))
    case RelElement(_) => e
  }

  function PutPath(es: seq<Element>, x: real): seq<Element>
    decreases es, 0
  {
    if es == [] then [] else [PutElement(es[0], x)] + PutPath(es[1..], x)
  }

  function PutItems(vs: seq<Value>, x: real): seq<Value>
    decreases vs, 0
  {
    if vs == [] then [] else [Put(vs[0], x)] + PutItems(vs[1..], x)
  }

  function PutEntries(es: seq<Entry>, x: real): seq<Entry>
    decreases es, 0
  {
    if es == [] then [] else [Entry(es[0].key, Put(es[0].value, x))] + PutEntries(es[1..], x)
  }

  // ---------------------------------------------------------------- the result is ordered, and ties

  lemma {:induction false} PutTies(v: Value, x: real)
    ensures Ordered(Put(v, x)) && Rank(Put(v, x)) == Rank(v)
    ensures !Lt(v, Put(v, x)) && !Lt(Put(v, x), v)
    ensures Ordered(v) ==> Put(v, x) == v
    decreases Size(v)
  {
    match v
    case NodeValue(n) => NodeTies(n, x);
    case PathValue(es) => PathTies(es, x);
    case List(items) => ItemsTie(items, x);
    case Map(es) => EntriesTie(es, x);
    case RelValue(r) => RelDecides(r, r, [], []);
    case Str(s) => BeforeTotal(s, s);
    case _ =>
  }

  lemma {:induction false} NodeTies(n: Node, x: real)
    ensures NodeOrdered(PutNode(n, x))
    ensures !NodeLt(n, PutNode(n, x)) && !NodeLt(PutNode(n, x), n)
    ensures NodeOrdered(n) ==> PutNode(n, x) == n
    decreases NodeSize(n)
  {
    EntriesTie(n.properties, x);
  }

  lemma {:induction false} ElementTies(e: Element, x: real)
    ensures ElementOrdered(PutElement(e, x))
    ensures !ElementLt(e, PutElement(e, x)) && !ElementLt(PutElement(e, x), e)
    ensures ElementOrdered(e) ==> PutElement(e, x) == e
    decreases ElementSize(e)
  {
    match e
    case NodeElement(n) => NodeTies(n, x);
    case RelElement(r) => RelDecides(r, r, [], []);
  }

  lemma {:induction false} PathTies(es: seq<Element>, x: real)
    ensures PathOrdered(PutPath(es, x))
    ensures !PathLt(es, PutPath(es, x)) && !PathLt(PutPath(es, x), es)
    ensures PathOrdered(es) ==> PutPath(es, x) == es
    decreases PathSize(es)
  {
    if es != [] {
      ElementTies(es[0], x);
      PathTies(es[1..], x);
      assert PutPath(es, x)[1..] == PutPath(es[1..], x);
    }
  }

  lemma {:induction false} ItemsTie(vs: seq<Value>, x: real)
    ensures ItemsOrdered(PutItems(vs, x))
    ensures !ItemsLt(vs, PutItems(vs, x)) && !ItemsLt(PutItems(vs, x), vs)
    ensures ItemsOrdered(vs) ==> PutItems(vs, x) == vs
    decreases ItemsSize(vs)
  {
    if vs != [] {
      PutTies(vs[0], x);
      ItemsTie(vs[1..], x);
      assert PutItems(vs, x)[1..] == PutItems(vs[1..], x);
    }
  }

  lemma EntryTies(e: Entry, x: real)
    requires !Lt(e.value, Put(e.value, x)) && !Lt(Put(e.value, x), e.value)
    ensures var f := Entry(e.key, Put(e.value, x)); !EntryLt(e, f) && !EntryLt(f, e)
  {
    BeforeTotal(e.key, e.key);
  }

  lemma {:induction false} EntriesTie(es: seq<Entry>, x: real)
    ensures EntriesOrdered(PutEntries(es, x))
    ensures !EntriesLt(es, PutEntries(es, x)) && !EntriesLt(PutEntries(es, x), es)
    ensures EntriesOrdered(es) ==> PutEntries(es, x) == es
    decreases EntriesSize(es)
  {
    if es != [] {
      PutTies(es[0].value, x);
      EntriesTie(es[1..], x);
      assert PutEntries(es, x)[1..] == PutEntries(es[1..], x);
      EntryTies(es[0], x);
    }
  }

  // ---------------------------------------------------------------- a smaller number gives a smaller value

  lemma {:induction false} PutAscends(v: Value, x: real, y: real)
    requires !Ordered(v) && x < y
    ensures Lt(Put(v, x), Put(v, y))
    decreases Size(v)
  {
    match v
    case NodeValue(n) => NodeAscends(n, x, y);
    case PathValue(es) => PathAscends(es, x, y);
    case List(items) => ItemsAscend(items, x, y);
    case Map(es) => EntriesAscend(es, x, y);
    case Float(_) =>
  }

  lemma {:induction false} NodeAscends(n: Node, x: real, y: real)
    requires !NodeOrdered(n) && x < y
    ensures NodeLt(PutNode(n, x), PutNode(n, y))
    decreases NodeSize(n)
  {
    EntriesAscend(n.properties, x, y);
  }

  lemma {:induction false} ElementAscends(e: Element, x: real, y: real)
    requires !ElementOrdered(e) && x < y
    ensures ElementLt(PutElement(e, x), PutElement(e, y))
    decreases ElementSize(e)
  {
    NodeAscends(e.n, x, y);
  }

  lemma {:induction false} PathAscends(es: seq<Element>, x: real, y: real)
    requires !PathOrdered(es) && x < y
    ensures PathLt(PutPath(es, x), PutPath(es, y))
    decreases PathSize(es)
  {
    var a, b := PutPath(es, x), PutPath(es, y);
    assert a[1..] == PutPath(es[1..], x) && b[1..] == PutPath(es[1..], y);
    if ElementOrdered(es[0]) {
      ElementTies(es[0], x);
      ElementTies(es[0], y);
      PathAscends(es[1..], x, y);
    } else {
      ElementAscends(es[0], x, y);
    }
  }

  lemma {:induction false} ItemsAscend(vs: seq<Value>, x: real, y: real)
    requires !ItemsOrdered(vs) && x < y
    ensures ItemsLt(PutItems(vs, x), PutItems(vs, y))
    decreases ItemsSize(vs)
  {
    var a, b := PutItems(vs, x), PutItems(vs, y);
    assert a[1..] == PutItems(vs[1..], x) && b[1..] == PutItems(vs[1..], y);
    if Ordered(vs[0]) {
      PutTies(vs[0], x);
      PutTies(vs[0], y);
      ItemsAscend(vs[1..], x, y);
    } else {
      PutAscends(vs[0], x, y);
    }
  }

  lemma {:induction false} EntriesAscend(es: seq<Entry>, x: real, y: real)
    requires !EntriesOrdered(es) && x < y
    ensures EntriesLt(PutEntries(es, x), PutEntries(es, y))
    decreases EntriesSize(es)
  {
    var a, b := PutEntries(es, x), PutEntries(es, y);
    assert a[1..] == PutEntries(es[1..], x) && b[1..] == PutEntries(es[1..], y);
    BeforeTotal(es[0].key, es[0].key);
    EntriesFirst(a, b);
    if Ordered(es[0].value) {
      PutTies(es[0].value, x);
      PutTies(es[0].value, y);
      EntriesAscend(es[1..], x, y);
    } else {
      PutAscends(es[0].value, x, y);
    }
  }

  // ---------------------------------------------------------------- the comparator

  function ByValue(up: bool): seq<SortItem<Value>> { [SortItem(Some((v: Value) => v), up)] }

  lemma ByValueLess(up: bool, u: Value, v: Value)
    requires Rank(u) == Rank(v) && !u.Null?
    ensures RowLess(ByValue(up), u, v) <==> if up then Lt(u, v) else Lt(v, u)
  {
    LtAsymmetric(u, v);
    assert ByValue(up)[1..] == [];
  }

  /** A sort key with a NaN anywhere in it, in either direction of the sort: it ties with two ordered keys of which
      one is before the other. */
  lemma NaNBreaksOrder(up: bool, v: Value)
    requires !Ordered(v)
    ensures var a, b := Put(v, 0.0), Put(v, 1.0);
            && Ordered(a) && Ordered(b)
            && !WeakOrder(At(ByValue(up), if up then [b, v, a] else [a, v, b]), 3)
  {
    var a, b := Put(v, 0.0), Put(v, 1.0);
    PutTies(v, 0.0);
    PutTies(v, 1.0);
    PutAscends(v, 0.0, 1.0);
    var rows := if up then [b, v, a] else [a, v, b];
    ByValueLess(up, rows[1], rows[0]);
    ByValueLess(up, rows[2], rows[1]);
    ByValueLess(up, rows[2], rows[0]);
    var less := At(ByValue(up), rows);
    assert !less(1, 0) && !less(2, 1) && less(2, 0);
  }

  /** So a value can be sorted with any others exactly if no NaN is compared in it. */
  ghost predicate Sortable(up: bool, v: Value) {
    forall a, b :: Ordered(a) && Ordered(b) ==> WeakOrder(At(ByValue(up), [a, v, b]), 3)
  }

  lemma SortableExactly(up: bool, v: Value)
    ensures Sortable(up, v) <==> Ordered(v)
  {
    if Ordered(v) {
      forall a, b | Ordered(a) && Ordered(b)
        ensures WeakOrder(At(ByValue(up), [a, v, b]), 3)
      {
        assert ByValue(up)[1..] == [];
        ComparatorIsWeakOrder(ByValue(up), [a, v, b]);
      }
    } else {
      NaNBreaksOrder(up, v);
    }
  }
}
