/** Lexicographic order of token sequences. */
module Tokens {
  import opened Decimal

  datatype Token = Num(n: int) | Real(r: real) | Text(s: string)

  /** Three-way comparison: negative, zero or positive. */
  function CmpInt(a: int, b: int): int { if a < b then -1 else if a == b then 0 else 1 }

  function CmpText(a: string, b: string): int { if Before(a, b) then -1 else if a == b then 0 else 1 }

  function CmpToken(a: Token, b: Token): int {
    match a
    case Num(x) => if b.Num? then CmpInt(x, b.n) else -1
    case Real(x) => if b.Num? then 1 else if b.Text? then -1 else if x < b.r then -1 else if x == b.r then 0 else 1
    case Text(x) => if b.Text? then CmpText(x, b.s) else 1
  }

  function Cmp(a: seq<Token>, b: seq<Token>): int {
    if a == [] then (if b == [] then 0 else -1)
    else if b == [] then 1
    else if CmpToken(a[0], b[0]) != 0 then CmpToken(a[0], b[0])
    else Cmp(a[1..], b[1..])
  }

  lemma TokenOpposite(a: Token, b: Token)
    ensures CmpToken(a, b) == -CmpToken(b, a) && (CmpToken(a, b) == 0 <==> a == b)
  {
    if a.Text? && b.Text? { BeforeTotal(a.s, b.s); }
  }

  lemma TokenTransitive(a: Token, b: Token, c: Token)
    requires CmpToken(a, b) <= 0 && CmpToken(b, c) <= 0
    ensures CmpToken(a, c) <= 0 && (CmpToken(a, c) == 0 ==> CmpToken(a, b) == 0 && CmpToken(b, c) == 0)
  {
    if a.Text? && b.Text? && c.Text? {
      BeforeTotal(a.s, b.s);
      BeforeTotal(b.s, c.s);
      BeforeTotal(a.s, c.s);
      if Before(a.s, b.s) && Before(b.s, c.s) { BeforeTransitive(a.s, b.s, c.s); }
    }
  }

  lemma {:induction false} Opposite(a: seq<Token>, b: seq<Token>)
    ensures Cmp(a, b) == -Cmp(b, a) && (Cmp(a, b) == 0 <==> a == b)
  {
    if a != [] && b != [] {
      TokenOpposite(a[0], b[0]);
      Opposite(a[1..], b[1..]);
      assert a == [a[0]] + a[1..] && b == [b[0]] + b[1..];
    }
  }

  lemma {:induction false} Transitive(a: seq<Token>, b: seq<Token>, c: seq<Token>)
    requires Cmp(a, b) <= 0 && Cmp(b, c) <= 0
    ensures Cmp(a, c) <= 0
  {
    if a != [] && b != [] && c != [] {
      TokenOpposite(a[0], b[0]);
      TokenOpposite(b[0], c[0]);
      TokenOpposite(a[0], c[0]);
      TokenTransitive(a[0], b[0], c[0]);
      if a[0] == b[0] == c[0] { Transitive(a[1..], b[1..], c[1..]); }
    }
  }

  lemma CmpFirst(t: Token, u: Token, x: seq<Token>, y: seq<Token>)
    ensures Cmp([t] + x, [u] + y) == if CmpToken(t, u) != 0 then CmpToken(t, u) else Cmp(x, y)
  {
    assert ([t] + x)[1..] == x && ([u] + y)[1..] == y;
  }
}

/** `operator<` and `operator==` of values are the order of token sequences: every value is written as tokens so that
    comparing values is comparing sequences. */
module ValueOrder {
  import opened Decimal
  import opened Tokens
  import opened Values

  const END: Token := Num(0)
  const MORE: Token := Num(1)

  function FloatKey(f: Float): seq<Token> {
    match f
    case NegInf => [Num(0)]
    case Finite(r) => [Num(1), Real(r)]
    case PosInf => [Num(2)]
    case NaN => [Num(3)]
  }

  function Key(v: Value): seq<Token>
    decreases Size(v), 1
  {
    [Num(Rank(v))] + Body(v)
  }

  /** The key of a value without its rank. */
  function Body(v: Value): seq<Token>
    decreases Size(v), 0
  {
    match v
    case Null => []
    case Bool(b) => [Num(if b then 1 else 0)]
    case Int(i) => [Num(i)]
    case Float(f) => FloatKey(f)
    case Str(s) => [Text(s)]
    case Timestamp(t) => [Num(t)]
    case Date(d) => [Num(d)]
    case Time(n, _) => [Num(n)]
    case DateTime(t, _) => [Num(t)]
    case Duration(u) => [Num(u)]
    case NodeValue(n) => NodeKey(n)
    case RelValue(r) => RelKey(r)
    case PathValue(es) => PathKey(es)
    case List(items) => ItemsKey(items)
    case Map(es) => EntriesKey(es)
  }

  function NodeKey(n: Node): seq<Token>
    decreases NodeSize(n)
  {
    [Num(n.id)] + (LabelsKey(n.labels) + EntriesKey(n.properties))
  }

  function LabelsKey(ls: seq<string>): seq<Token> {
    if ls == [] then [END] else [MORE] + ([Text(ls[0])] + LabelsKey(ls[1..]))
  }

  function RelKey(r: Relationship): seq<Token> { [Num(r.id), Num(r.start), Num(r.end), Text(r.kind)] }

  function ElementKey(e: Element): seq<Token>
    decreases ElementSize(e)
  {
    match e
    case NodeElement(n) => [Num(0)] + NodeKey(n)
    case RelElement(r) => [Num(1)] + RelKey(r)
  }

  function PathKey(es: seq<Element>): seq<Token>
    decreases PathSize(es)
  {
    if es == [] then [END] else [MORE] + (ElementKey(es[0]) + PathKey(es[1..]))
  }

  function ItemsKey(vs: seq<Value>): seq<Token>
    decreases ItemsSize(vs)
  {
    if vs == [] then [END] else [MORE] + (Key(vs[0]) + ItemsKey(vs[1..]))
  }

  function EntriesKey(es: seq<Entry>): seq<Token>
    decreases EntriesSize(es)
  {
    if es == [] then [END] else [MORE] + ([Text(es[0].key)] + (Key(es[0].value) + EntriesKey(es[1..])))
  }

  /** Comparing k + x with l + y is comparing two things first and then x with y. */
  predicate Decides(k: seq<Token>, l: seq<Token>, less: bool, greater: bool, x: seq<Token>, y: seq<Token>) {
    !(less && greater) && Cmp(k + x, l + y) == if less then -1 else if greater then 1 else Cmp(x, y)
  }

  // ---------------------------------------------------------------- parts

  lemma NumToken(a: int, b: int, x: seq<Token>, y: seq<Token>)
    ensures Decides([Num(a)], [Num(b)], a < b, b < a, x, y)
  {
    CmpFirst(Num(a), Num(b), x, y);
  }

  lemma TextToken(a: string, b: string, x: seq<Token>, y: seq<Token>)
    ensures Decides([Text(a)], [Text(b)], Before(a, b), Before(b, a), x, y)
    ensures a == b <==> !Before(a, b) && !Before(b, a)
  {
    CmpFirst(Text(a), Text(b), x, y);
    BeforeTotal(a, b);
  }

  /** A first part and a second part, each of which decides. */
  lemma Then(k1: seq<Token>, l1: seq<Token>, less1: bool, greater1: bool, k2: seq<Token>, l2: seq<Token>, less2: bool,
             greater2: bool,
             x: seq<Token>, y: seq<Token>)
    requires Decides(k1, l1, less1, greater1, k2 + x, l2 + y) && Decides(k2, l2, less2, greater2, x, y)
    ensures Decides(k1 + k2, l1 + l2, less1 || (!greater1 && less2), greater1 || (!less1 && greater2), x, y)
  {
    assert (k1 + k2) + x == k1 + (k2 + x) && (l1 + l2) + y == l1 + (l2 + y);
  }

  lemma Prefixed(t: Token, k: seq<Token>, l: seq<Token>, less: bool, greater: bool, x: seq<Token>, y: seq<Token>)
    requires Decides(k, l, less, greater, x, y)
    ensures Decides([t] + k, [t] + l, less, greater, x, y)
  {
    assert ([t] + l) + y == [t] + (l + y) && ([t] + k) + x == [t] + (k + x);
    CmpFirst(t, t, k + x, l + y);
    TokenOpposite(t, t);
  }

  lemma Apart(m: int, n: int, k: seq<Token>, l: seq<Token>, x: seq<Token>, y: seq<Token>)
    requires m != n
    ensures Decides([Num(m)] + k, [Num(n)] + l, m < n, n < m, x, y)
  {
    assert ([Num(m)] + k) + x == [Num(m)] + (k + x) && ([Num(n)] + l) + y == [Num(n)] + (l + y);
    CmpFirst(Num(m), Num(n), k + x, l + y);
  }

  lemma Nothing(x: seq<Token>, y: seq<Token>)
    ensures Decides([END], [END], false, false, x, y)
  {
    CmpFirst(END, END, x, y);
  }

  /** One of two lists ends. */
  lemma Ends(k: seq<Token>, l: seq<Token>, x: seq<Token>, y: seq<Token>)
    ensures Decides([END], [MORE] + l, true, false, x, y) && Decides([MORE] + k, [END], false, true, x, y)
  {
    Apart(0, 1, [], l, x, y);
    Apart(1, 0, k, [], x, y);
    assert [END] + [] == [END];
  }

  // ---------------------------------------------------------------- structures

  lemma {:induction false} LabelsDecide(a: seq<string>, b: seq<string>, x: seq<Token>, y: seq<Token>)
    ensures Decides(LabelsKey(a), LabelsKey(b), LabelsLt(a, b), LabelsLt(b, a), x, y)
    ensures a == b <==> !LabelsLt(a, b) && !LabelsLt(b, a)
    decreases |a|
  {
    if a == [] && b == [] {
      Nothing(x, y);
    } else if a == [] {
      Ends([], [Text(b[0])] + LabelsKey(b[1..]), x, y);
    } else if b == [] {
      Ends([Text(a[0])] + LabelsKey(a[1..]), [], x, y);
    } else {
      var k, l := LabelsKey(a[1..]), LabelsKey(b[1..]);
      TextToken(a[0], b[0], k + x, l + y);
      LabelsDecide(a[1..], b[1..], x, y);
      Then([Text(a[0])], [Text(b[0])], Before(a[0], b[0]), Before(b[0], a[0]), k, l, LabelsLt(a[1..], b[1..]),
          LabelsLt(b[1..], a[1..]),
           x, y);
      Prefixed(MORE, [Text(a[0])] + k, [Text(b[0])] + l, LabelsLt(a, b), LabelsLt(b, a), x, y);
      assert a == [a[0]] + a[1..] && b == [b[0]] + b[1..];
    }
  }

  lemma RelDecides(a: Relationship, b: Relationship, x: seq<Token>, y: seq<Token>)
    ensures Decides(RelKey(a), RelKey(b), RelLt(a, b), RelLt(b, a), x, y)
    ensures RelEq(a, b) <==> !RelLt(a, b) && !RelLt(b, a)
  {
    var k3, l3 := [Text(a.kind)], [Text(b.kind)];
    TextToken(a.kind, b.kind, x, y);
    NumToken(a.end, b.end, k3 + x, l3 + y);
    Then([Num(a.end)], [Num(b.end)], a.end < b.end, b.end < a.end, k3, l3, Before(a.kind, b.kind),
        Before(b.kind, a.kind), x, y);
    var k2, l2 := [Num(a.end)] + k3, [Num(b.end)] + l3;
    var less2 := a.end < b.end || (!(b.end < a.end) && Before(a.kind, b.kind));
    var greater2 := b.end < a.end || (!(a.end < b.end) && Before(b.kind, a.kind));
    NumToken(a.start, b.start, k2 + x, l2 + y);
    Then([Num(a.start)], [Num(b.start)], a.start < b.start, b.start < a.start, k2, l2, less2, greater2, x, y);
    var k1, l1 := [Num(a.start)] + k2, [Num(b.start)] + l2;
    var less1 := a.start < b.start || (!(b.start < a.start) && less2);
    var greater1 := b.start < a.start || (!(a.start < b.start) && greater2);
    NumToken(a.id, b.id, k1 + x, l1 + y);
    Then([Num(a.id)], [Num(b.id)], a.id < b.id, b.id < a.id, k1, l1, less1, greater1, x, y);
    assert RelKey(a) == [Num(a.id)] + k1 && RelKey(b) == [Num(b.id)] + l1;
  }

  lemma FloatDecides(a: Float, b: Float, x: seq<Token>, y: seq<Token>)
    requires !a.NaN? && !b.NaN?
    ensures Decides(FloatKey(a), FloatKey(b), FloatLt(a, b), FloatLt(b, a), x, y)
    ensures FloatEq(a, b) <==> !FloatLt(a, b) && !FloatLt(b, a)
  {
    var m, n := FloatKey(a)[0].n, FloatKey(b)[0].n;
    var k, l := FloatKey(a)[1..], FloatKey(b)[1..];
    assert FloatKey(a) == [Num(m)] + k && FloatKey(b) == [Num(n)] + l;
    if m != n {
      Apart(m, n, k, l, x, y);
    } else {
      if a.Finite? { CmpFirst(Real(a.value), Real(b.value), x, y); }
      assert [] + x == x && [] + y == y;
      Prefixed(Num(m), k, l, FloatLt(a, b), FloatLt(b, a), x, y);
    }
  }

  // ---------------------------------------------------------------- values

  /** Keys decide `<`, and `==` is neither side being less. */
  ghost predicate Agrees(a: Value, b: Value, x: seq<Token>, y: seq<Token>) {
    Decides(Key(a), Key(b), Lt(a, b), Lt(b, a), x, y) && (Eq(a, b) <==> !Lt(a, b) && !Lt(b, a))
  }

  ghost predicate BodyAgrees(a: Value, b: Value, x: seq<Token>, y: seq<Token>) {
    Decides(Body(a), Body(b), Lt(a, b), Lt(b, a), x, y) && (Eq(a, b) <==> !Lt(a, b) && !Lt(b, a))
  }

  lemma {:induction false} ValueAgrees(a: Value, b: Value, x: seq<Token>, y: seq<Token>)
    requires Ordered(a) && Ordered(b)
    ensures Agrees(a, b, x, y)
    decreases Size(a), 1
  {
    if Rank(a) != Rank(b) {
      RanksApart(a, b, x, y);
    } else {
      SameRank(a, b, x, y);
      Ranked(a, b, Lt(a, b), Lt(b, a), x, y);
    }
  }

  lemma {:induction false} RanksApart(a: Value, b: Value, x: seq<Token>, y: seq<Token>)
    requires Rank(a) != Rank(b)
    ensures Agrees(a, b, x, y)
  {
    LtByRank(a, b);
    LtByRank(b, a);
    KeysApart(a, b, x, y);
  }

  lemma {:induction false} LtByRank(a: Value, b: Value)
    requires Rank(a) != Rank(b)
    ensures (Lt(a, b) <==> Rank(a) < Rank(b)) && !Eq(a, b)
  {
  }

  lemma {:induction false} KeysApart(a: Value, b: Value, x: seq<Token>, y: seq<Token>)
    requires Rank(a) != Rank(b)
    ensures Decides(Key(a), Key(b), Rank(a) < Rank(b), Rank(b) < Rank(a), x, y)
  {
    Apart(Rank(a), Rank(b), Body(a), Body(b), x, y);
  }

  lemma {:induction false} Ranked(a: Value, b: Value, less: bool, greater: bool, x: seq<Token>, y: seq<Token>)
    requires Rank(a) == Rank(b) && Decides(Body(a), Body(b), less, greater, x, y)
    ensures Decides(Key(a), Key(b), less, greater, x, y)
  {
    Prefixed(Num(Rank(a)), Body(a), Body(b), less, greater, x, y);
  }

  lemma {:induction false} SameRank(a: Value, b: Value, x: seq<Token>, y: seq<Token>)
    requires Ordered(a) && Ordered(b) && Rank(a) == Rank(b)
    ensures BodyAgrees(a, b, x, y)
    decreases Size(a), 0
  {
    match a
    case NodeValue(n) => NodeDecides(n, b.node, x, y);
    case PathValue(es) => PathDecides(es, b.elements, x, y);
    case List(items) => ItemsDecide(items, b.items, x, y);
    case Map(es) => EntriesDecide(es, b.entries, x, y);
    case RelValue(r) => RelDecides(r, b.rel, x, y);
    case Float(f) => FloatDecides(f, b.f, x, y);
    case Str(s) => TextToken(s, b.s, x, y);
    case _ => ScalarDecides(a, b, x, y);
  }

  lemma {:induction false} ScalarDecides(a: Value, b: Value, x: seq<Token>, y: seq<Token>)
    requires Rank(a) == Rank(b) && Rank(a) in {0, 1, 2, 5, 6, 7, 8, 9}
    ensures BodyAgrees(a, b, x, y)
  {
    if a.Null? {
      assert [] + x == x && [] + y == y;
    } else {
      NumToken(Body(a)[0].n, Body(b)[0].n, x, y);
    }
  }

  lemma {:induction false} NodeDecides(a: Node, b: Node, x: seq<Token>, y: seq<Token>)
    requires NodeOrdered(a) && NodeOrdered(b)
    ensures Decides(NodeKey(a), NodeKey(b), NodeLt(a, b), NodeLt(b, a), x, y)
    ensures NodeEq(a, b) <==> !NodeLt(a, b) && !NodeLt(b, a)
    decreases NodeSize(a)
  {
    var k2, l2 := EntriesKey(a.properties), EntriesKey(b.properties);
    var less2, greater2 := EntriesLt(a.properties, b.properties), EntriesLt(b.properties, a.properties);
    EntriesDecide(a.properties, b.properties, x, y);
    var k1, l1 := LabelsKey(a.labels), LabelsKey(b.labels);
    var less1, greater1 := LabelsLt(a.labels, b.labels), LabelsLt(b.labels, a.labels);
    LabelsDecide(a.labels, b.labels, k2 + x, l2 + y);
    Then(k1, l1, less1, greater1, k2, l2, less2, greater2, x, y);
    NumToken(a.id, b.id, (k1 + k2) + x, (l1 + l2) + y);
    Then([Num(a.id)], [Num(b.id)], a.id < b.id, b.id < a.id, k1 + k2, l1 + l2,
         less1 || (!greater1 && less2), greater1 || (!less1 && greater2), x, y);
  }

  lemma {:induction false} ElementDecides(a: Element, b: Element, x: seq<Token>, y: seq<Token>)
    requires ElementOrdered(a) && ElementOrdered(b)
    ensures Decides(ElementKey(a), ElementKey(b), ElementLt(a, b), ElementLt(b, a), x, y)
    ensures ElementEq(a, b) <==> !ElementLt(a, b) && !ElementLt(b, a)
    decreases ElementSize(a)
  {
    match (a, b) {
      case (NodeElement(m), NodeElement(n)) =>
        NodeDecides(m, n, x, y);
        Prefixed(Num(0), NodeKey(m), NodeKey(n), NodeLt(m, n), NodeLt(n, m), x, y);
      case (RelElement(r), RelElement(s)) =>
        RelDecides(r, s, x, y);
        Prefixed(Num(1), RelKey(r), RelKey(s), RelLt(r, s), RelLt(s, r), x, y);
      case (NodeElement(m), RelElement(s)) =>
        Apart(0, 1, NodeKey(m), RelKey(s), x, y);
      case (RelElement(r), NodeElement(n)) =>
        Apart(1, 0, RelKey(r), NodeKey(n), x, y);
    }
  }

  lemma {:induction false} PathDecides(a: seq<Element>, b: seq<Element>, x: seq<Token>, y: seq<Token>)
    requires PathOrdered(a) && PathOrdered(b)
    ensures Decides(PathKey(a), PathKey(b), PathLt(a, b), PathLt(b, a), x, y)
    ensures PathEq(a, b) <==> !PathLt(a, b) && !PathLt(b, a)
    decreases PathSize(a)
  {
    if a == [] && b == [] {
      Nothing(x, y);
    } else if a == [] {
      Ends([], ElementKey(b[0]) + PathKey(b[1..]), x, y);
    } else if b == [] {
      Ends(ElementKey(a[0]) + PathKey(a[1..]), [], x, y);
    } else {
      var k, l := PathKey(a[1..]), PathKey(b[1..]);
      var less, greater := PathLt(a[1..], b[1..]), PathLt(b[1..], a[1..]);
      ElementDecides(a[0], b[0], k + x, l + y);
      PathDecides(a[1..], b[1..], x, y);
      Then(ElementKey(a[0]), ElementKey(b[0]), ElementLt(a[0], b[0]), ElementLt(b[0], a[0]), k, l, less, greater, x, y);
      Prefixed(MORE, ElementKey(a[0]) + k, ElementKey(b[0]) + l, PathLt(a, b), PathLt(b, a), x, y);
    }
  }

  lemma {:induction false} ItemsDecide(a: seq<Value>, b: seq<Value>, x: seq<Token>, y: seq<Token>)
    requires ItemsOrdered(a) && ItemsOrdered(b)
    ensures Decides(ItemsKey(a), ItemsKey(b), ItemsLt(a, b), ItemsLt(b, a), x, y)
    ensures ItemsEq(a, b) <==> !ItemsLt(a, b) && !ItemsLt(b, a)
    decreases ItemsSize(a)
  {
    if a == [] && b == [] {
      Nothing(x, y);
    } else if a == [] {
      Ends([], Key(b[0]) + ItemsKey(b[1..]), x, y);
    } else if b == [] {
      Ends(Key(a[0]) + ItemsKey(a[1..]), [], x, y);
    } else {
      var k, l := ItemsKey(a[1..]), ItemsKey(b[1..]);
      var less, greater := ItemsLt(a[1..], b[1..]), ItemsLt(b[1..], a[1..]);
      ValueAgrees(a[0], b[0], k + x, l + y);
      ItemsDecide(a[1..], b[1..], x, y);
      Then(Key(a[0]), Key(b[0]), Lt(a[0], b[0]), Lt(b[0], a[0]), k, l, less, greater, x, y);
      Prefixed(MORE, Key(a[0]) + k, Key(b[0]) + l, ItemsLt(a, b), ItemsLt(b, a), x, y);
    }
  }

  lemma {:induction false} EntriesDecide(a: seq<Entry>, b: seq<Entry>, x: seq<Token>, y: seq<Token>)
    requires EntriesOrdered(a) && EntriesOrdered(b)
    ensures Decides(EntriesKey(a), EntriesKey(b), EntriesLt(a, b), EntriesLt(b, a), x, y)
    ensures EntriesEq(a, b) <==> !EntriesLt(a, b) && !EntriesLt(b, a)
    decreases EntriesSize(a)
  {
    if a == [] && b == [] {
      Nothing(x, y);
    } else if a == [] {
      Ends([], [Text(b[0].key)] + (Key(b[0].value) + EntriesKey(b[1..])), x, y);
    } else if b == [] {
      Ends([Text(a[0].key)] + (Key(a[0].value) + EntriesKey(a[1..])), [], x, y);
    } else {
      ValueAgrees(a[0].value, b[0].value, EntriesKey(a[1..]) + x, EntriesKey(b[1..]) + y);
      EntriesDecide(a[1..], b[1..], x, y);
      EntriesStep(a, b, x, y);
    }
  }

  lemma {:induction false} EntriesStep(a: seq<Entry>, b: seq<Entry>, x: seq<Token>, y: seq<Token>)
    requires a != [] && b != []
    requires Agrees(a[0].value, b[0].value, EntriesKey(a[1..]) + x, EntriesKey(b[1..]) + y)
    requires Decides(EntriesKey(a[1..]), EntriesKey(b[1..]), EntriesLt(a[1..], b[1..]), EntriesLt(b[1..], a[1..]), x, y)
    requires EntriesEq(a[1..], b[1..]) <==> !EntriesLt(a[1..], b[1..]) && !EntriesLt(b[1..], a[1..])
    ensures Decides(EntriesKey(a), EntriesKey(b), EntriesLt(a, b), EntriesLt(b, a), x, y)
    ensures EntriesEq(a, b) <==> !EntriesLt(a, b) && !EntriesLt(b, a)
  {
    var s, t, u, v := a[0].key, b[0].key, a[0].value, b[0].value;
    var k2, l2 := EntriesKey(a[1..]), EntriesKey(b[1..]);
    var less2, greater2 := EntriesLt(a[1..], b[1..]), EntriesLt(b[1..], a[1..]);
    Then(Key(u), Key(v), Lt(u, v), Lt(v, u), k2, l2, less2, greater2, x, y);
    var k1, l1 := Key(u) + k2, Key(v) + l2;
    var less1, greater1 := Lt(u, v) || (!Lt(v, u) && less2), Lt(v, u) || (!Lt(u, v) && greater2);
    TextToken(s, t, k1 + x, l1 + y);
    Then([Text(s)], [Text(t)], Before(s, t), Before(t, s), k1, l1, less1, greater1, x, y);
    EntriesFirst(a, b);
    EntriesFirst(b, a);
    Prefixed(MORE, [Text(s)] + k1, [Text(t)] + l1, EntriesLt(a, b), EntriesLt(b, a), x, y);
  }

  lemma {:induction false} EntriesFirst(a: seq<Entry>, b: seq<Entry>)
    requires a != [] && b != []
    ensures var s, t, u, v := a[0].key, b[0].key, a[0].value, b[0].value;
            EntriesLt(a, b) <==>
            Before(s, t) || (!Before(t, s) && (Lt(u, v) || (!Lt(v, u) && EntriesLt(a[1..], b[1..]))))
  {
    BeforeTotal(a[0].key, b[0].key);
  }

  // ---------------------------------------------------------------- the laws

  lemma DecidesMeans(k: seq<Token>, l: seq<Token>, less: bool, greater: bool)
    requires Decides(k, l, less, greater, [], [])
    ensures (less <==> Cmp(k, l) < 0) && !(less && greater) && (!less && !greater <==> k == l)
  {
    assert k + [] == k && l + [] == l;
    Opposite(k, l);
  }

  /** What agreement means for two values on their own. */
  lemma {:induction false} AgreesMeans(a: Value, b: Value)
    requires Agrees(a, b, [], [])
    ensures (Lt(a, b) <==> Cmp(Key(a), Key(b)) < 0) && (Eq(a, b) <==> Key(a) == Key(b))
    ensures (Eq(a, b) <==> !Lt(a, b) && !Lt(b, a)) && !(Lt(a, b) && Lt(b, a))
  {
    DecidesMeans(Key(a), Key(b), Lt(a, b), Lt(b, a));
  }

  lemma {:induction false} LtIsCmp(a: Value, b: Value)
    requires Ordered(a) && Ordered(b)
    ensures Lt(a, b) <==> Cmp(Key(a), Key(b)) < 0
    ensures Eq(a, b) <==> Key(a) == Key(b)
  {
    ValueAgrees(a, b, [], []);
    AgreesMeans(a, b);
  }

  /** Exactly one of a < b, a == b and b < a. */
  lemma {:induction false} Trichotomy(a: Value, b: Value)
    requires Ordered(a) && Ordered(b)
    ensures Eq(a, b) <==> !Lt(a, b) && !Lt(b, a)
    ensures !(Lt(a, b) && Lt(b, a))
  {
    ValueAgrees(a, b, [], []);
    AgreesMeans(a, b);
  }

  lemma {:induction false} LtTransitive(a: Value, b: Value, c: Value)
    requires Ordered(a) && Ordered(b) && Ordered(c) && Lt(a, b) && Lt(b, c)
    ensures Lt(a, c)
  {
    LtIsCmp(a, b);
    LtIsCmp(b, c);
    LtIsCmp(a, c);
    Transitive(Key(a), Key(b), Key(c));
    Opposite(Key(a), Key(c));
    Opposite(Key(a), Key(b));
  }

  /** Equality is an equivalence that the order respects. */
  lemma {:induction false} EqCongruent(a: Value, b: Value, c: Value)
    requires Ordered(a) && Ordered(b) && Ordered(c) && Eq(a, b)
    ensures Eq(b, a) && (Eq(a, c) <==> Eq(b, c)) && (Lt(a, c) <==> Lt(b, c)) && (Lt(c, a) <==> Lt(c, b))
  {
    LtIsCmp(a, b);
    LtIsCmp(a, c);
    LtIsCmp(b, c);
    LtIsCmp(b, a);
    LtIsCmp(c, a);
    LtIsCmp(c, b);
  }

  // ---------------------------------------------------------------- values with a NaN

  /** Even with a NaN somewhere, two values are never both less than the other. */
  lemma {:induction false} LtAsymmetric(a: Value, b: Value)
    ensures !(Lt(a, b) && Lt(b, a))
    decreases Size(a)
  {
    if Rank(a) == Rank(b) {
      match a {
        case NodeValue(n) => NodeAsymmetric(n, b.node);
        case RelValue(r) => RelDecides(r, b.rel, [], []);
        case PathValue(es) => PathAsymmetric(es, b.elements);
        case List(items) => ItemsAsymmetric(items, b.items);
        case Map(es) => EntriesAsymmetric(es, b.entries);
        case Str(s) => BeforeTotal(s, b.s);
        case _ =>
      }
    }
  }

  lemma {:induction false} NodeAsymmetric(a: Node, b: Node)
    ensures !(NodeLt(a, b) && NodeLt(b, a))
    decreases NodeSize(a)
  {
    LabelsDecide(a.labels, b.labels, [], []);
    EntriesAsymmetric(a.properties, b.properties);
  }

  lemma {:induction false} PathAsymmetric(a: seq<Element>, b: seq<Element>)
    ensures !(PathLt(a, b) && PathLt(b, a))
    decreases PathSize(a)
  {
    if a != [] && b != [] {
      if a[0].NodeElement? && b[0].NodeElement? {
        assert ElementSize(a[0]) == 1 + NodeSize(a[0].n);
        NodeAsymmetric(a[0].n, b[0].n);
      } else if a[0].RelElement? && b[0].RelElement? {
        RelDecides(a[0].r, b[0].r, [], []);
      }
      PathAsymmetric(a[1..], b[1..]);
    }
  }

  lemma {:induction false} ItemsAsymmetric(a: seq<Value>, b: seq<Value>)
    ensures !(ItemsLt(a, b) && ItemsLt(b, a))
    decreases ItemsSize(a)
  {
    if a != [] && b != [] {
      LtAsymmetric(a[0], b[0]);
      ItemsAsymmetric(a[1..], b[1..]);
    }
  }

  lemma {:induction false} EntriesAsymmetric(a: seq<Entry>, b: seq<Entry>)
    ensures !(EntriesLt(a, b) && EntriesLt(b, a))
    decreases EntriesSize(a)
  {
    if a != [] && b != [] {
      LtAsymmetric(a[0].value, b[0].value);
      BeforeTotal(a[0].key, b[0].key);
      EntriesAsymmetric(a[1..], b[1..]);
    }
  }
}
