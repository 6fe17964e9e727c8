/** The values of a query and their comparison, src/cypher/value.h and src/cypher/value.cc. */
module Values {
  import opened Decimal

  /** A double; the two zeros are one. */
  datatype Float = NegInf | Finite(value: real) | PosInf | NaN

  datatype Value =
    | Null
    | Bool(b: bool)
    | Int(i: int)
    | Float(f: Float)
    | Str(s: string)
    | Timestamp(t: nat)
    | Date(days: int)
    | Time(nanos: int, zone: int)
    | DateTime(stamp: nat, offset: int)
    | Duration(micros: int)
    | NodeValue(node: Node)
    | RelValue(rel: Relationship)
    | PathValue(elements: seq<Element>)
    | List(items: seq<Value>)
    | Map(entries: seq<Entry>)

  datatype Node = Node(id: nat, labels: seq<string>, properties: seq<Entry>)

  datatype Relationship = Relationship(id: nat, start: nat, end: nat, kind: string, properties: seq<Entry>)

  datatype Element = NodeElement(n: Node) | RelElement(r: Relationship)

  /** A key and its value; a map lists them in key order. */
  datatype Entry = Entry(key: string, value: Value)

  function Rank(v: Value): nat {
    match v
    case Null => 0
    case Bool(_) => 1
    case Int(_) => 2
    case Float(_) => 3
    case Str(_) => 4
    case Timestamp(_) => 5
    case Date(_) => 6
    case Time(_, _) => 7
    case DateTime(_, _) => 8
    case Duration(_) => 9
    case NodeValue(_) => 10
    case RelValue(_) => 11
    case PathValue(_) => 12
    case List(_) => 13
    case Map(_) => 14
  }

  // ---------------------------------------------------------------- size

  function Size(v: Value): (n: nat)
    ensures n > 0
    decreases v, 1
  {
    match v
    case NodeValue(n) => 1 + NodeSize(n)
    case PathValue(es) => 1 + PathSize(es)
    case List(items) => 1 + ItemsSize(items)
    case Map(es) => 1 + EntriesSize(es)
    case _ => 1
  }

  function NodeSize(n: Node): (k: nat)
    ensures k > 0
    decreases n, 1
  {
    1 + EntriesSize(n.properties)
  }

  function ElementSize(e: Element): (k: nat)
    ensures k > 0
    decreases e, 1
  {
    match e
    case NodeElement(n) => 1 + NodeSize(n)
    case RelElement(_) => 1
  }

  function PathSize(es: seq<Element>): (n: nat)
    decreases es, 0
  {
    if es == [] then 0 else 1 + ElementSize(es[0]) + PathSize(es[1..])
  }

  function ItemsSize(vs: seq<Value>): (n: nat)
    decreases vs, 0
  {
    if vs == [] then 0 else 1 + Size(vs[0]) + ItemsSize(vs[1..])
  }

  function EntriesSize(es: seq<Entry>): (n: nat)
    decreases es, 0
  {
    if es == [] then 0 else 1 + Size(es[0].value) + EntriesSize(es[1..])
  }

  // ---------------------------------------------------------------- equality

  predicate FloatEq(a: Float, b: Float) { !a.NaN? && a == b }

  /** `operator==`: types first, then contents. */
  predicate Eq(a: Value, b: Value)
    decreases a, 1
  {
    Rank(a) == Rank(b) &&
    match a
    case Null => true
    case Bool(x) => x == b.b
    case Int(x) => x == b.i
    case Float(x) => FloatEq(x, b.f)
    case Str(x) => x == b.s
    case Timestamp(x) => x == b.t
    case Date(x) => x == b.days
    case Time(x, _) => x == b.nanos
    case DateTime(x, _) => x == b.stamp
    case Duration(x) => x == b.micros
    case NodeValue(x) => NodeEq(x, b.node)
    case RelValue(x) => RelEq(x, b.rel)
    case PathValue(x) => PathEq(x, b.elements)
    case List(x) => ItemsEq(x, b.items)
    case Map(x) => EntriesEq(x, b.entries)
  }

  predicate NodeEq(a: Node, b: Node)
    decreases a, 1
  {
    a.id == b.id && a.labels == b.labels && EntriesEq(a.properties, b.properties)
  }

  /** The properties of a relationship are not compared. */
  predicate RelEq(a: Relationship, b: Relationship) {
    a.id == b.id && a.start == b.start && a.end == b.end && a.kind == b.kind
  }

  predicate ElementEq(a: Element, b: Element)
    decreases a, 1
  {
    match a
    case NodeElement(n) => b.NodeElement? && NodeEq(n, b.n)
    case RelElement(r) => b.RelElement? && RelEq(r, b.r)
  }

  predicate PathEq(a: seq<Element>, b: seq<Element>)
    decreases a, 0
  {
    |a| == |b| && (a == [] || (ElementEq(a[0], b[0]) && PathEq(a[1..], b[1..])))
  }

  predicate ItemsEq(a: seq<Value>, b: seq<Value>)
    decreases a, 0
  {
    |a| == |b| && (a == [] || (Eq(a[0], b[0]) && ItemsEq(a[1..], b[1..])))
  }

  predicate EntriesEq(a: seq<Entry>, b: seq<Entry>)
    decreases a, 0
  {
    |a| == |b| && (a == [] || (a[0].key == b[0].key && Eq(a[0].value, b[0].value) && EntriesEq(a[1..], b[1..])))
  }

  // ---------------------------------------------------------------- order

  predicate FloatLt(a: Float, b: Float) {
    match a
    case NegInf => b.Finite? || b.PosInf?
    case Finite(x) => b.PosInf? || (b.Finite? && x < b.value)
    case PosInf => false
    case NaN => false
  }

  /** `std::lexicographical_compare` of strings. */
  predicate LabelsLt(a: seq<string>, b: seq<string>) {
    if b == [] then false
    else if a == [] then true
    else if Before(a[0], b[0]) then true
    else if Before(b[0], a[0]) then false
    else LabelsLt(a[1..], b[1..])
  }

  /** `operator<`: types in the order of their enumeration, then contents. */
  predicate Lt(a: Value, b: Value)
    decreases Size(a) + Size(b)
  {
    if Rank(a) != Rank(b) then Rank(a) < Rank(b)
    else
      match a
      case Null => false
      case Bool(x) => !x && b.b
      case Int(x) => x < b.i
      case Float(x) => FloatLt(x, b.f)
      case Str(x) => Before(x, b.s)
      case Timestamp(x) => x < b.t
      case Date(x) => x < b.days
      case Time(x, _) => x < b.nanos
      case DateTime(x, _) => x < b.stamp
      case Duration(x) => x < b.micros
      case NodeValue(x) => NodeLt(x, b.node)
      case RelValue(x) => RelLt(x, b.rel)
      case PathValue(x) => PathLt(x, b.elements)
      case List(x) => ItemsLt(x, b.items)
      case Map(x) => EntriesLt(x, b.entries)
  }

  predicate NodeLt(a: Node, b: Node)
    decreases NodeSize(a) + NodeSize(b)
  {
    if a.id != b.id then a.id < b.id
    else if a.labels != b.labels then LabelsLt(a.labels, b.labels)
    else EntriesLt(a.properties, b.properties)
  }

  predicate RelLt(a: Relationship, b: Relationship) {
    if a.id != b.id then a.id < b.id
    else if a.start != b.start then a.start < b.start
    else if a.end != b.end then a.end < b.end
    else Before(a.kind, b.kind)
  }

  predicate ElementLt(a: Element, b: Element)
    decreases ElementSize(a) + ElementSize(b)
  {
    match a
    case NodeElement(n) => b.RelElement? || NodeLt(n, b.n)
    case RelElement(r) => b.RelElement? && RelLt(r, b.r)
  }

  predicate PathLt(a: seq<Element>, b: seq<Element>)
    decreases PathSize(a) + PathSize(b)
  {
    if a == [] || b == [] then |a| < |b|
    else if ElementLt(a[0], b[0]) then true
    else if ElementLt(b[0], a[0]) then false
    else PathLt(a[1..], b[1..])
  }

  predicate ItemsLt(a: seq<Value>, b: seq<Value>)
    decreases ItemsSize(a) + ItemsSize(b)
  {
    if a == [] || b == [] then |a| < |b|
    else if Lt(a[0], b[0]) then true
    else if Lt(b[0], a[0]) then false
    else ItemsLt(a[1..], b[1..])
  }

  /** `operator<` of the pairs of a map. */
  predicate EntryLt(a: Entry, b: Entry)
    decreases Size(a.value) + Size(b.value) + 1
  {
    Before(a.key, b.key) || (!Before(b.key, a.key) && Lt(a.value, b.value))
  }

  predicate EntriesLt(a: seq<Entry>, b: seq<Entry>)
    decreases EntriesSize(a) + EntriesSize(b)
  {
    if a == [] || b == [] then |a| < |b|
    else if EntryLt(a[0], b[0]) then true
    else if EntryLt(b[0], a[0]) then false
    else EntriesLt(a[1..], b[1..])
  }

  // ---------------------------------------------------------------- NaN

  /** No NaN among the parts that are compared. */
  predicate Ordered(v: Value)
    decreases v, 1
  {
    match v
    case Float(x) => !x.NaN?
    case NodeValue(n) => NodeOrdered(n)
    case PathValue(es) => PathOrdered(es)
    case List(items) => ItemsOrdered(items)
    case Map(es) => EntriesOrdered(es)
    case _ => true
  }

  predicate NodeOrdered(n: Node)
    decreases n, 1
  {
    EntriesOrdered(n.properties)
  }

  predicate ElementOrdered(e: Element)
    decreases e, 1
  {
    match e
    case NodeElement(n) => NodeOrdered(n)
    case RelElement(_) => true
  }

  predicate PathOrdered(es: seq<Element>)
    decreases es, 0
  {
    es == [] || (ElementOrdered(es[0]) && PathOrdered(es[1..]))
  }

  predicate ItemsOrdered(vs: seq<Value>)
    decreases vs, 0
  {
    vs == [] || (Ordered(vs[0]) && ItemsOrdered(vs[1..]))
  }

  predicate EntriesOrdered(es: seq<Entry>)
    decreases es, 0
  {
    es == [] || (Ordered(es[0].value) && EntriesOrdered(es[1..]))
  }

  /** A value equals itself if and only if no NaN is compared. */
  lemma {:induction false} EqReflexive(v: Value)
    ensures Eq(v, v) <==> Ordered(v)
    decreases Size(v)
  {
    match v
    case NodeValue(n) => NodeReflexive(n);
    case PathValue(es) => PathReflexive(es);
    case List(items) => ItemsReflexive(items);
    case Map(es) => EntriesReflexive(es);
    case _ =>
  }

  lemma {:induction false} NodeReflexive(n: Node)
    ensures NodeEq(n, n) <==> NodeOrdered(n)
    decreases NodeSize(n)
  {
    EntriesReflexive(n.properties);
  }

  lemma {:induction false} PathReflexive(es: seq<Element>)
    ensures PathEq(es, es) <==> PathOrdered(es)
    decreases PathSize(es)
  {
    if es != [] {
      if es[0].NodeElement? {
        assert ElementSize(es[0]) == 1 + NodeSize(es[0].n);
        NodeReflexive(es[0].n);
      }
      PathReflexive(es[1..]);
    }
  }

  lemma {:induction false} ItemsReflexive(vs: seq<Value>)
    ensures ItemsEq(vs, vs) <==> ItemsOrdered(vs)
    decreases ItemsSize(vs)
  {
    if vs != [] {
      EqReflexive(vs[0]);
      ItemsReflexive(vs[1..]);
    }
  }

  lemma {:induction false} EntriesReflexive(es: seq<Entry>)
    ensures EntriesEq(es, es) <==> EntriesOrdered(es)
    decreases EntriesSize(es)
  {
    if es != [] {
      EqReflexive(es[0].value);
      EntriesReflexive(es[1..]);
    }
  }
}
