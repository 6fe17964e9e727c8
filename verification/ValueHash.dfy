/** The loops of src/cypher/value.cc: comparing paths element by element and folding a value into a hash. */
module ValueHash {
  import opened Values

  /** The standard library's hashes and exclusive or, on 64-bit words. */
  datatype Hasher = Hasher(
    ofBool: bool -> nat,
    ofInt: int -> nat,
    ofFloat: Float -> nat,
    ofText: string -> nat,
    xor: (nat, nat) -> nat)

  const WORD: nat := 0x1_0000_0000_0000_0000

  function Wrap(n: nat): nat { n % WORD }

  /** Nodes, relationships and paths hash to their type alone. */
  function Hash(hs: Hasher, v: Value): nat
    decreases Size(v)
  {
    var h := Rank(v);
    match v
    case Bool(b) => hs.xor(h, hs.ofBool(b))
    case Int(i) => hs.xor(h, hs.ofInt(i))
    case Float(f) => hs.xor(h, hs.ofFloat(f))
    case Str(s) => hs.xor(h, hs.ofText(s))
    case Timestamp(t) => hs.xor(h, hs.ofInt(t))
    case Date(d) => hs.xor(h, hs.ofInt(d))
    case Time(n, _) => hs.xor(h, hs.ofInt(n))
    case DateTime(t, _) => hs.xor(h, hs.ofInt(t))
    case Duration(u) => hs.xor(h, hs.ofInt(u))
    case List(items) => ItemsHash(hs, h, items)
    case Map(es) => EntriesHash(hs, h, es)
    case _ => h
  }

  function ItemsHash(hs: Hasher, h: nat, vs: seq<Value>): nat
    decreases ItemsSize(vs)
  {
    if vs == [] then h else ItemsHash(hs, Wrap(h * 31 + Hash(hs, vs[0])), vs[1..])
  }

  function EntriesHash(hs: Hasher, h: nat, es: seq<Entry>): nat
    decreases EntriesSize(es)
  {
    if es == [] then h else EntriesHash(hs, Wrap(h * 31 + hs.ofText(es[0].key) + Hash(hs, es[0].value)), es[1..])
  }

  /** Equal values hash equally. */
  lemma {:induction false} HashRespectsEq(hs: Hasher, a: Value, b: Value)
    requires Eq(a, b)
    ensures Hash(hs, a) == Hash(hs, b)
    decreases Size(a)
  {
    match a
    case List(items) => ItemsHashRespectsEq(hs, Rank(a), items, b.items);
    case Map(es) => EntriesHashRespectsEq(hs, Rank(a), es, b.entries);
    case _ =>
  }

  lemma {:induction false} ItemsHashRespectsEq(hs: Hasher, h: nat, a: seq<Value>, b: seq<Value>)
    requires ItemsEq(a, b)
    ensures ItemsHash(hs, h, a) == ItemsHash(hs, h, b)
    decreases ItemsSize(a)
  {
    if a != [] {
      HashRespectsEq(hs, a[0], b[0]);
      ItemsHashRespectsEq(hs, Wrap(h * 31 + Hash(hs, a[0])), a[1..], b[1..]);
    }
  }

  lemma {:induction false} EntriesHashRespectsEq(hs: Hasher, h: nat, a: seq<Entry>, b: seq<Entry>)
    requires EntriesEq(a, b)
    ensures EntriesHash(hs, h, a) == EntriesHash(hs, h, b)
    decreases EntriesSize(a)
  {
    if a != [] {
      HashRespectsEq(hs, a[0].value, b[0].value);
      EntriesHashRespectsEq(hs, Wrap(h * 31 + hs.ofText(a[0].key) + Hash(hs, a[0].value)), a[1..], b[1..]);
    }
  }

  // ---------------------------------------------------------------- loops

  method HashValue(hs: Hasher, v: Value) returns (h: nat)
    ensures h == Hash(hs, v)
    decreases Size(v)
  {
    h := Rank(v);
    match v {
      case Bool(b) => h := hs.xor(h, hs.ofBool(b));
      case Int(i) => h := hs.xor(h, hs.ofInt(i));
      case Float(f) => h := hs.xor(h, hs.ofFloat(f));
      case Str(s) => h := hs.xor(h, hs.ofText(s));
      case Timestamp(t) => h := hs.xor(h, hs.ofInt(t));
      case Date(d) => h := hs.xor(h, hs.ofInt(d));
      case Time(n, _) => h := hs.xor(h, hs.ofInt(n));
      case DateTime(t, _) => h := hs.xor(h, hs.ofInt(t));
      case Duration(u) => h := hs.xor(h, hs.ofInt(u));
      case List(items) => h := HashItems(hs, h, items);
      case Map(es) => h := HashEntries(hs, h, es);
      case _ =>
    }
  }

  method HashItems(hs: Hasher, seed: nat, items: seq<Value>) returns (h: nat)
    ensures h == ItemsHash(hs, seed, items)
    decreases ItemsSize(items)
  {
    h := seed;
    var i := 0;
    while i < |items|
      invariant 0 <= i <= |items|
      invariant ItemsHash(hs, h, items[i..]) == ItemsHash(hs, seed, items)
      invariant ItemsSize(items[i..]) <= ItemsSize(items)
    {
      assert items[i..][1..] == items[i + 1..];
      var part := HashValue(hs, items[i]);
      h := Wrap(h * 31 + part);
      i := i + 1;
    }
  }

  method HashEntries(hs: Hasher, seed: nat, es: seq<Entry>) returns (h: nat)
    ensures h == EntriesHash(hs, seed, es)
    decreases EntriesSize(es)
  {
    h := seed;
    var i := 0;
    while i < |es|
      invariant 0 <= i <= |es|
      invariant EntriesHash(hs, h, es[i..]) == EntriesHash(hs, seed, es)
      invariant EntriesSize(es[i..]) <= EntriesSize(es)
    {
      assert es[i..][1..] == es[i + 1..];
      var part := HashValue(hs, es[i].value);
      h := Wrap(h * 31 + hs.ofText(es[i].key) + part);
      i := i + 1;
    }
  }

  method PathsEqual(a: seq<Element>, b: seq<Element>) returns (equal: bool)
    ensures equal <==> PathEq(a, b)
  {
    if |a| != |b| { return false; }
    var i := 0;
    while i < |a|
      invariant 0 <= i <= |a|
      invariant PathEq(a[i..], b[i..]) <==> PathEq(a, b)
    {
      assert a[i..][1..] == a[i + 1..] && b[i..][1..] == b[i + 1..];
      assert a[i..][0] == a[i] && b[i..][0] == b[i];
      if a[i].NodeElement? != b[i].NodeElement? { return false; }
      if a[i].NodeElement? {
        if !NodeEq(a[i].n, b[i].n) { return false; }
      } else {
        if !RelEq(a[i].r, b[i].r) { return false; }
      }
      i := i + 1;
    }
    return true;
  }

  method PathLess(a: seq<Element>, b: seq<Element>) returns (less: bool)
    ensures less <==> PathLt(a, b)
  {
    var n := if |a| < |b| then |a| else |b|;
    var i := 0;
    while i < n
      invariant 0 <= i <= n
      invariant PathLt(a[i..], b[i..]) <==> PathLt(a, b)
    {
      assert a[i..][1..] == a[i + 1..] && b[i..][1..] == b[i + 1..];
      assert a[i..][0] == a[i] && b[i..][0] == b[i];
      if a[i].NodeElement? != b[i].NodeElement? { return a[i].NodeElement?; }
      if a[i].NodeElement? {
        if NodeLt(a[i].n, b[i].n) { return true; }
        if NodeLt(b[i].n, a[i].n) { return false; }
      } else {
        if RelLt(a[i].r, b[i].r) { return true; }
        if RelLt(b[i].r, a[i].r) { return false; }
      }
      i := i + 1;
    }
    return |a| < |b|;
  }
}
