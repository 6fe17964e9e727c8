/** The pull-based operators of src/cypher/execution_plan.cc: `Next` yields a row and moves on. */
module Operators {
  import opened Expressions
  import opened RowLists
  import opened RowOrder
  import opened Values
  import opened Wrappers

  datatype Neighbor = Neighbor(id: nat, stamp: nat)

  /** A one-hop pattern: the bound variable, the two it binds, and where neighbours and relationship numbers come
      from. */
  datatype Hop = Hop(
    from: string,
    rel: string,
    to: string,
    kind: Option<string>,
    neighbors: nat -> seq<Neighbor>,
    number: (nat, nat, nat) -> nat)

  predicate FromNode(h: Hop, row: Record) { h.from in row && row[h.from].NodeValue? }

  /** The row extended by a relationship and the node it leads to. */
  function Edge(h: Hop, row: Record, n: Neighbor): Record
    requires FromNode(h, row)
  {
    var id := row[h.from].node.id;
    var kind := if h.kind.Some? then h.kind.value else "CONNECTED_TO";
    var rel := Relationship(h.number(id, n.id, n.stamp), id, n.id, kind, [Entry("timestamp", Timestamp(n.stamp))]);
    row[h.rel := RelValue(rel)][h.to := NodeValue(Node(n.id, ["Node"], [Entry("id", Int(n.id))]))]
  }

  function Edges(h: Hop, row: Record, ns: seq<Neighbor>): seq<Record>
    requires FromNode(h, row)
  {
    if ns == [] then [] else [Edge(h, row, ns[0])] + Edges(h, row, ns[1..])
  }

  /** One row per neighbour, and none for a row without a node. */
  function Expanded(h: Hop): Record -> seq<Record> {
    (row: Record) => if FromNode(h, row) then Edges(h, row, h.neighbors(row[h.from].node.id)) else []
  }

  /** A list and the name its elements get; None is a value that is not a list. */
  datatype Unwinding = Unwinding(list: Record -> Option<seq<Value>>, name: string)

  function Elements(u: Unwinding, row: Record, vs: seq<Value>): seq<Record> {
    if vs == [] then [] else [row[u.name := vs[0]]] + Elements(u, row, vs[1..])
  }

  function Unwound(u: Unwinding): Record -> seq<Record> {
    (row: Record) => if u.list(row).Some? then Elements(u, row, u.list(row).value) else []
  }

  function Front(rows: seq<Record>, n: nat): seq<Record> { if n <= |rows| then rows[..n] else rows }

  function After(rows: seq<Record>, n: nat): seq<Record> { if n <= |rows| then rows[n..] else [] }

  datatype Kind =
    | Leaf
    | Filter(pass: Record -> bool)
    | Limit(limit: nat)
    | Skip(skip: nat)
    | Expand(hop: Hop)
    | Unwind(unwinding: Unwinding)
    | Spread(rowsOf: Record -> seq<Record>)
    | Sort(items: seq<SortItem<Record>>)

  /** What an operator makes of the rows of its child. */
  ghost function Meaning(kind: Kind, rows: seq<Record>): seq<Record>
    requires !kind.Leaf? && (kind.Sort? ==> AllOrdered(kind.items, rows))
  {
    match kind
    case Filter(p) => Keep(p, rows)
    case Limit(n) => Front(rows, n)
    case Skip(n) => After(rows, n)
    case Expand(h) => FlatMap(Expanded(h), rows)
    case Unwind(u) => FlatMap(Unwound(u), rows)
    case Spread(f) => FlatMap(f, rows)
    case Sort(items) => Sorted(items, rows)
  }

  /** The first of the rows to come, if any, and the rest of them. */
  ghost predicate Yields(rows: seq<Record>, row: Option<Record>, rest: seq<Record>) {
    if rows == [] then row.None? && rest == [] else row == Some(rows[0]) && rest == rows[1..]
  }

  // ---------------------------------------------------------------- the state of an operator

  /** `buffer` holds the rows of a leaf, of a sort and of a variable-length expansion, `neighbors` and `list` the
      current row's neighbours and list; `index` is the place in whichever of them is in use. */
  datatype State = State(
    buffer: seq<Record>,
    neighbors: seq<Neighbor>,
    list: seq<Value>,
    index: nat,
    current: Option<Record>,
    count: nat,
    started: bool)

  predicate ExpandFits(h: Hop, s: State, below: seq<Record>) {
    && s.index <= |s.neighbors|
    && (s.current.None? ==> below == [] && s.neighbors == [])
    && (s.neighbors != [] ==>
          FromNode(h, s.current.value) && s.neighbors == h.neighbors(s.current.value[h.from].node.id))
  }

  /** The rows of the current row that are still to come. */
  function ExpandLeft(h: Hop, s: State, below: seq<Record>): seq<Record>
    requires ExpandFits(h, s, below)
  {
    if s.current.None? then []
    else if s.neighbors == [] then Expanded(h)(s.current.value)
    else Edges(h, s.current.value, s.neighbors[s.index..])
  }

  predicate SpreadFits(f: Record -> seq<Record>, s: State, below: seq<Record>) {
    && s.index <= |s.buffer|
    && (s.current.None? ==> below == [] && s.buffer == [])
    && (s.buffer != [] ==> s.buffer == f(s.current.value))
  }

  function SpreadLeft(f: Record -> seq<Record>, s: State): seq<Record>
    requires s.index <= |s.buffer|
  {
    if s.current.None? then [] else if s.buffer == [] then f(s.current.value) else s.buffer[s.index..]
  }

  predicate UnwindFits(s: State) { s.index <= |s.list| && (s.current.None? ==> s.index == |s.list|) }

  function UnwindLeft(u: Unwinding, s: State): seq<Record>
    requires UnwindFits(s)
  {
    if s.current.None? then [] else Elements(u, s.current.value, s.list[s.index..])
  }

  /** What holds between calls, given the rows still to come from below. */
  ghost predicate Fits(kind: Kind, s: State, below: seq<Record>) {
    match kind
    case Leaf => s.index <= |s.buffer|
    case Filter(_) => true
    case Limit(n) => s.count <= n
    case Skip(_) => true
    case Expand(h) => ExpandFits(h, s, below)
    case Unwind(_) => UnwindFits(s)
    case Spread(f) => SpreadFits(f, s, below)
    case Sort(items) => if s.started then s.index <= |s.buffer| && below == [] else AllOrdered(items, below)
  }

  /** The rows still to come. */
  ghost function Pending(kind: Kind, s: State, below: seq<Record>): seq<Record>
    requires Fits(kind, s, below)
  {
    match kind
    case Leaf => s.buffer[s.index..]
    case Filter(p) => Keep(p, below)
    case Limit(n) => Front(below, n - s.count)
    case Skip(n) => if s.started then below else After(below, n)
    case Expand(h) => ExpandLeft(h, s, below) + FlatMap(Expanded(h), below)
    case Unwind(u) => UnwindLeft(u, s) + FlatMap(Unwound(u), below)
    case Spread(f) => SpreadLeft(f, s) + FlatMap(f, below)
    case Sort(items) => if s.started then s.buffer[s.index..] else Sorted(items, below)
  }

  const FRESH: State := State([], [], [], 0, None, 0, false)

  // ---------------------------------------------------------------- steps

  /** The row below and those after it. */
  lemma FlatMapYields(f: Record -> seq<Record>, below: seq<Record>, row: Option<Record>, rest: seq<Record>)
    requires Yields(below, row, rest)
    ensures FlatMap(f, below) == (if row.Some? then f(row.value) else []) + FlatMap(f, rest)
  {
  }

  /** What is left of the current row and of those below. */
  function ExpandRest(h: Hop, s: State, below: seq<Record>): seq<Record>
    requires ExpandFits(h, s, below)
  {
    ExpandLeft(h, s, below) + FlatMap(Expanded(h), below)
  }

  lemma ExpandFills(h: Hop, s: State, below: seq<Record>)
    requires ExpandFits(h, s, below) && s.current.Some? && s.neighbors == [] && FromNode(h, s.current.value)
    ensures var t := s.(neighbors := h.neighbors(s.current.value[h.from].node.id), index := 0);
            ExpandFits(h, t, below) && ExpandRest(h, t, below) == ExpandRest(h, s, below)
  {
    var ns := h.neighbors(s.current.value[h.from].node.id);
    assert ns[0..] == ns;
  }

  lemma ExpandAdvances(h: Hop, s: State, below: seq<Record>, row: Option<Record>, rest: seq<Record>)
    requires ExpandFits(h, s, below) && s.current.Some? && s.index == |s.neighbors| && Yields(below, row, rest)
    requires s.neighbors == [] ==> Expanded(h)(s.current.value) == []
    ensures var t := s.(current := row, neighbors := [], index := 0);
            ExpandFits(h, t, rest) && ExpandRest(h, t, rest) == ExpandRest(h, s, below)
  {
    FlatMapYields(Expanded(h), below, row, rest);
    assert ExpandLeft(h, s, below) == [];
  }

  lemma ExpandEmits(h: Hop, s: State, below: seq<Record>)
    requires ExpandFits(h, s, below) && s.index < |s.neighbors|
    ensures var t := s.(index := s.index + 1);
            ExpandFits(h, t, below) &&
            Yields(ExpandRest(h, s, below), Some(Edge(h, s.current.value, s.neighbors[s.index])),
                ExpandRest(h, t, below))
  {
    var t, row := s.(index := s.index + 1), Edge(h, s.current.value, s.neighbors[s.index]);
    assert s.neighbors[s.index..][1..] == s.neighbors[s.index + 1..];
    FirstOfConcat(row, ExpandLeft(h, t, below), FlatMap(Expanded(h), below));
  }

  function UnwindRest(u: Unwinding, s: State, below: seq<Record>): seq<Record>
    requires UnwindFits(s)
  {
    UnwindLeft(u, s) + FlatMap(Unwound(u), below)
  }

  lemma UnwindAdvances(u: Unwinding, s: State, below: seq<Record>, row: Option<Record>, rest: seq<Record>, t: State)
    requires UnwindFits(s) && s.index == |s.list| && Yields(below, row, rest)
    requires t == if row.Some? && u.list(row.value).Some?
                  then s.(current := row, list := u.list(row.value).value, index := 0)
                  else s.(current := row)
    ensures UnwindFits(t) && UnwindRest(u, t, rest) == UnwindRest(u, s, below)
  {
    FlatMapYields(Unwound(u), below, row, rest);
    assert s.list[s.index..] == [];
    assert t.index == 0 ==> t.list[t.index..] == t.list;
  }

  lemma UnwindEmits(u: Unwinding, s: State, below: seq<Record>)
    requires UnwindFits(s) && s.index < |s.list|
    ensures var t := s.(index := s.index + 1);
            UnwindFits(t) &&
            Yields(UnwindRest(u, s, below), Some(s.current.value[u.name := s.list[s.index]]), UnwindRest(u, t, below))
  {
    var t := s.(index := s.index + 1);
    assert s.list[s.index..][1..] == s.list[s.index + 1..];
    FirstOfConcat(s.current.value[u.name := s.list[s.index]], UnwindLeft(u, t), FlatMap(Unwound(u), below));
  }

  function SpreadRest(f: Record -> seq<Record>, s: State, below: seq<Record>): seq<Record>
    requires SpreadFits(f, s, below)
  {
    SpreadLeft(f, s) + FlatMap(f, below)
  }

  lemma SpreadFills(f: Record -> seq<Record>, s: State, below: seq<Record>)
    requires SpreadFits(f, s, below) && s.current.Some? && s.buffer == []
    ensures var t := s.(buffer := f(s.current.value));
            SpreadFits(f, t, below) && SpreadRest(f, t, below) == SpreadRest(f, s, below)
  {
    assert f(s.current.value)[0..] == f(s.current.value);
  }

  lemma SpreadAdvances(f: Record -> seq<Record>, s: State, below: seq<Record>, row: Option<Record>, rest: seq<Record>)
    requires SpreadFits(f, s, below) && s.current.Some? && s.index == |s.buffer| && Yields(below, row, rest)
    requires s.buffer == [] ==> f(s.current.value) == []
    ensures var t := s.(current := row, buffer := [], index := 0);
            SpreadFits(f, t, rest) && SpreadRest(f, t, rest) == SpreadRest(f, s, below)
  {
    FlatMapYields(f, below, row, rest);
    assert SpreadLeft(f, s) == [];
  }

  lemma SpreadEmits(f: Record -> seq<Record>, s: State, below: seq<Record>)
    requires SpreadFits(f, s, below) && s.index < |s.buffer|
    ensures var t := s.(index := s.index + 1);
            SpreadFits(f, t, below) && Yields(SpreadRest(f, s, below), Some(s.buffer[s.index]), SpreadRest(f, t, below))
  {
    var t := s.(index := s.index + 1);
    assert s.buffer[s.index..] == [s.buffer[s.index]] + s.buffer[s.index + 1..];
    FirstOfConcat(s.buffer[s.index], SpreadLeft(f, t), FlatMap(f, below));
  }

  lemma FirstOfConcat(row: Record, left: seq<Record>, later: seq<Record>)
    ensures Yields(([row] + left) + later, Some(row), left + later)
  {
    assert (([row] + left) + later)[1..] == left + later;
  }

  lemma FilterYields(p: Record -> bool, below: seq<Record>, row: Option<Record>, rest: seq<Record>)
    requires Yields(below, row, rest)
    ensures row.None? ==> Keep(p, below) == [] && Keep(p, rest) == []
    ensures row.Some? && p(row.value) ==> Yields(Keep(p, below), row, Keep(p, rest))
    ensures row.Some? && !p(row.value) ==> Keep(p, below) == Keep(p, rest)
  {
    if row.Some? { assert below == [row.value] + rest; KeepFirst(p, row.value, rest); }
  }

  lemma SkipAdvances(below: seq<Record>, row: Option<Record>, rest: seq<Record>, n: nat)
    requires Yields(below, row, rest) && n > 0
    ensures After(below, n) == After(rest, n - 1)
    ensures row.None? ==> After(below, n) == rest
  {
  }

  lemma LimitYields(below: seq<Record>, row: Option<Record>, rest: seq<Record>, n: nat)
    requires Yields(below, row, rest) && n > 0
    ensures Yields(Front(below, n), row, Front(rest, if row.Some? then n - 1 else n))
  {
  }

  // ---------------------------------------------------------------- operators

  /** One operator and the chain below it. */
  class Operator {
    const kind: Kind
    const child: Operator?
    ghost const height: nat
    ghost const Repr: set<object>
    var state: State

    /** The links never change. */
    ghost predicate Linked() {
      && this in Repr
      && (child == null <==> kind.Leaf?)
      && (child != null ==> Repr == {this} + child.Repr && this !in child.Repr && child.height < height)
    }

    ghost predicate Valid()
      reads Repr
      ensures Valid() ==> Linked() && (child != null ==> child.Valid())
      decreases height, 1
    {
      Linked() && (child != null ==> child.Valid()) && Fits(kind, state, Below())
    }

    /** The rows still to come from the child. */
    ghost function Below(): seq<Record>
      requires Linked() && (child != null ==> child.Valid())
      reads Repr
      decreases height, 0
    {
      if child == null then [] else child.Contents()
    }

    /** The rows still to come. */
    ghost function Contents(): seq<Record>
      requires Valid()
      reads Repr
      decreases height, 2
    {
      Pending(kind, state, Below())
    }

    constructor FromRows(rows: seq<Record>)
      ensures Valid() && fresh(Repr) && Contents() == rows
    {
      kind, child, height, Repr := Leaf, null, 0, {this};
      state := FRESH.(buffer := rows);
    }

    /** Building and initialising; an expansion fetches its first row at once. */
    constructor Above(kind: Kind, child: Operator)
      requires !kind.Leaf? && child.Valid() && (kind.Sort? ==> AllOrdered(kind.items, child.Contents()))
      modifies child.Repr
      ensures Valid() && fresh(Repr - child.Repr) && Contents() == Meaning(kind, old(child.Contents()))
    {
      this.kind, this.child, height, Repr := kind, child, child.height + 1, {this} + child.Repr;
      state := FRESH;
      new;
      ghost var below := child.Contents();
      if kind.Expand? || kind.Spread? {
        var row := child.Next();
        state := state.(current := row);
        FlatMapYields(if kind.Expand? then Expanded(kind.hop) else kind.rowsOf, below, row, child.Contents());
      }
    }

    method Next() returns (row: Option<Record>)
      requires Valid()
      modifies Repr
      ensures Valid() && Yields(old(Contents()), row, Contents())
      decreases height, 2
    {
      match kind {
        case Leaf => row := NextOfLeaf();
        case Filter(_) => row := NextOfFilter();
        case Limit(_) => row := NextOfLimit();
        case Skip(_) => row := NextOfSkip();
        case Expand(_) => row := NextOfExpand();
        case Unwind(_) => row := NextOfUnwind();
        case Spread(_) => row := NextOfSpread();
        case Sort(_) => row := NextOfSort();
      }
    }

    method NextOfLeaf() returns (row: Option<Record>)
      requires Valid() && kind.Leaf?
      modifies Repr
      ensures Valid() && Yields(old(Contents()), row, Contents())
    {
      if state.index < |state.buffer| {
        row := Some(state.buffer[state.index]);
        state := state.(index := state.index + 1);
      } else {
        row := None;
      }
    }

    method NextOfFilter() returns (row: Option<Record>)
      requires Valid() && kind.Filter?
      modifies Repr
      ensures Valid() && Yields(old(Contents()), row, Contents())
      decreases height, 1
    {
      while true
        invariant child.Valid() && unchanged(this)
        invariant Keep(kind.pass, child.Contents()) == old(Contents())
        decreases |child.Contents()|
      {
        ghost var below := child.Contents();
        row := child.Next();
        FilterYields(kind.pass, below, row, child.Contents());
        if row.None? || kind.pass(row.value) { return; }
      }
    }

    method NextOfLimit() returns (row: Option<Record>)
      requires Valid() && kind.Limit?
      modifies Repr
      ensures Valid() && Yields(old(Contents()), row, Contents())
      decreases height, 1
    {
      if state.count >= kind.limit { return None; }
      ghost var below := child.Contents();
      row := child.Next();
      LimitYields(below, row, child.Contents(), kind.limit - state.count);
      if row.Some? { state := state.(count := state.count + 1); }
    }

    method NextOfSkip() returns (row: Option<Record>)
      requires Valid() && kind.Skip?
      modifies Repr
      ensures Valid() && Yields(old(Contents()), row, Contents())
      decreases height, 1
    {
      if !state.started { SkipRows(); }
      row := child.Next();
    }

    method SkipRows()
      requires Valid() && kind.Skip? && !state.started
      modifies Repr
      ensures Valid() && Contents() == old(Contents()) && state.started
      decreases height, 0
    {
      var skipped := PassOver(child, kind.skip);
      state := state.(started := true, count := state.count + skipped);
    }

    method NextOfExpand() returns (row: Option<Record>)
      requires Valid() && kind.Expand?
      modifies Repr
      ensures Valid() && Yields(old(Contents()), row, Contents())
      decreases height, 1
    {
      var s;
      row, s := ExpandNext(kind.hop, child, state);
      state := s;
    }

    method NextOfUnwind() returns (row: Option<Record>)
      requires Valid() && kind.Unwind?
      modifies Repr
      ensures Valid() && Yields(old(Contents()), row, Contents())
      decreases height, 1
    {
      var s;
      row, s := UnwindNext(kind.unwinding, child, state);
      state := s;
    }

    method NextOfSpread() returns (row: Option<Record>)
      requires Valid() && kind.Spread?
      modifies Repr
      ensures Valid() && Yields(old(Contents()), row, Contents())
      decreases height, 1
    {
      var s;
      row, s := SpreadNext(kind.rowsOf, child, state);
      state := s;
    }

    method NextOfSort() returns (row: Option<Record>)
      requires Valid() && kind.Sort?
      modifies Repr
      ensures Valid() && Yields(old(Contents()), row, Contents())
      decreases height, 1
    {
      if !state.started {
        var rows := Drain(child);
        var sorted := SortRows(kind.items, rows);
        state := state.(buffer := sorted, index := 0, started := true);
      }
      if state.index < |state.buffer| {
        row := Some(state.buffer[state.index]);
        state := state.(index := state.index + 1);
      } else {
        row := None;
      }
    }
  }

  // ---------------------------------------------------------------- loops over a child

  /** Pulls n rows, or as many as there are. */
  method PassOver(child: Operator, n: nat) returns (count: nat)
    requires child.Valid()
    modifies child.Repr
    ensures child.Valid() && child.Contents() == After(old(child.Contents()), n)
    decreases child.height, 3
  {
    count := 0;
    ghost var below := child.Contents();
    while count < n
      invariant count <= n && child.Valid() && below == child.Contents()
      invariant After(below, n - count) == old(After(child.Contents(), n))
    {
      var row := child.Next();
      SkipAdvances(below, row, child.Contents(), n - count);
      below := child.Contents();
      if row.None? { return; }
      count := count + 1;
    }
  }

  method ExpandNext(h: Hop, child: Operator, start: State) returns (row: Option<Record>, s: State)
    requires child.Valid() && ExpandFits(h, start, child.Contents())
    modifies child.Repr
    ensures child.Valid() && ExpandFits(h, s, child.Contents())
    ensures Yields(old(ExpandRest(h, start, child.Contents())), row, ExpandRest(h, s, child.Contents()))
    decreases child.height, 3
  {
    s := start;
    ghost var below := child.Contents();
    while s.current.Some?
      invariant child.Valid() && below == child.Contents() && ExpandFits(h, s, below)
      invariant ExpandRest(h, s, below) == old(ExpandRest(h, start, child.Contents()))
      decreases |below| + if s.current.Some? then 1 else 0
    {
      if s.neighbors == [] && FromNode(h, s.current.value) {
        ExpandFills(h, s, below);
        s := s.(neighbors := h.neighbors(s.current.value[h.from].node.id), index := 0);
      }
      if s.index < |s.neighbors| {
        ExpandEmits(h, s, below);
        row := Some(Edge(h, s.current.value, s.neighbors[s.index]));
        s := s.(index := s.index + 1);
        return;
      }
      var next := child.Next();
      ExpandAdvances(h, s, below, next, child.Contents());
      s, below := s.(current := next, neighbors := [], index := 0), child.Contents();
    }
    row := None;
  }

  method UnwindNext(u: Unwinding, child: Operator, start: State) returns (row: Option<Record>, s: State)
    requires child.Valid() && UnwindFits(start)
    modifies child.Repr
    ensures child.Valid() && UnwindFits(s)
    ensures Yields(old(UnwindRest(u, start, child.Contents())), row, UnwindRest(u, s, child.Contents()))
    decreases child.height, 3
  {
    s := start;
    ghost var below := child.Contents();
    while true
      invariant child.Valid() && below == child.Contents() && UnwindFits(s)
      invariant UnwindRest(u, s, below) == old(UnwindRest(u, start, child.Contents()))
      decreases |below|
    {
      if s.index < |s.list| {
        UnwindEmits(u, s, below);
        row := Some(s.current.value[u.name := s.list[s.index]]);
        s := s.(index := s.index + 1);
        return;
      }
      var next := child.Next();
      ghost var was := s;
      s := s.(current := next);
      if next.Some? && u.list(next.value).Some? { s := s.(list := u.list(next.value).value, index := 0); }
      UnwindAdvances(u, was, below, next, child.Contents(), s);
      below := child.Contents();
      if next.None? { return None, s; }
    }
  }

  method SpreadNext(f: Record -> seq<Record>, child: Operator, start: State) returns (row: Option<Record>, s: State)
    requires child.Valid() && SpreadFits(f, start, child.Contents())
    modifies child.Repr
    ensures child.Valid() && SpreadFits(f, s, child.Contents())
    ensures Yields(old(SpreadRest(f, start, child.Contents())), row, SpreadRest(f, s, child.Contents()))
    decreases child.height, 3
  {
    s := start;
    ghost var below := child.Contents();
    while s.current.Some?
      invariant child.Valid() && below == child.Contents() && SpreadFits(f, s, below)
      invariant SpreadRest(f, s, below) == old(SpreadRest(f, start, child.Contents()))
      decreases |below| + if s.current.Some? then 1 else 0, if s.buffer == [] then 1 else 0
    {
      if s.index < |s.buffer| {
        SpreadEmits(f, s, below);
        row := Some(s.buffer[s.index]);
        s := s.(index := s.index + 1);
        return;
      }
      if s.index == 0 && s.buffer == [] {
        SpreadFills(f, s, below);
        s := s.(buffer := f(s.current.value));
        if s.buffer != [] { continue; }
      }
      var next := child.Next();
      SpreadAdvances(f, s, below, next, child.Contents());
      s, below := s.(current := next, index := 0, buffer := []), child.Contents();
    }
    row := None;
  }

  /** The rows pulled, the one in hand and those to come. */
  predicate Pulled(all: seq<Record>, rows: seq<Record>, row: Option<Record>, rest: seq<Record>) {
    if row.Some? then all == rows + [row.value] + rest else all == rows && rest == []
  }

  lemma PulledStep(all: seq<Record>, rows: seq<Record>, row: Record, rest: seq<Record>, next: Option<Record>,
                   later: seq<Record>)
    requires Pulled(all, rows, Some(row), rest) && Yields(rest, next, later)
    ensures Pulled(all, rows + [row], next, later)
  {
  }

  /** Pulling until nothing comes. */
  method Drain(op: Operator) returns (rows: seq<Record>)
    requires op.Valid()
    modifies op.Repr
    ensures op.Valid() && rows == old(op.Contents()) && op.Contents() == []
    decreases op.height, 3
  {
    ghost var all := op.Contents();
    rows := [];
    var row := op.Next();
    ghost var rest := op.Contents();
    while row.Some?
      invariant op.Valid() && rest == op.Contents() && Pulled(all, rows, row, rest)
      decreases |rest| + if row.Some? then 1 else 0
    {
      ghost var was := row.value;
      var next := op.Next();
      PulledStep(all, rows, was, rest, next, op.Contents());
      rows, row, rest := rows + [row.value], next, op.Contents();
    }
  }
}
