/** Plans on which a pushed-down WHERE, src/cypher/execution_plan.cc, yields other rows than the ones that pass: an
    index that yields other nodes, predicates on other variables, and an input for each way to fail. */
module PushdownFailures {
  import opened Expressions
  import opened Pushdown
  import opened PushdownExactly
  import opened PushdownPlan
  import opened RowLists
  import opened Values
  import opened Wrappers

  // ---------------------------------------------------------------- rows node by node

  /** What each node of a list contributes, one after the other. */
  function Segments(k: Node -> seq<Record>, nodes: seq<Node>): seq<Record> {
    if nodes == [] then [] else k(nodes[0]) + Segments(k, nodes[1..])
  }

  lemma {:induction false} FlatMapConcat(f: Record -> seq<Record>, a: seq<Record>, b: seq<Record>)
    ensures FlatMap(f, a + b) == FlatMap(f, a) + FlatMap(f, b)
    decreases |a|
  {
    if a == [] {
      assert a + b == b;
    } else {
      assert (a + b)[1..] == a[1..] + b;
      FlatMapConcat(f, a[1..], b);
    }
  }

  lemma {:induction false} OverConcat(env: Env, plan: Plan, a: seq<Record>, b: seq<Record>)
    ensures Over(env, plan, a + b) == Over(env, plan, a) + Over(env, plan, b)
  {
    match plan
    case Filtered(e, child) =>
      OverConcat(env, child, a, b);
      KeepConcat(Passing(env, e), Over(env, child, a), Over(env, child, b));
    case Each(f, child) =>
      OverConcat(env, child, a, b);
      FlatMapConcat(f, Over(env, child, a), Over(env, child, b));
    case _ =>
  }

  lemma {:induction false} OverNothing(env: Env, plan: Plan)
    ensures Over(env, plan, []) == []
  {
    if plan.Filtered? || plan.Each? { OverNothing(env, plan.child); }
  }

  /** The rows of a chain over one node, bound to v, that pass a condition; none if the node fails another. */
  function NodeRows(env: Env, plan: Plan, v: string, q: Record -> bool, p: Record -> bool): Node -> seq<Record> {
    n => if q(Row(v, n)) then Keep(p, Over(env, plan, [Row(v, n)])) else []
  }

  lemma {:induction false} RowsByNode(env: Env, plan: Plan, v: string, q: Record -> bool, p: Record -> bool,
                                      nodes: seq<Node>)
    ensures Keep(p, Over(env, plan, Keep(q, ScanRows(v, nodes)))) == Segments(NodeRows(env, plan, v, q, p), nodes)
    decreases |nodes|
  {
    if nodes == [] {
      OverNothing(env, plan);
    } else {
      var first, rest := Row(v, nodes[0]), ScanRows(v, nodes[1..]);
      RowsByNode(env, plan, v, q, p, nodes[1..]);
      KeepFirst(q, first, rest);
      var front := if q(first) then [first] else [];
      OverConcat(env, plan, front, Keep(q, rest));
      KeepConcat(p, Over(env, plan, front), Over(env, plan, Keep(q, rest)));
      if !q(first) { OverNothing(env, plan); }
    }
  }

  /** What a node that the index scan yields sends through the pushed-down plan. */
  function SentBy(env: Env, plan: Plan, v: string, e: Expr): Node -> seq<Record>
    requires Analyze(e).pushable != []
  {
    NodeRows(env, plan, v, AllPassing(env, BesidesBest(Analyze(e).pushable)), RestPassing(env, Analyze(e).remaining))
  }

  /** The rows of the plan over a node that pass the WHERE. */
  function PassedBy(env: Env, plan: Plan, v: string, e: Expr): Node -> seq<Record> {
    NodeRows(env, plan, v, (row: Record) => true, Passing(env, e))
  }

  lemma {:induction false} SentSegments(env: Env, find: Finder, plan: Plan, e: Expr)
    requires Leaf(plan).NodeScan? && Analyze(e).pushable != []
    ensures var best := BestOf(Analyze(e).pushable);
            Rows(env, Where(find, plan, e)) ==
            Segments(SentBy(env, plan, best.variable, e), Emitted(best, find(best)))
  {
    var ps := Analyze(e).pushable;
    var best := BestOf(ps);
    WhereRows(env, find, plan, e);
    PushedRows(env, find, plan, ps);
    RowsByNode(env, plan, best.variable, AllPassing(env, BesidesBest(ps)), RestPassing(env, Analyze(e).remaining),
               Emitted(best, find(best)));
  }

  lemma {:induction false} PassedSegments(env: Env, plan: Plan, v: string, e: Expr)
    requires Leaf(plan).NodeScan? && Leaf(plan).variable == v
    ensures Keep(Passing(env, e), Rows(env, plan)) == Segments(PassedBy(env, plan, v, e), Scanned(plan))
  {
    var all := (row: Record) => true;
    RowsAreOver(env, plan);
    KeepEverything(all, ScanRows(v, Scanned(plan)));
    RowsByNode(env, plan, v, all, Passing(env, e), Scanned(plan));
  }

  // ---------------------------------------------------------------- an index that yields any nodes

  predicate Distinct(nodes: seq<Node>) { forall i, j :: 0 <= i < j < |nodes| ==> nodes[i] != nodes[j] }

  /** The nodes of a list that contribute something. */
  function Contributing(k: Node -> seq<Record>, nodes: seq<Node>): seq<Node> {
    if nodes == [] then [] else (if k(nodes[0]) == [] then [] else [nodes[0]]) + Contributing(k, nodes[1..])
  }

  predicate IsOf(v: string, n: Node, row: Record) { v in row && row[v] == NodeValue(n) }

  /** What a node contributes binds v to it. */
  ghost predicate Labelled(k: Node -> seq<Record>, v: string) {
    forall n: Node, i: nat :: i < |k(n)| ==> IsOf(v, n, k(n)[i])
  }

  lemma {:induction false} SegmentsLabelled(k: Node -> seq<Record>, v: string, nodes: seq<Node>, i: nat)
    requires Labelled(k, v) && i < |Segments(k, nodes)|
    ensures exists n :: n in nodes && IsOf(v, n, Segments(k, nodes)[i])
    decreases |nodes|
  {
    var first := k(nodes[0]);
    if i < |first| {
      assert nodes[0] in nodes && Segments(k, nodes)[i] == first[i];
      assert IsOf(v, nodes[0], first[i]);
    } else {
      SegmentsLabelled(k, v, nodes[1..], i - |first|);
      var n :| n in nodes[1..] && IsOf(v, n, Segments(k, nodes[1..])[i - |first|]);
      assert n in nodes && Segments(k, nodes)[i] == Segments(k, nodes[1..])[i - |first|];
    }
  }

  /** A first part that is all n's, and a rest without any. */
  lemma SplitByLabel(v: string, n: Node, a: seq<Record>, x: seq<Record>, b: seq<Record>, y: seq<Record>)
    requires a + x == b + y && (x != [] ==> !IsOf(v, n, x[0])) && (y != [] ==> !IsOf(v, n, y[0]))
    requires (forall i :: 0 <= i < |a| ==> IsOf(v, n, a[i])) && (forall i :: 0 <= i < |b| ==> IsOf(v, n, b[i]))
    ensures a == b && x == y
  {
    if |a| < |b| { AtSplit(a, x, b, y); }
    if |b| < |a| { AtSplit(b, y, a, x); }
    assert a == (a + x)[..|a|] && b == (b + y)[..|b|] && x == (a + x)[|a|..] && y == (b + y)[|b|..];
  }

  lemma AtSplit(a: seq<Record>, x: seq<Record>, b: seq<Record>, y: seq<Record>)
    requires a + x == b + y && |a| < |b|
    ensures x != [] && x[0] == b[|a|]
  {
    assert (a + x)[|a|] == (b + y)[|a|];
  }

  lemma {:induction false} OthersFirst(k: Node -> seq<Record>, v: string, nodes: seq<Node>)
    requires Labelled(k, v) && nodes != [] && Distinct(nodes)
    ensures var rest := Segments(k, nodes[1..]); rest != [] ==> !IsOf(v, nodes[0], rest[0])
  {
    var rest := Segments(k, nodes[1..]);
    if rest != [] {
      SegmentsLabelled(k, v, nodes[1..], 0);
      var n :| n in nodes[1..] && IsOf(v, n, rest[0]);
      var j :| 0 <= j < |nodes| - 1 && nodes[1..][j] == n;
      assert nodes[0] != nodes[j + 1];
    }
  }

  ghost predicate SameOn(a: Node -> seq<Record>, b: Node -> seq<Record>, nodes: seq<Node>) {
    forall n :: n in nodes ==> a(n) == b(n)
  }

  ghost predicate SameSegments(a: Node -> seq<Record>, b: Node -> seq<Record>, es: seq<Node>, ns: seq<Node>) {
    Contributing(a, es) == Contributing(b, ns) && SameOn(a, b, Contributing(a, es))
  }

  lemma DistinctRest(nodes: seq<Node>)
    requires Distinct(nodes) && nodes != []
    ensures Distinct(nodes[1..])
  {
  }

  /** Without repeated nodes two lists contribute the same rows if and only if the same nodes contribute, in the same
      order, and each the same. */
  lemma {:induction false} SegmentsExactly(a: Node -> seq<Record>, b: Node -> seq<Record>, v: string, es: seq<Node>,
                                           ns: seq<Node>)
    requires Labelled(a, v) && Labelled(b, v) && Distinct(es) && Distinct(ns)
    ensures Segments(a, es) == Segments(b, ns) <==> SameSegments(a, b, es, ns)
    decreases |es| + |ns|
  {
    if es != [] && a(es[0]) == [] {
      DistinctRest(es);
      SegmentsExactly(a, b, v, es[1..], ns);
      assert [] + Segments(a, es[1..]) == Segments(a, es[1..]);
      assert [] + Contributing(a, es[1..]) == Contributing(a, es[1..]);
    } else if ns != [] && b(ns[0]) == [] {
      DistinctRest(ns);
      SegmentsExactly(a, b, v, es, ns[1..]);
      assert [] + Segments(b, ns[1..]) == Segments(b, ns[1..]);
      assert [] + Contributing(b, ns[1..]) == Contributing(b, ns[1..]);
    } else if es != [] && ns != [] {
      BothContribute(a, b, v, es, ns);
    }
  }

  lemma {:induction false} BothContribute(a: Node -> seq<Record>, b: Node -> seq<Record>, v: string, es: seq<Node>,
                                          ns: seq<Node>)
    requires Labelled(a, v) && Labelled(b, v) && Distinct(es) && Distinct(ns)
    requires es != [] && ns != [] && a(es[0]) != [] && b(ns[0]) != []
    ensures Segments(a, es) == Segments(b, ns) <==> SameSegments(a, b, es, ns)
    decreases |es| + |ns|, 0
  {
    var m, n := es[0], ns[0];
    assert IsOf(v, m, a(m)[0]) && IsOf(v, n, b(n)[0]);
    assert Segments(a, es)[0] == a(m)[0] && Segments(b, ns)[0] == b(n)[0];
    assert Contributing(a, es)[0] == m && Contributing(b, ns)[0] == n;
    if m == n {
      DistinctRest(es);
      DistinctRest(ns);
      SegmentsExactly(a, b, v, es[1..], ns[1..]);
      OthersFirst(a, v, es);
      OthersFirst(b, v, ns);
      if Segments(a, es) == Segments(b, ns) {
        SplitByLabel(v, n, a(n), Segments(a, es[1..]), b(n), Segments(b, ns[1..]));
      }
      SameStep(a, b, es, ns);
    }
  }

  lemma {:induction false} SameStep(a: Node -> seq<Record>, b: Node -> seq<Record>, es: seq<Node>, ns: seq<Node>)
    requires es != [] && ns != [] && es[0] == ns[0] && a(es[0]) != [] && b(ns[0]) != []
    ensures SameSegments(a, b, es, ns) <==> a(es[0]) == b(es[0]) && SameSegments(a, b, es[1..], ns[1..])
  {
    var n, c, d := es[0], Contributing(a, es[1..]), Contributing(b, ns[1..]);
    assert Contributing(a, es) == [n] + c && Contributing(b, ns) == [n] + d;
    assert ([n] + c)[1..] == c && ([n] + d)[1..] == d;
  }

  lemma {:induction false} NodeRowsLabelled(env: Env, plan: Plan, v: string, q: Record -> bool, p: Record -> bool)
    requires Carries(plan, v)
    ensures Labelled(NodeRows(env, plan, v, q, p), v)
  {
    var k := NodeRows(env, plan, v, q, p);
    forall n: Node, i: nat | i < |k(n)|
      ensures IsOf(v, n, k(n)[i])
    {
      OneNodeLabelled(env, plan, v, n, k(n)[i]);
      KeepMembers(p, Over(env, plan, [Row(v, n)]), k(n)[i]);
    }
  }

  lemma {:induction false} OneNodeLabelled(env: Env, plan: Plan, v: string, n: Node, row: Record)
    requires Carries(plan, v)
    ensures row in Over(env, plan, [Row(v, n)]) ==> IsOf(v, n, row)
  {
    var same := (r: Record) => IsOf(v, n, r);
    var rows := [Row(v, n)];
    OverKeeps(env, plan, v, same, rows);
    assert rows[1..] == [];
    assert Keep(same, rows) == rows;
    KeepMembers(same, Over(env, plan, rows), row);
  }

  /** Whatever nodes an index yields for a predicate on the scanned variable, in whatever order: the rows are kept if
      and only if the yielded nodes that send a row are, in order, the scanned nodes that have a passing row, and each
      sends exactly those. */
  lemma {:induction false} IndexedExactly(env: Env, find: Finder, plan: Plan, v: string, e: Expr)
    requires OverScan(plan, v) && Analyze(e).pushable != [] && BestOf(Analyze(e).pushable).variable == v
    requires Distinct(Emitted(BestOf(Analyze(e).pushable), find(BestOf(Analyze(e).pushable))))
    requires Distinct(Scanned(plan))
    ensures var best := BestOf(Analyze(e).pushable);
            Kept(env, find, plan, e) <==>
            SameSegments(SentBy(env, plan, v, e), PassedBy(env, plan, v, e), Emitted(best, find(best)), Scanned(plan))
  {
    var ps := Analyze(e).pushable;
    var best := BestOf(ps);
    SentSegments(env, find, plan, e);
    PassedSegments(env, plan, v, e);
    NodeRowsLabelled(env, plan, v, AllPassing(env, BesidesBest(ps)), RestPassing(env, Analyze(e).remaining));
    NodeRowsLabelled(env, plan, v, (row: Record) => true, Passing(env, e));
    SegmentsExactly(SentBy(env, plan, v, e), PassedBy(env, plan, v, e), v, Emitted(best, find(best)), Scanned(plan));
  }

  // ---------------------------------------------------------------- a predicate on another variable takes the scan

  /** A row without v stays without it. */
  ghost predicate Blind(f: Record -> seq<Record>, v: string) {
    forall row: Record, i: nat :: v !in row && i < |f(row)| ==> v !in f(row)[i]
  }

  ghost predicate NeverBinds(plan: Plan, v: string) {
    match plan
    case Filtered(_, child) => NeverBinds(child, v)
    case Each(f, child) => Blind(f, v) && NeverBinds(child, v)
    case _ => true
  }

  ghost predicate Without(rows: seq<Record>, v: string) { forall i :: 0 <= i < |rows| ==> v !in rows[i] }

  lemma {:induction false} FlatMapWithout(f: Record -> seq<Record>, v: string, rows: seq<Record>)
    requires Blind(f, v) && Without(rows, v)
    ensures Without(FlatMap(f, rows), v)
    decreases |rows|
  {
    if rows != [] { FlatMapWithout(f, v, rows[1..]); }
  }

  lemma {:induction false} KeepWithout(p: Record -> bool, v: string, rows: seq<Record>)
    requires Without(rows, v)
    ensures Without(Keep(p, rows), v)
    decreases |rows|
  {
    if rows != [] { KeepWithout(p, v, rows[1..]); }
  }

  lemma {:induction false} OverWithout(env: Env, plan: Plan, v: string, rows: seq<Record>)
    requires NeverBinds(plan, v) && Without(rows, v)
    ensures Without(Over(env, plan, rows), v)
  {
    match plan
    case Filtered(e, child) =>
      OverWithout(env, child, v, rows);
      KeepWithout(Passing(env, e), v, Over(env, child, rows));
    case Each(f, child) =>
      OverWithout(env, child, v, rows);
      FlatMapWithout(f, v, Over(env, child, rows));
    case _ =>
  }

  lemma {:induction false} ScanWithout(v: string, w: string, nodes: seq<Node>)
    requires v != w
    ensures Without(ScanRows(w, nodes), v)
    decreases |nodes|
  {
    if nodes != [] { ScanWithout(v, w, nodes[1..]); }
  }

  lemma {:induction false} SwappedWithout(env: Env, find: Finder, plan: Plan, v: string, e: Expr)
    requires Leaf(plan).NodeScan? && NeverBinds(plan, v)
    requires Analyze(e).pushable != [] && BestOf(Analyze(e).pushable).variable != v
    ensures Without(Rows(env, Where(find, plan, e)), v)
  {
    var ps := Analyze(e).pushable;
    var best := BestOf(ps);
    var scan := ScanRows(best.variable, Emitted(best, find(best)));
    WhereRows(env, find, plan, e);
    PushedRows(env, find, plan, ps);
    ScanWithout(v, best.variable, Emitted(best, find(best)));
    KeepWithout(AllPassing(env, BesidesBest(ps)), v, scan);
    OverWithout(env, plan, v, Swapped(env, find, ps));
    KeepWithout(RestPassing(env, Analyze(e).remaining), v, Over(env, plan, Swapped(env, find, ps)));
  }

  lemma {:induction false} NoSegments(k: Node -> seq<Record>, nodes: seq<Node>)
    ensures Segments(k, nodes) == [] <==> forall i :: 0 <= i < |nodes| ==> k(nodes[i]) == []
    decreases |nodes|
  {
    if nodes != [] {
      NoSegments(k, nodes[1..]);
      assert forall i :: 0 <= i < |nodes| - 1 ==> nodes[1..][i] == nodes[i + 1];
      if forall i :: 0 <= i < |nodes[1..]| ==> k(nodes[1..][i]) == [] {
        assert forall i :: 1 <= i < |nodes| ==> nodes[i] == nodes[1..][i - 1];
      }
    }
  }

  predicate NonePasses(env: Env, plan: Plan, e: Expr) {
    forall i :: 0 <= i < |Rows(env, plan)| ==> !Passes(env, e, Rows(env, plan)[i])
  }

  lemma NoneKept(env: Env, plan: Plan, e: Expr)
    ensures Keep(Passing(env, e), Rows(env, plan)) == [] <==> NonePasses(env, plan, e)
  {
    var rows, never := Rows(env, plan), (row: Record) => false;
    KeepsSameRows(Passing(env, e), never, rows);
    KeepNever(never, rows);
  }

  lemma {:induction false} KeepNever(p: Record -> bool, rows: seq<Record>)
    requires forall row :: !p(row)
    ensures Keep(p, rows) == []
    decreases |rows|
  {
    if rows != [] { KeepNever(p, rows[1..]); }
  }

  lemma {:induction false} PassingBind(env: Env, plan: Plan, v: string, e: Expr)
    requires OverScan(plan, v)
    ensures Bind(Keep(Passing(env, e), Rows(env, plan)), v)
  {
    RowsAreOver(env, plan);
    ScanBinds(v, Scanned(plan));
    OverBinds(env, plan, v, ScanRows(v, Scanned(plan)));
    KeepBinds(Passing(env, e), v, Rows(env, plan));
  }

  /** If the best predicate is on another variable than the scanned one, and no operator above binds that one: the rows
      are kept if and only if no node the index scan yields sends a row and no row of the plan passes the WHERE. */
  lemma {:induction false} OtherVariableExactly(env: Env, find: Finder, plan: Plan, v: string, e: Expr)
    requires OverScan(plan, v) && NeverBinds(plan, v)
    requires Analyze(e).pushable != [] && BestOf(Analyze(e).pushable).variable != v
    ensures var best := BestOf(Analyze(e).pushable);
            Kept(env, find, plan, e) <==>
            (forall i :: 0 <= i < |Emitted(best, find(best))| ==>
               SentBy(env, plan, best.variable, e)(Emitted(best, find(best))[i]) == []) &&
            NonePasses(env, plan, e)
  {
    var best := BestOf(Analyze(e).pushable);
    SwappedWithout(env, find, plan, v, e);
    PassingBind(env, plan, v, e);
    SentSegments(env, find, plan, e);
    NoSegments(SentBy(env, plan, best.variable, e), Emitted(best, find(best)));
    NoneKept(env, plan, e);
    BothOrNone(Rows(env, Where(find, plan, e)), Keep(Passing(env, e), Rows(env, plan)), v);
  }

  lemma BothOrNone(a: seq<Record>, b: seq<Record>, v: string)
    requires Without(a, v) && Bind(b, v)
    ensures a == b <==> a == [] && b == []
  {
    if a != [] { assert v !in a[0]; }
    if b != [] { assert v in b[0]; }
  }

  /** An operator that yields nothing for a row without v, as an expansion from v does. */
  ghost predicate Needs(f: Record -> seq<Record>, v: string) { forall row: Record :: v !in row ==> f(row) == [] }

  ghost predicate SomeNeeds(plan: Plan, v: string) {
    match plan
    case Filtered(_, child) => SomeNeeds(child, v)
    case Each(f, child) => Needs(f, v) || SomeNeeds(child, v)
    case _ => false
  }

  lemma {:induction false} FlatMapNeeds(f: Record -> seq<Record>, v: string, rows: seq<Record>)
    requires Needs(f, v) && Without(rows, v)
    ensures FlatMap(f, rows) == []
    decreases |rows|
  {
    if rows != [] { FlatMapNeeds(f, v, rows[1..]); }
  }

  lemma {:induction false} OverNeeds(env: Env, plan: Plan, v: string, rows: seq<Record>)
    requires NeverBinds(plan, v) && SomeNeeds(plan, v) && Without(rows, v)
    ensures Over(env, plan, rows) == []
  {
    match plan
    case Filtered(e, child) => OverNeeds(env, child, v, rows);
    case Each(f, child) =>
      if SomeNeeds(child, v) {
        OverNeeds(env, child, v, rows);
      } else {
        OverWithout(env, child, v, rows);
        FlatMapNeeds(f, v, Over(env, child, rows));
      }
  }

  /** If besides an operator needs v, as in a pattern that expands from it, then no row comes out at all. */
  lemma {:induction false} OtherVariableYieldsNothing(env: Env, find: Finder, plan: Plan, v: string, e: Expr)
    requires OverScan(plan, v) && NeverBinds(plan, v) && SomeNeeds(plan, v)
    requires Analyze(e).pushable != [] && BestOf(Analyze(e).pushable).variable != v
    ensures Rows(env, Where(find, plan, e)) == []
    ensures Kept(env, find, plan, e) <==> NonePasses(env, plan, e)
  {
    var ps := Analyze(e).pushable;
    var best := BestOf(ps);
    WhereRows(env, find, plan, e);
    PushedRows(env, find, plan, ps);
    ScanWithout(v, best.variable, Emitted(best, find(best)));
    KeepWithout(AllPassing(env, BesidesBest(ps)), v, ScanRows(best.variable, Emitted(best, find(best))));
    OverNeeds(env, plan, v, Swapped(env, find, ps));
    NoneKept(env, plan, e);
  }

  lemma {:induction false} RebuiltAnalyzes(p: Pushable)
    ensures Analyze(Rebuilt(p)) == Analysis([p], None) && Best([p]) == 0 && BestOf([p]) == p && BesidesBest([p]) == []
  {
  }

  /** For one predicate over a bare scan: its value where its own variable is not bound by the row decides. */
  predicate PassesUnbound(env: Env, p: Pushable) {
    var unbound := PropertyOf(env, VariableValue(env, p.variable, map[]), p.property);
    Compare(env, p.op, unbound, p.literal) == Some(Bool(true))
  }

  lemma UnboundEvaluates(env: Env, p: Pushable, row: Record)
    requires p.variable !in row
    ensures Passes(env, Rebuilt(p), row) <==> PassesUnbound(env, p)
  {
    RebuiltEvaluates(env, p, row);
  }

  lemma {:induction false} OtherVariableOnScan(env: Env, find: Finder, v: string, nodes: seq<Node>, p: Pushable)
    requires p.variable != v && find(p) == Found(nodes, false)
    ensures Kept(env, find, NodeScan(v, nodes), Rebuilt(p)) <==>
            Matching(p, nodes) == [] && (nodes == [] || !PassesUnbound(env, p))
  {
    var plan, e, w := NodeScan(v, nodes), Rebuilt(p), p.variable;
    RebuiltAnalyzes(p);
    OtherVariableExactly(env, find, plan, v, e);
    var sent := Matching(p, nodes);
    forall i | 0 <= i < |sent|
      ensures SentBy(env, plan, w, e)(sent[i]) != []
    {
      var row := Row(w, sent[i]);
      KeepFirst(RestPassing(env, None), row, []);
      assert [row] + [] == [row];
    }
    if sent != [] { assert SentBy(env, plan, w, e)(sent[0]) != []; }
    if nodes != [] { ScanRowsAt(v, nodes, 0); }
    forall i | 0 <= i < |nodes|
      ensures Passes(env, e, Rows(env, plan)[i]) <==> PassesUnbound(env, p)
    {
      ScanRowsAt(v, nodes, i);
      UnboundEvaluates(env, p, Row(v, nodes[i]));
    }
    if nodes != [] { assert Passes(env, e, Rows(env, plan)[0]) <==> PassesUnbound(env, p); }
  }

  // ---------------------------------------------------------------- a filter below what binds its variable

  predicate Unbound(env: Env, v: string) { v !in env.variables && v !in env.parameters }

  /** A comparison with a variable that nothing binds: only `<>` passes. */
  lemma UnboundPasses(env: Env, q: Pushable, row: Record)
    requires q.variable !in row && Unbound(env, q.variable)
    ensures Passes(env, Rebuilt(q), row) <==> q.op.NE?
  {
    RebuiltEvaluates(env, q, row);
  }

  lemma {:induction false} ScanFails(p: Record -> bool, w: string, nodes: seq<Node>)
    requires forall n :: n in nodes ==> !p(Row(w, n))
    ensures Keep(p, ScanRows(w, nodes)) == []
    decreases |nodes|
  {
    if nodes != [] {
      assert nodes[0] in nodes && forall n :: n in nodes[1..] ==> n in nodes;
      ScanFails(p, w, nodes[1..]);
      KeepFirst(p, Row(w, nodes[0]), ScanRows(w, nodes[1..]));
    }
  }

  /** If a predicate besides the best is on a variable that neither the scan nor the environment binds, and is not `<>`,
      then no row comes out, whatever binds that variable further up; so the rows are kept exactly if none passes. */
  lemma {:induction false} UnboundYieldsNothing(env: Env, find: Finder, plan: Plan, e: Expr, q: Pushable)
    requires Leaf(plan).NodeScan? && Analyze(e).pushable != [] && q in BesidesBest(Analyze(e).pushable)
    requires q.variable != BestOf(Analyze(e).pushable).variable && Unbound(env, q.variable) && !q.op.NE?
    ensures Rows(env, Where(find, plan, e)) == []
    ensures Kept(env, find, plan, e) <==> NonePasses(env, plan, e)
  {
    var ps := Analyze(e).pushable;
    var best := BestOf(ps);
    var p, nodes := AllPassing(env, BesidesBest(ps)), Emitted(best, find(best));
    WhereRows(env, find, plan, e);
    PushedRows(env, find, plan, ps);
    forall n | n in nodes
      ensures !p(Row(best.variable, n))
    {
      UnboundPasses(env, q, Row(best.variable, n));
      var i :| 0 <= i < |BesidesBest(ps)| && BesidesBest(ps)[i] == q;
    }
    ScanFails(p, best.variable, nodes);
    OverNothing(env, plan);
    NoneKept(env, plan, e);
  }

  /** The best predicate is the first equality, or the first of all if there is none. */
  lemma {:induction false} BestIs(ps: seq<Pushable>, b: nat)
    requires b < |ps|
    requires if ps[b].op.EQ? then forall i :: 0 <= i < b ==> !ps[i].op.EQ?
             else b == 0 && forall i :: 0 <= i < |ps| ==> !ps[i].op.EQ?
    ensures Best(ps) == b
  {
    var c := Best(ps);
    assert ps[b].op.EQ? ==> ps[c].op.EQ?;
  }

  /** Leaving out a predicate that is neither the best nor an equality does not change the best. */
  lemma BestStays(ps: seq<Pushable>, i: nat)
    requires i < |ps| && i != Best(ps) && !ps[i].op.EQ?
    ensures var less := Others(ps, i); less != [] && BestOf(less) == BestOf(ps)
  {
    var less, b := Others(ps, i), Best(ps);
    assert forall j :: 0 <= j < |less| ==> less[j] == if j < i then ps[j] else ps[j + 1];
    BestIs(less, if i < b then b - 1 else b);
  }

  lemma PassAsSets(env: Env, ps: seq<Pushable>, qs: seq<Pushable>, q: Pushable, row: Record)
    requires multiset(ps) == multiset(qs) + multiset{q} && Passes(env, Rebuilt(q), row)
    ensures AllPass(env, ps, row) <==> AllPass(env, qs, row)
  {
    forall p
      ensures p in ps <==> p in qs || p == q
    {
      assert p in ps <==> p in multiset(ps);
      assert p in qs <==> p in multiset(qs);
    }
    if AllPass(env, qs, row) {
      forall i | 0 <= i < |ps|
        ensures Passes(env, Rebuilt(ps[i]), row)
      {
        assert ps[i] in ps;
        if ps[i] != q { var j :| 0 <= j < |qs| && qs[j] == ps[i]; }
      }
    }
    if AllPass(env, ps, row) {
      forall j | 0 <= j < |qs|
        ensures Passes(env, Rebuilt(qs[j]), row)
      {
        assert qs[j] in qs;
        var i :| 0 <= i < |ps| && ps[i] == qs[j];
      }
    }
  }

  lemma OthersCount(ps: seq<Pushable>, i: nat)
    requires i < |ps|
    ensures multiset(Others(ps, i)) + multiset{ps[i]} == multiset(ps)
  {
    assert ps == ps[..i] + ([ps[i]] + ps[i + 1..]);
  }

  lemma CountsCancel(a: multiset<Pushable>, b: multiset<Pushable>, p: Pushable, q: Pushable)
    requires a + multiset{p} == b + multiset{p} + multiset{q}
    ensures a == b + multiset{q}
  {
    forall x
      ensures a[x] == (b + multiset{q})[x]
    {
      assert (a + multiset{p})[x] == (b + multiset{p} + multiset{q})[x];
    }
  }

  lemma BesidesLess(ps: seq<Pushable>, less: seq<Pushable>, i: nat)
    requires i < |ps| && less == Others(ps, i) != [] && BestOf(less) == BestOf(ps)
    ensures multiset(BesidesBest(ps)) == multiset(BesidesBest(less)) + multiset{ps[i]}
  {
    OthersCount(ps, i);
    OthersCount(ps, Best(ps));
    OthersCount(less, Best(less));
    CountsCancel(multiset(BesidesBest(ps)), multiset(BesidesBest(less)), BestOf(ps), ps[i]);
  }

  /** A `<>` with such a variable is not applied at all: the plan yields what it yields without it. */
  lemma {:induction false} UnboundNotApplied(env: Env, find: Finder, plan: Plan, ps: seq<Pushable>, i: nat)
    requires Leaf(plan).NodeScan? && i < |ps| && i != Best(ps)
    requires ps[i].op.NE? && ps[i].variable != BestOf(ps).variable && Unbound(env, ps[i].variable)
    ensures Others(ps, i) != [] && Rows(env, Push(find, plan, ps)) == Rows(env, Push(find, plan, Others(ps, i)))
  {
    var less, q := Others(ps, i), ps[i];
    BestStays(ps, i);
    BesidesLess(ps, less, i);
    PushedRows(env, find, plan, ps);
    PushedRows(env, find, plan, less);
    SwappedAlike(env, find, ps, less, q);
  }

  lemma {:induction false} SwappedAlike(env: Env, find: Finder, ps: seq<Pushable>, qs: seq<Pushable>, q: Pushable)
    requires ps != [] && qs != [] && BestOf(ps) == BestOf(qs)
    requires multiset(BesidesBest(ps)) == multiset(BesidesBest(qs)) + multiset{q}
    requires q.op.NE? && q.variable != BestOf(ps).variable && Unbound(env, q.variable)
    ensures Swapped(env, find, ps) == Swapped(env, find, qs)
  {
    var w, nodes := BestOf(ps).variable, Emitted(BestOf(ps), find(BestOf(ps)));
    var rows := ScanRows(w, nodes);
    KeepsSameRows(AllPassing(env, BesidesBest(ps)), AllPassing(env, BesidesBest(qs)), rows);
    if nodes != [] { ScanRowsAt(w, nodes, 0); }
    forall i | 0 <= i < |rows|
      ensures AllPass(env, BesidesBest(ps), rows[i]) <==> AllPass(env, BesidesBest(qs), rows[i])
    {
      ScanRowsAt(w, nodes, i);
      UnboundPasses(env, q, rows[i]);
      PassAsSets(env, BesidesBest(ps), BesidesBest(qs), q, rows[i]);
    }
  }

  // ---------------------------------------------------------------- inputs

  /** Property x of n against a number, as a query writes it. */
  function Compared(n: string, x: string, op: Op, k: int): Expr { Comparison(op, Property(n, x), Literal(Int(k))) }

  lemma ComparedPasses(env: Env, n: string, x: string, op: Op, k: int, row: Record)
    requires n in row && row[n].NodeValue?
    ensures var stored := Lookup(row[n].node.properties, x);
            Passes(env, Compared(n, x, op, k), row) <==> Compare(env, op, OrNull(stored), Int(k)) == Some(Bool(true))
  {
    RebuiltEvaluates(env, Pushable(n, x, op, Int(k)), row);
  }

  function WithX(id: nat, x: int): Node { Node(id, ["Node"], [Entry("x", Int(x))]) }

  lemma OneRow(p: Record -> bool, row: Record)
    ensures Keep(p, [row]) == if p(row) then [row] else []
  {
    KeepFirst(p, row, []);
    assert [row] + [] == [row];
  }

  lemma ScanOne(v: string, n: Node)
    ensures ScanRows(v, [n]) == [Row(v, n)]
  {
    assert [n][1..] == [];
    assert [Row(v, n)] + [] == [Row(v, n)];
  }

  /** `MATCH (n) WHERE n.x <> 1` drops a node without the property, which passes. */
  lemma {:induction false} MissingPropertyIsLost(env: Env, find: Finder)
    requires find(Pushable("n", "x", NE, Int(1))) == Found([Node(7, [], [])], false)
    ensures var plan, e := NodeScan("n", [Node(7, [], [])]), Compared("n", "x", NE, 1);
            !Kept(env, find, plan, e) && Rows(env, Where(find, plan, e)) == []
  {
    var p, n := Pushable("n", "x", NE, Int(1)), Node(7, [], []);
    var plan, e := NodeScan("n", [n]), Compared("n", "x", NE, 1);
    RebuiltAnalyzes(p);
    ScanOne("n", n);
    assert [n][1..] == [] && Matching(p, [n]) == [];
    SentSegments(env, find, plan, e);
    ComparedPasses(env, "n", "x", NE, 1, Row("n", n));
    OneRow(Passing(env, e), Row("n", n));
  }

  /** `MATCH (n:P) WHERE n.x = 1`: the label makes the leaf an index scan, and a node with x = 2 comes out. */
  lemma {:induction false} LabelScanLosesPredicate(env: Env, find: Finder)
    ensures var plan := IndexScan(Pushable("n", "", EQ, Null), Found([WithX(7, 2)], true));
            var e := Compared("n", "x", EQ, 1);
            Rows(env, Where(find, plan, e)) == [Row("n", WithX(7, 2))] && !Kept(env, find, plan, e)
  {
    var n, p := WithX(7, 2), Pushable("n", "x", EQ, Int(1));
    var plan, e := IndexScan(Pushable("n", "", EQ, Null), Found([n], true)), Compared("n", "x", EQ, 1);
    RebuiltAnalyzes(p);
    ScanOne("n", n);
    WhereRows(env, find, plan, e);
    PushedRows(env, find, plan, [p]);
    OneRow(RestPassing(env, None), Row("n", n));
    assert Lookup(n.properties, "x") == Some(Int(2));
    ComparedPasses(env, "n", "x", EQ, 1, Row("n", n));
    OneRow(Passing(env, e), Row("n", n));
  }

  /** A scan whose label is looked up in an index does not check the pushed predicate: a node with x = 2 comes out of
      `x = 1`. */
  lemma {:induction false} LabelLookupUnchecked(env: Env, find: Finder)
    requires find(Pushable("n", "x", EQ, Int(1))) == Found([WithX(7, 2)], true)
    ensures var plan, e := NodeScan("n", [WithX(7, 2)]), Compared("n", "x", EQ, 1);
            Rows(env, Where(find, plan, e)) == [Row("n", WithX(7, 2))] && !Kept(env, find, plan, e)
  {
    var n, p := WithX(7, 2), Pushable("n", "x", EQ, Int(1));
    var plan, e := NodeScan("n", [n]), Compared("n", "x", EQ, 1);
    RebuiltAnalyzes(p);
    ScanOne("n", n);
    WhereRows(env, find, plan, e);
    PushedRows(env, find, plan, [p]);
    OneRow(AllPassing(env, []), Row("n", n));
    OneRow(RestPassing(env, None), Row("n", n));
    assert Lookup(n.properties, "x") == Some(Int(2));
    ComparedPasses(env, "n", "x", EQ, 1, Row("n", n));
    OneRow(Passing(env, e), Row("n", n));
  }

  /** `MATCH (n) WHERE m.x = 1`: a node with x = 1 comes out as m, although no row passes. */
  lemma {:induction false} OtherVariableTakesScan(env: Env, find: Finder)
    requires Unbound(env, "m") && find(Pushable("m", "x", EQ, Int(1))) == Found([WithX(7, 1)], false)
    ensures var plan, e := NodeScan("n", [WithX(7, 1)]), Compared("m", "x", EQ, 1);
            !Kept(env, find, plan, e) && NonePasses(env, plan, e)
  {
    var n, p := WithX(7, 1), Pushable("m", "x", EQ, Int(1));
    assert Lookup(n.properties, "x") == Some(Int(1));
    assert NodeMatches(p, n) && [n][1..] == [];
    assert Matching(p, [n]) == [n];
    OtherVariableOnScan(env, find, "n", [n], p);
    ScanOne("n", n);
    UnboundPasses(env, p, Row("n", n));
  }

  /** `MATCH (a)-[]->(b) WHERE a.x = 1 AND b.y = 2` over one edge. */
  function ToB(b: Node): Record -> seq<Record> {
    (row: Record) => if "a" in row then [row["b" := NodeValue(b)]] else []
  }

  lemma BothAnalyze(p: Pushable, q: Pushable)
    requires p.op.EQ? && q.op.EQ?
    ensures Analyze(And(Rebuilt(p), Rebuilt(q))) == Analysis([p, q], None)
    ensures Best([p, q]) == 0 && BesidesBest([p, q]) == [q]
  {
    RebuiltAnalyzes(p);
    RebuiltAnalyzes(q);
    assert [p] + [q] == [p, q];
    BestIs([p, q], 0);
  }

  lemma ExpandedOne(env: Env, n: Node, b: Node)
    ensures Rows(env, Each(ToB(b), NodeScan("a", [n]))) == [Row("a", n)["b" := NodeValue(b)]]
  {
    var f, rows := ToB(b), ScanRows("a", [n]);
    ScanOne("a", n);
    assert rows[1..] == [];
    assert FlatMap(f, rows) == f(Row("a", n)) + FlatMap(f, []);
  }

  lemma ExpandedPasses(env: Env, n: Node, b: Node)
    requires Lookup(n.properties, "x") == Some(Int(1)) && Lookup(b.properties, "y") == Some(Int(2))
    ensures Passes(env, And(Compared("a", "x", EQ, 1), Compared("b", "y", EQ, 2)), Row("a", n)["b" := NodeValue(b)])
  {
    var row := Row("a", n)["b" := NodeValue(b)];
    ComparedPasses(env, "a", "x", EQ, 1, row);
    ComparedPasses(env, "b", "y", EQ, 2, row);
    AndPasses(env, Compared("a", "x", EQ, 1), Compared("b", "y", EQ, 2), row);
  }

  /** No row comes out, although the one edge leads from a node with x = 1 to one with y = 2. */
  lemma {:induction false} ExpansionLosesRows(env: Env, find: Finder, b: Node)
    requires Unbound(env, "b") && Lookup(b.properties, "y") == Some(Int(2))
    ensures var plan := Each(ToB(b), NodeScan("a", [WithX(7, 1)]));
            var e := And(Compared("a", "x", EQ, 1), Compared("b", "y", EQ, 2));
            Rows(env, Where(find, plan, e)) == [] && !Kept(env, find, plan, e)
  {
    var n := WithX(7, 1);
    var plan, e := Each(ToB(b), NodeScan("a", [n])), And(Compared("a", "x", EQ, 1), Compared("b", "y", EQ, 2));
    var p, q := Pushable("a", "x", EQ, Int(1)), Pushable("b", "y", EQ, Int(2));
    BothAnalyze(p, q);
    UnboundYieldsNothing(env, find, plan, e, q);
    ExpandedOne(env, n, b);
    ExpandedPasses(env, n, b);
    assert Passes(env, e, Rows(env, plan)[0]);
  }
}
