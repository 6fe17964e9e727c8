/** The plan that `ApplyPredicatePushdown` and the WHERE step build, src/cypher/execution_plan.cc, and the rows it
    yields. */
module PushdownPlan {
  import opened Decimal
  import opened Expressions
  import opened Pushdown
  import opened RowLists
  import opened Tokens
  import opened ValueOrder
  import opened Values
  import opened Wrappers

  // ---------------------------------------------------------------- an index predicate against the evaluator

  /** `IndexScan::MatchesPredicate`: the operators of values, and false for a missing property. */
  predicate Matches(op: Op, found: Option<Value>, literal: Value) {
    found.Some? &&
    match op
    case EQ => Eq(found.value, literal)
    case NE => !Eq(found.value, literal)
    case LT => Lt(found.value, literal)
    case GT => Lt(literal, found.value)
    case LE => !Lt(literal, found.value)
    case GE => !Lt(found.value, literal)
  }

  predicate Agrees(env: Env, op: Op, found: Option<Value>, literal: Value) {
    Matches(op, found, literal) <==> Compare(env, op, OrNull(found), literal) == Some(Bool(true))
  }

  /** Both signs satisfy the operator, or neither does. */
  predicate SameUnder(op: Op, c: int, s: int) { Holds(op, c) <==> Holds(op, s) }

  /** The sign of the kinds: kinds are ordered as they are enumerated. */
  function RankSign(v: Value, literal: Value): int { if Rank(v) < Rank(literal) then -1 else 1 }

  predicate OneScalar(v: Value, literal: Value) { Rank(v) == Rank(literal) && (v.Int? || v.Str? || v.Bool?) }

  /** When scan and evaluator agree on two present values of which at least one is a float. */
  predicate FloatAgrees(env: Env, op: Op, v: Value, literal: Value) {
    if v.Float? && literal.Float? then op !in {EQ, NE} || (!v.f.NaN? && !literal.f.NaN?)
    else if v.Int? && literal.Float? then SameUnder(op, FloatCmp(env.toDouble(v.i), literal.f), -1)
    else if v.Float? && literal.Int? then SameUnder(op, FloatCmp(v.f, env.toDouble(literal.i)), 1)
    else !Holds(op, RankSign(v, literal))
  }

  /** When they agree on two present values without a float: numbers, strings and booleans always; values of two kinds
      where their texts are ordered as their kinds; other values of one kind where their texts are ordered as they
      are. */
  predicate OtherAgrees(env: Env, op: Op, v: Value, literal: Value) {
    var c := CmpText(env.toText(v), env.toText(literal));
    if OneScalar(v, literal) then true
    else if Rank(v) != Rank(literal) then SameUnder(op, c, RankSign(v, literal))
    else
      match op
      case EQ => c == 0 <==> Eq(v, literal)
      case NE => c == 0 <==> Eq(v, literal)
      case LT => c < 0 <==> Lt(v, literal)
      case GT => c > 0 <==> Lt(literal, v)
      case LE => c > 0 <==> Lt(literal, v)
      case GE => c < 0 <==> Lt(v, literal)
  }

  /** When they agree, by what is stored and the literal: a missing property passes the evaluator's `<>` and no scan;
      null is the least value for the scan and unknown for the evaluator. */
  predicate AgreesWhen(env: Env, op: Op, found: Option<Value>, literal: Value) {
    if found.None? then !op.NE?
    else
      var v := found.value;
      if v.Null? && literal.Null? then op in {LT, GT}
      else if v.Null? then op !in {LT, LE}
      else if literal.Null? then op !in {GT, GE}
      else if v.Float? || literal.Float? then FloatAgrees(env, op, v, literal)
      else OtherAgrees(env, op, v, literal)
  }

  lemma {:induction false} KindsApart(op: Op, v: Value, literal: Value)
    requires Rank(v) != Rank(literal)
    ensures Matches(op, Some(v), literal) <==> Holds(op, RankSign(v, literal))
  {
    LtByRank(v, literal);
    LtByRank(literal, v);
  }

  lemma {:induction false} NullsAgree(env: Env, op: Op, v: Value, literal: Value)
    requires v.Null? || literal.Null?
    ensures Agrees(env, op, Some(v), literal) <==> AgreesWhen(env, op, Some(v), literal)
  {
    if Rank(v) != Rank(literal) { KindsApart(op, v, literal); }
  }

  lemma {:induction false} FloatsAgree(env: Env, op: Op, v: Value, literal: Value)
    requires (v.Float? || literal.Float?) && !v.Null? && !literal.Null?
    ensures Agrees(env, op, Some(v), literal) <==> FloatAgrees(env, op, v, literal)
  {
    if Rank(v) != Rank(literal) { KindsApart(op, v, literal); }
  }

  lemma {:induction false} OthersAgree(env: Env, op: Op, v: Value, literal: Value)
    requires !v.Float? && !literal.Float? && !v.Null? && !literal.Null?
    ensures Agrees(env, op, Some(v), literal) <==> OtherAgrees(env, op, v, literal)
  {
    if Rank(v) != Rank(literal) {
      KindsApart(op, v, literal);
    } else if v.Str? {
      BeforeTotal(v.s, literal.s);
    }
  }

  /** For every operator, stored value and literal: the scan decides as the evaluator does exactly then. */
  lemma {:induction false} AgreesExactly(env: Env, op: Op, found: Option<Value>, literal: Value)
    ensures Agrees(env, op, found, literal) <==> AgreesWhen(env, op, found, literal)
  {
    if found.Some? {
      var v := found.value;
      if v.Null? || literal.Null? {
        NullsAgree(env, op, v, literal);
      } else if v.Float? || literal.Float? {
        FloatsAgree(env, op, v, literal);
      } else {
        OthersAgree(env, op, v, literal);
      }
    }
  }

  // ---------------------------------------------------------------- rows

  /** What `IndexScan::Init` comes to: the nodes to go through, and whether an index gave them; then the scan checks
      nothing. */
  datatype Found = Found(nodes: seq<Node>, used: bool)

  type Finder = Pushable -> Found

  /** The first operators of a plan. `Each` is any operator that turns each row of its child into some rows; `Source` is
      a leaf that is no scan of this kind. A pattern with a label is an `IndexScan` from the start, on no property. */
  datatype Plan =
    | NodeScan(variable: string, nodes: seq<Node>)
    | IndexScan(predicate_: Pushable, found: Found)
    | Filtered(condition: Expr, child: Plan)
    | Each(step: Record -> seq<Record>, child: Plan)
    | Source(rows: seq<Record>)

  function Row(variable: string, n: Node): Record { map[variable := NodeValue(n)] }

  function ScanRows(variable: string, nodes: seq<Node>): seq<Record> {
    if nodes == [] then [] else [Row(variable, nodes[0])] + ScanRows(variable, nodes[1..])
  }

  predicate NodeMatches(p: Pushable, n: Node) { Matches(p.op, Lookup(n.properties, p.property), p.literal) }

  function Matching(p: Pushable, nodes: seq<Node>): seq<Node> {
    if nodes == [] then [] else (if NodeMatches(p, nodes[0]) then [nodes[0]] else []) + Matching(p, nodes[1..])
  }

  /** The nodes an index scan yields. */
  function Emitted(p: Pushable, found: Found): seq<Node> {
    if found.used then found.nodes else Matching(p, found.nodes)
  }

  function Passing(env: Env, e: Expr): Record -> bool { row => Passes(env, e, row) }

  /** The rows a plan yields; a row whose condition throws is not one of them. */
  function Rows(env: Env, plan: Plan): seq<Record> {
    match plan
    case NodeScan(v, nodes) => ScanRows(v, nodes)
    case IndexScan(p, found) => ScanRows(p.variable, Emitted(p, found))
    case Filtered(e, child) => Keep(Passing(env, e), Rows(env, child))
    case Each(f, child) => FlatMap(f, Rows(env, child))
    case Source(rows) => rows
  }

  function WithFilter(e: Option<Expr>, plan: Plan): Plan { if e.Some? then Filtered(e.value, plan) else plan }

  /** `ApplyPredicatePushdown`: whatever the scan was of, it becomes an index scan of the best predicate. */
  function Push(find: Finder, plan: Plan, ps: seq<Pushable>): Plan {
    if ps == [] then plan
    else
      match plan
      case NodeScan(_, _) =>
        var best := Best(ps);
        WithFilter(Chain(Others(ps, best)), IndexScan(ps[best], find(ps[best])))
      case Filtered(e, child) => Filtered(e, Push(find, child, ps))
      case Each(f, child) => Each(f, Push(find, child, ps))
      case _ => plan
  }

  /** The WHERE step of the plan builder. */
  function Where(find: Finder, plan: Plan, e: Expr): Plan {
    WithFilter(Analyze(e).remaining, Push(find, plan, Analyze(e).pushable))
  }

  // ---------------------------------------------------------------- a chain over any rows

  /** The operators of a plan above its leaf, over given rows. */
  function Over(env: Env, plan: Plan, rows: seq<Record>): seq<Record> {
    match plan
    case Filtered(e, child) => Keep(Passing(env, e), Over(env, child, rows))
    case Each(f, child) => FlatMap(f, Over(env, child, rows))
    case _ => rows
  }

  function Leaf(plan: Plan): Plan {
    match plan
    case Filtered(_, child) => Leaf(child)
    case Each(_, child) => Leaf(child)
    case _ => plan
  }

  lemma {:induction false} RowsAreOver(env: Env, plan: Plan)
    ensures Rows(env, plan) == Over(env, plan, Rows(env, Leaf(plan)))
  {
    if plan.Filtered? || plan.Each? { RowsAreOver(env, plan.child); }
  }

  function AllPassing(env: Env, ps: seq<Pushable>): Record -> bool { row => AllPass(env, ps, row) }

  function RestPassing(env: Env, e: Option<Expr>): Record -> bool { row => RestPasses(env, e, row) }

  function BestOf(ps: seq<Pushable>): Pushable
    requires ps != []
  {
    ps[Best(ps)]
  }

  function BesidesBest(ps: seq<Pushable>): seq<Pushable>
    requires ps != []
  {
    Others(ps, Best(ps))
  }

  /** The rows that take the place of a scan. */
  function Swapped(env: Env, find: Finder, ps: seq<Pushable>): seq<Record>
    requires ps != []
  {
    Keep(AllPassing(env, BesidesBest(ps)), ScanRows(BestOf(ps).variable, Emitted(BestOf(ps), find(BestOf(ps)))))
  }

  lemma {:induction false} WithFilterRows(env: Env, e: Option<Expr>, plan: Plan)
    ensures Rows(env, WithFilter(e, plan)) == Keep(RestPassing(env, e), Rows(env, plan))
  {
    if e.Some? {
      KeepSame(RestPassing(env, e), Passing(env, e.value), Rows(env, plan));
    } else {
      KeepEverything(RestPassing(env, e), Rows(env, plan));
    }
  }

  lemma {:induction false} ChainKeeps(env: Env, ps: seq<Pushable>, rows: seq<Record>)
    ensures Keep(RestPassing(env, Chain(ps)), rows) == Keep(AllPassing(env, ps), rows)
  {
    forall row: Record
      ensures RestPassing(env, Chain(ps))(row) <==> AllPassing(env, ps)(row)
    {
      ChainPasses(env, ps, row);
    }
    KeepSame(RestPassing(env, Chain(ps)), AllPassing(env, ps), rows);
  }

  /** The pushed-down plan is the same chain over other rows, if its leaf is a scan, and else the same plan. */
  lemma {:induction false} PushedRows(env: Env, find: Finder, plan: Plan, ps: seq<Pushable>)
    requires ps != []
    ensures Rows(env, Push(find, plan, ps)) ==
            if Leaf(plan).NodeScan? then Over(env, plan, Swapped(env, find, ps)) else Rows(env, plan)
  {
    match plan
    case Filtered(_, child) => PushedRows(env, find, child, ps);
    case Each(_, child) => PushedRows(env, find, child, ps);
    case NodeScan(_, _) =>
      var scan := IndexScan(BestOf(ps), find(BestOf(ps)));
      WithFilterRows(env, Chain(BesidesBest(ps)), scan);
      ChainKeeps(env, BesidesBest(ps), Rows(env, scan));
    case _ =>
  }

  // ---------------------------------------------------------------- moving a condition down a chain

  /** Every row binds v, and to what it was bound below. */
  ghost predicate Keeps(f: Record -> seq<Record>, v: string) {
    forall row: Record, i: nat :: v in row && i < |f(row)| ==> v in f(row)[i] && f(row)[i][v] == row[v]
  }

  ghost predicate Carries(plan: Plan, v: string) {
    match plan
    case Filtered(_, child) => Carries(child, v)
    case Each(f, child) => Keeps(f, v) && Carries(child, v)
    case _ => true
  }

  /** A chain of row operators that keep v, over a scan of v. */
  ghost predicate OverScan(plan: Plan, v: string) {
    Carries(plan, v) && Leaf(plan).NodeScan? && Leaf(plan).variable == v
  }

  function Scanned(plan: Plan): seq<Node> { if Leaf(plan).NodeScan? then Leaf(plan).nodes else [] }

  /** Every row binds v to a node. */
  ghost predicate Bind(rows: seq<Record>, v: string) {
    forall i :: 0 <= i < |rows| ==> v in rows[i] && rows[i][v].NodeValue?
  }

  /** p looks at a row only through its binding of v. */
  ghost predicate Through(p: Record -> bool, v: string) {
    forall a: Record, b: Record :: v in a && v in b && a[v] == b[v] ==> (p(a) <==> p(b))
  }

  lemma {:induction false} KeepAllOrNone(p: Record -> bool, v: string, row: Record, rows: seq<Record>)
    requires Through(p, v) && v in row && forall i :: 0 <= i < |rows| ==> v in rows[i] && rows[i][v] == row[v]
    ensures Keep(p, rows) == if p(row) then rows else []
    decreases |rows|
  {
    if rows != [] {
      assert p(rows[0]) <==> p(row);
      KeepAllOrNone(p, v, row, rows[1..]);
    }
  }

  /** A predicate on v moves below an operator that keeps v. */
  lemma {:induction false} KeepBelow(p: Record -> bool, f: Record -> seq<Record>, v: string, rows: seq<Record>)
    requires Through(p, v) && Keeps(f, v) && Bind(rows, v)
    ensures FlatMap(f, Keep(p, rows)) == Keep(p, FlatMap(f, rows))
    decreases |rows|
  {
    if rows != [] {
      KeepBelow(p, f, v, rows[1..]);
      KeepAllOrNone(p, v, rows[0], f(rows[0]));
      KeepConcat(p, f(rows[0]), FlatMap(f, rows[1..]));
      if p(rows[0]) {
        assert ([rows[0]] + Keep(p, rows[1..]))[1..] == Keep(p, rows[1..]);
      } else {
        assert [] + Keep(p, rows[1..]) == Keep(p, rows[1..]);
      }
    }
  }

  lemma {:induction false} FlatMapBinds(f: Record -> seq<Record>, v: string, rows: seq<Record>)
    requires Keeps(f, v) && Bind(rows, v)
    ensures Bind(FlatMap(f, rows), v)
    decreases |rows|
  {
    if rows != [] { FlatMapBinds(f, v, rows[1..]); }
  }

  lemma {:induction false} KeepBinds(p: Record -> bool, v: string, rows: seq<Record>)
    requires Bind(rows, v)
    ensures Bind(Keep(p, rows), v)
    decreases |rows|
  {
    if rows != [] { KeepBinds(p, v, rows[1..]); }
  }

  lemma {:induction false} ScanBinds(v: string, nodes: seq<Node>)
    ensures Bind(ScanRows(v, nodes), v)
    decreases |nodes|
  {
    if nodes != [] { ScanBinds(v, nodes[1..]); }
  }

  lemma {:induction false} OverBinds(env: Env, plan: Plan, v: string, rows: seq<Record>)
    requires Carries(plan, v) && Bind(rows, v)
    ensures Bind(Over(env, plan, rows), v)
  {
    match plan
    case Filtered(e, child) =>
      OverBinds(env, child, v, rows);
      KeepBinds(Passing(env, e), v, Over(env, child, rows));
    case Each(f, child) =>
      OverBinds(env, child, v, rows);
      FlatMapBinds(f, v, Over(env, child, rows));
    case _ =>
  }

  /** A condition on v can be asked at the leaf or at the top of a chain that carries v. */
  lemma {:induction false} OverKeeps(env: Env, plan: Plan, v: string, p: Record -> bool, rows: seq<Record>)
    requires Carries(plan, v) && Bind(rows, v) && Through(p, v)
    ensures Over(env, plan, Keep(p, rows)) == Keep(p, Over(env, plan, rows))
  {
    match plan
    case Filtered(e, child) =>
      OverKeeps(env, child, v, p, rows);
      var q := Passing(env, e);
      KeepBoth(p, q, (row: Record) => p(row) && q(row), Over(env, child, rows));
    case Each(f, child) =>
      OverKeeps(env, child, v, p, rows);
      OverBinds(env, child, v, rows);
      KeepBelow(p, f, v, Over(env, child, rows));
    case _ =>
  }
}
