/** When a plan with its WHERE pushed down, src/cypher/execution_plan.cc, yields the rows that pass the WHERE: exact
    conditions for chains of operators over any leaf. */
module PushdownExactly {
  import opened Expressions
  import opened Pushdown
  import opened PushdownPlan
  import opened RowLists
  import opened Values
  import opened Wrappers

  /** The pushed-down plan yields the rows of the plan that pass, in order. */
  ghost predicate Kept(env: Env, find: Finder, plan: Plan, e: Expr) {
    Rows(env, Where(find, plan, e)) == Keep(Passing(env, e), Rows(env, plan))
  }

  lemma {:induction false} WhereRows(env: Env, find: Finder, plan: Plan, e: Expr)
    ensures Rows(env, Where(find, plan, e)) ==
            Keep(RestPassing(env, Analyze(e).remaining), Rows(env, Push(find, plan, Analyze(e).pushable)))
  {
    WithFilterRows(env, Analyze(e).remaining, Push(find, plan, Analyze(e).pushable));
  }

  // ---------------------------------------------------------------- a leaf that is no node scan

  /** Over any other leaf the pushed predicates are lost, so the rows are kept exactly if every row that passes the rest
      of the WHERE passes them anyway. */
  lemma {:induction false} OtherLeafExactly(env: Env, find: Finder, plan: Plan, e: Expr)
    requires !Leaf(plan).NodeScan?
    ensures Kept(env, find, plan, e) <==>
            forall i :: 0 <= i < |Rows(env, plan)| && RestPasses(env, Analyze(e).remaining, Rows(env, plan)[i]) ==>
              AllPass(env, Analyze(e).pushable, Rows(env, plan)[i])
  {
    var rows, ps := Rows(env, plan), Analyze(e).pushable;
    WhereRows(env, find, plan, e);
    if ps != [] { PushedRows(env, find, plan, ps); }
    KeepsSameRows(RestPassing(env, Analyze(e).remaining), Passing(env, e), rows);
    forall i | 0 <= i < |rows|
      ensures Passes(env, e, rows[i]) <==> SplitPasses(env, Analyze(e), rows[i])
    {
      SplitKeepsMeaning(env, e, rows[i]);
    }
  }

  // ---------------------------------------------------------------- a scan that yields some of the scanned nodes

  /** The nodes of a list that are among others, in their order. */
  function Those(nodes: seq<Node>, among: seq<Node>): seq<Node> {
    if nodes == [] then [] else (if nodes[0] in among then [nodes[0]] else []) + Those(nodes[1..], among)
  }

  predicate IsFrom(v: string, among: seq<Node>, row: Record) { v in row && row[v].NodeValue? && row[v].node in among }

  function FromThose(v: string, among: seq<Node>): Record -> bool { row => IsFrom(v, among, row) }

  /** The node of the row is yielded by the index scan, and the other predicates hold of the node alone. */
  predicate IsSent(env: Env, v: string, among: seq<Node>, others: seq<Pushable>, row: Record) {
    IsFrom(v, among, row) && AllPass(env, others, Row(v, row[v].node))
  }

  function Sent(env: Env, v: string, among: seq<Node>, others: seq<Pushable>): Record -> bool {
    row => IsSent(env, v, among, others, row)
  }

  lemma {:induction false} ScanRowsAt(v: string, nodes: seq<Node>, i: nat)
    requires i < |nodes|
    ensures |ScanRows(v, nodes)| == |nodes| && ScanRows(v, nodes)[i] == Row(v, nodes[i])
    decreases |nodes|
  {
    if |nodes| > 1 { ScanRowsAt(v, nodes[1..], if i == 0 then 0 else i - 1); }
  }

  lemma {:induction false} ThoseRows(v: string, nodes: seq<Node>, among: seq<Node>)
    ensures ScanRows(v, Those(nodes, among)) == Keep(FromThose(v, among), ScanRows(v, nodes))
    decreases |nodes|
  {
    if nodes != [] {
      ThoseRows(v, nodes[1..], among);
      KeepFirst(FromThose(v, among), Row(v, nodes[0]), ScanRows(v, nodes[1..]));
      if nodes[0] in among {
        assert ([nodes[0]] + Those(nodes[1..], among))[1..] == Those(nodes[1..], among);
      } else {
        assert [] + Those(nodes[1..], among) == Those(nodes[1..], among);
        assert [] + ScanRows(v, Those(nodes[1..], among)) == ScanRows(v, Those(nodes[1..], among));
      }
    }
  }

  lemma SameOnScan(env: Env, v: string, nodes: seq<Node>, among: seq<Node>, others: seq<Pushable>, p: Record -> bool)
    requires forall row :: p(row) <==> IsFrom(v, among, row) && AllPass(env, others, row)
    ensures Keep(p, ScanRows(v, nodes)) == Keep(Sent(env, v, among, others), ScanRows(v, nodes))
  {
    var rows := ScanRows(v, nodes);
    KeepsSameRows(p, Sent(env, v, among, others), rows);
    if nodes != [] { ScanRowsAt(v, nodes, 0); }
    forall i | 0 <= i < |rows|
      ensures p(rows[i]) <==> IsSent(env, v, among, others, rows[i])
    {
      ScanRowsAt(v, nodes, i);
    }
  }

  lemma {:induction false} SwappedIsSent(env: Env, v: string, nodes: seq<Node>, among: seq<Node>, others: seq<Pushable>)
    requires among == Those(nodes, among)
    ensures Keep(AllPassing(env, others), ScanRows(v, among)) == Keep(Sent(env, v, among, others), ScanRows(v, nodes))
  {
    var p, q := FromThose(v, among), AllPassing(env, others);
    var r := (row: Record) => p(row) && q(row);
    ThoseRows(v, nodes, among);
    KeepBoth(p, q, r, ScanRows(v, nodes));
    SameOnScan(env, v, nodes, among, others, r);
  }

  lemma SentThrough(env: Env, v: string, among: seq<Node>, others: seq<Pushable>)
    ensures Through(Sent(env, v, among, others), v)
  {
    var p := Sent(env, v, among, others);
    forall a: Record, b: Record | v in a && v in b && a[v] == b[v]
      ensures p(a) <==> p(b)
    {
      if a[v].NodeValue? { assert Row(v, a[v].node) == Row(v, b[v].node); }
    }
  }

  /** The rows of the pushed-down plan are rows of the plan: those that are sent and pass the rest. */
  lemma {:induction false} SentRows(env: Env, find: Finder, plan: Plan, v: string, e: Expr, among: seq<Node>)
    requires OverScan(plan, v) && Analyze(e).pushable != [] && BestOf(Analyze(e).pushable).variable == v
    requires among == Emitted(BestOf(Analyze(e).pushable), find(BestOf(Analyze(e).pushable)))
    requires among == Those(Scanned(plan), among)
    ensures Rows(env, Where(find, plan, e)) ==
            Keep(RestPassing(env, Analyze(e).remaining),
                 Keep(Sent(env, v, among, BesidesBest(Analyze(e).pushable)), Rows(env, plan)))
  {
    var ps := Analyze(e).pushable;
    var sent, rows := Sent(env, v, among, BesidesBest(ps)), ScanRows(v, Scanned(plan));
    WhereRows(env, find, plan, e);
    PushedRows(env, find, plan, ps);
    SwappedIsSent(env, v, Scanned(plan), among, BesidesBest(ps));
    ScanBinds(v, Scanned(plan));
    SentThrough(env, v, among, BesidesBest(ps));
    OverKeeps(env, plan, v, sent, rows);
    RowsAreOver(env, plan);
  }

  /** Over a scan of v, if the index scan of a predicate on v yields some of the scanned nodes in their order: the rows
      are kept if and only if a row that passes the rest of the WHERE passes all pushed predicates exactly when its node
      was yielded and the other predicates hold of the node alone. */
  lemma {:induction false} SublistExactly(env: Env, find: Finder, plan: Plan, v: string, e: Expr, among: seq<Node>)
    requires OverScan(plan, v) && Analyze(e).pushable != [] && BestOf(Analyze(e).pushable).variable == v
    requires among == Emitted(BestOf(Analyze(e).pushable), find(BestOf(Analyze(e).pushable)))
    requires among == Those(Scanned(plan), among)
    ensures Kept(env, find, plan, e) <==>
            forall i :: 0 <= i < |Rows(env, plan)| && RestPasses(env, Analyze(e).remaining, Rows(env, plan)[i]) ==>
              (AllPass(env, Analyze(e).pushable, Rows(env, plan)[i]) <==>
               IsSent(env, v, among, BesidesBest(Analyze(e).pushable), Rows(env, plan)[i]))
  {
    var ps, rows := Analyze(e).pushable, Rows(env, plan);
    var sent, rest := Sent(env, v, among, BesidesBest(ps)), RestPassing(env, Analyze(e).remaining);
    SentRows(env, find, plan, v, e, among);
    var both := (row: Record) => sent(row) && rest(row);
    KeepBoth(sent, rest, both, rows);
    KeepsSameRows(both, Passing(env, e), rows);
    forall i | 0 <= i < |rows|
      ensures Passes(env, e, rows[i]) <==> SplitPasses(env, Analyze(e), rows[i])
    {
      SplitKeepsMeaning(env, e, rows[i]);
    }
  }

  // ---------------------------------------------------------------- a scan without an index

  lemma {:induction false} MatchingMembers(p: Pushable, nodes: seq<Node>, n: Node)
    ensures n in Matching(p, nodes) <==> n in nodes && NodeMatches(p, n)
    decreases |nodes|
  {
    if nodes != [] { MatchingMembers(p, nodes[1..], n); }
  }

  lemma {:induction false} ThoseMatch(p: Pushable, nodes: seq<Node>, among: seq<Node>)
    requires forall n :: n in nodes ==> (n in among <==> NodeMatches(p, n))
    ensures Those(nodes, among) == Matching(p, nodes)
    decreases |nodes|
  {
    if nodes != [] {
      assert nodes[0] in nodes && forall n :: n in nodes[1..] ==> n in nodes;
      ThoseMatch(p, nodes[1..], among);
    }
  }

  lemma MatchingIsSublist(p: Pushable, nodes: seq<Node>)
    ensures Matching(p, nodes) == Those(nodes, Matching(p, nodes))
  {
    forall n | n in nodes
      ensures n in Matching(p, nodes) <==> NodeMatches(p, n)
    {
      MatchingMembers(p, nodes, n);
    }
    ThoseMatch(p, nodes, Matching(p, nodes));
  }

  lemma {:induction false} ThoseAll(nodes: seq<Node>, among: seq<Node>)
    requires forall n :: n in nodes ==> n in among
    ensures Those(nodes, among) == nodes
    decreases |nodes|
  {
    if nodes != [] {
      assert nodes[0] in nodes && forall n :: n in nodes[1..] ==> n in nodes;
      ThoseAll(nodes[1..], among);
    }
  }

  /** Every row of a chain over a scan of v has a scanned node under v. */
  lemma {:induction false} RowsHaveNodes(env: Env, plan: Plan, v: string, i: nat)
    requires OverScan(plan, v) && i < |Rows(env, plan)|
    ensures IsFrom(v, Scanned(plan), Rows(env, plan)[i])
  {
    var p, scan := FromThose(v, Scanned(plan)), ScanRows(v, Scanned(plan));
    ThoseAll(Scanned(plan), Scanned(plan));
    ThoseRows(v, Scanned(plan), Scanned(plan));
    ScanBinds(v, Scanned(plan));
    OverKeeps(env, plan, v, p, scan);
    RowsAreOver(env, plan);
    KeepMembers(p, Rows(env, plan), Rows(env, plan)[i]);
  }

  ghost predicate AllOn(ps: seq<Pushable>, v: string) { forall i :: 0 <= i < |ps| ==> ps[i].variable == v }

  lemma OneThrough(env: Env, p: Pushable, a: Record, b: Record)
    requires p.variable in a && p.variable in b && a[p.variable] == b[p.variable]
    ensures Passes(env, Rebuilt(p), a) <==> Passes(env, Rebuilt(p), b)
  {
    RebuiltEvaluates(env, p, a);
    RebuiltEvaluates(env, p, b);
  }

  lemma AllThrough(env: Env, ps: seq<Pushable>, v: string, a: Record, b: Record)
    requires AllOn(ps, v) && v in a && v in b && a[v] == b[v]
    ensures AllPass(env, ps, a) <==> AllPass(env, ps, b)
  {
    forall i | 0 <= i < |ps|
      ensures Passes(env, Rebuilt(ps[i]), a) <==> Passes(env, Rebuilt(ps[i]), b)
    {
      OneThrough(env, ps[i], a, b);
    }
  }

  lemma BesidesOn(ps: seq<Pushable>, v: string)
    requires ps != [] && AllOn(ps, v)
    ensures AllOn(BesidesBest(ps), v) && BestOf(ps).variable == v
  {
  }

  /** The conditions besides the one given to the scan. */
  predicate OthersPass(env: Env, e: Expr, row: Record) {
    var ps := Analyze(e).pushable;
    ps != [] && AllPass(env, BesidesBest(ps), row) && RestPasses(env, Analyze(e).remaining, row)
  }

  /** What is stored under the property of the best predicate in the node of a row. */
  function Stored(e: Expr, v: string, row: Record): Option<Value> {
    var ps := Analyze(e).pushable;
    if ps != [] && v in row && row[v].NodeValue? then Lookup(row[v].node.properties, BestOf(ps).property) else None
  }

  lemma BestPasses(env: Env, p: Pushable, row: Record)
    requires p.variable in row && row[p.variable].NodeValue?
    ensures var found := Lookup(row[p.variable].node.properties, p.property);
            (NodeMatches(p, row[p.variable].node) <==> Passes(env, Rebuilt(p), row)) <==>
            AgreesWhen(env, p.op, found, p.literal)
  {
    RebuiltEvaluates(env, p, row);
    AgreesExactly(env, p.op, Lookup(row[p.variable].node.properties, p.property), p.literal);
  }

  /** For one row: what the exact condition above comes to when all predicates are on v. */
  lemma {:induction false} RowExactly(env: Env, e: Expr, v: string, row: Record, among: seq<Node>)
    requires var ps := Analyze(e).pushable;
             ps != [] && AllOn(ps, v) && v in row && row[v].NodeValue? &&
             (row[v].node in among <==> NodeMatches(BestOf(ps), row[v].node))
    ensures var ps := Analyze(e).pushable;
            (AllPass(env, ps, row) <==> IsSent(env, v, among, BesidesBest(ps), row)) <==>
            (AllPass(env, BesidesBest(ps), row) ==>
               AgreesWhen(env, BestOf(ps).op, Stored(e, v, row), BestOf(ps).literal))
  {
    var ps := Analyze(e).pushable;
    BesidesOn(ps, v);
    AllThrough(env, BesidesBest(ps), v, row, Row(v, row[v].node));
    RebuildKeepsAll(env, ps, Best(ps), row);
    ChainPasses(env, BesidesBest(ps), row);
    BestPasses(env, BestOf(ps), row);
    assert IsSent(env, v, among, BesidesBest(ps), row) <==>
           NodeMatches(BestOf(ps), row[v].node) && AllPass(env, BesidesBest(ps), row);
    assert AllPass(env, ps, row) <==> Passes(env, Rebuilt(BestOf(ps)), row) && AllPass(env, BesidesBest(ps), row);
    assert Stored(e, v, row) == Lookup(row[v].node.properties, BestOf(ps).property);
  }

  /** Over a chain on a scan of v, with predicates on v and no index: the rows are kept if and only if, for every row
      that passes all the other conditions, what its node holds under the pushed property is something on which scan and
      evaluator agree. */
  lemma {:induction false} WhereExactly(env: Env, find: Finder, plan: Plan, v: string, e: Expr)
    requires OverScan(plan, v) && Analyze(e).pushable != [] && AllOn(Analyze(e).pushable, v)
    requires find(BestOf(Analyze(e).pushable)) == Found(Scanned(plan), false)
    ensures Kept(env, find, plan, e) <==>
            forall i :: 0 <= i < |Rows(env, plan)| && OthersPass(env, e, Rows(env, plan)[i]) ==>
              AgreesWhen(env, BestOf(Analyze(e).pushable).op, Stored(e, v, Rows(env, plan)[i]),
                         BestOf(Analyze(e).pushable).literal)
  {
    var ps, rows := Analyze(e).pushable, Rows(env, plan);
    var among := Matching(BestOf(ps), Scanned(plan));
    BesidesOn(ps, v);
    MatchingIsSublist(BestOf(ps), Scanned(plan));
    SublistExactly(env, find, plan, v, e, among);
    forall i | 0 <= i < |rows|
      ensures (AllPass(env, ps, rows[i]) <==> IsSent(env, v, among, BesidesBest(ps), rows[i])) <==>
              (AllPass(env, BesidesBest(ps), rows[i]) ==>
                 AgreesWhen(env, BestOf(ps).op, Stored(e, v, rows[i]), BestOf(ps).literal))
    {
      RowsHaveNodes(env, plan, v, i);
      MatchingMembers(BestOf(ps), Scanned(plan), rows[i][v].node);
      RowExactly(env, e, v, rows[i], among);
    }
  }

  /** In particular if every scanned node holds something on which they agree. */
  lemma {:induction false} WhereKeepsRows(env: Env, find: Finder, plan: Plan, v: string, e: Expr)
    requires OverScan(plan, v) && Analyze(e).pushable != [] && AllOn(Analyze(e).pushable, v)
    requires find(BestOf(Analyze(e).pushable)) == Found(Scanned(plan), false)
    requires forall n :: n in Scanned(plan) ==>
               AgreesWhen(env, BestOf(Analyze(e).pushable).op,
                          Lookup(n.properties, BestOf(Analyze(e).pushable).property),
                          BestOf(Analyze(e).pushable).literal)
    ensures Kept(env, find, plan, e)
  {
    WhereExactly(env, find, plan, v, e);
    forall i | 0 <= i < |Rows(env, plan)|
      ensures IsFrom(v, Scanned(plan), Rows(env, plan)[i])
    {
      RowsHaveNodes(env, plan, v, i);
    }
  }
}
