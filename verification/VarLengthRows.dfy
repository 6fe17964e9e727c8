/** The variable-length operator of src/cypher/execution_plan.cc: the rows that the bounded search makes of its child's
    rows. */
module VarLengthRows {
  import opened Expressions
  import opened Operators
  import opened RowLists
  import opened Values
  import opened Wrappers
  import G = VarExpand

  datatype Walk = Walk(from: string, rel: string, to: string, kind: Option<string>, graph: G.Graph, bounds: G.Bounds)

  /** The row extended by the last relationship of a walk and the node it leads to. */
  function RowOf(w: Walk, row: Record, h: G.Hop): Record {
    var kind := if w.kind.Some? then w.kind.value else "CONNECTED_TO";
    row[w.rel := RelValue(Relationship(h.rel, h.from, h.to, kind, []))]
       [w.to := NodeValue(Node(h.to, ["Node"], [Entry("id", Int(h.to))]))]
  }

  function RowsOf(w: Walk, row: Record, hops: seq<G.Hop>): (rows: seq<Record>)
    ensures |rows| == |hops|
    ensures forall i :: 0 <= i < |hops| ==> rows[i] == RowOf(w, row, hops[i])
  {
    seq(|hops|, i requires 0 <= i < |hops| => RowOf(w, row, hops[i]))
  }

  /** The expansion from the node of a row, and nothing from a row without one. */
  function Walked(w: Walk): Record -> seq<Record> {
    (row: Record) =>
      if w.from in row && row[w.from].NodeValue? then RowsOf(w, row,
          G.Expansion(w.graph, row[w.from].node.id, w.bounds)) else []
  }

  /** `ExpandCurrentRecord`: the search runs and its hops become rows. */
  method ExpandRecord(w: Walk, row: Record) returns (rows: seq<Record>)
    ensures rows == Walked(w)(row)
  {
    if !(w.from in row && row[w.from].NodeValue?) { return []; }
    var hops := G.Expand(w.graph, row[w.from].node.id, w.bounds);
    rows := RowsOf(w, row, hops);
  }

  /** Draining the operator yields, row by row of its child, the expansion of that row. */
  method DrainWalk(w: Walk, child: Operator) returns (rows: seq<Record>)
    requires child.Valid()
    modifies child.Repr
    ensures rows == FlatMap(Walked(w), old(child.Contents()))
  {
    var op := new Operator.Above(Spread(Walked(w)), child);
    rows := Drain(op);
  }

  /** Every vertex other than the start whose distance from it is within the limits is on some row of the walk, behind
      an edge that leads to it. */
  lemma WalkReaches(w: Walk, row: Record, v: nat, k: nat) returns (h: G.Hop)
    requires w.from in row && row[w.from].NodeValue?
    requires v in G.AtDistance(w.graph, row[w.from].node.id, k) && 1 <= k && w.bounds.min <= k <= w.bounds.max
    ensures h.to == v && G.IsEdge(w.graph, h) && RowOf(w, row, h) in Walked(w)(row)
  {
    var start := row[w.from].node.id;
    h := G.ExpansionComplete(w.graph, start, w.bounds, v, k);
    G.ExpansionSound(w.graph, start, w.bounds, h);
    var hops := G.Expansion(w.graph, start, w.bounds);
    var i :| 0 <= i < |hops| && hops[i] == h;
    assert RowsOf(w, row, hops)[i] == RowOf(w, row, h);
  }

  /** And no row of the walk holds anything else: it ends in an edge to a vertex that a walk within the limits
      reaches. */
  lemma WalkSound(w: Walk, row: Record, r: Record) returns (h: G.Hop)
    requires w.from in row && row[w.from].NodeValue? && r in Walked(w)(row)
    ensures r == RowOf(w, row, h) && G.IsEdge(w.graph, h) && w.bounds.min <= h.depth <= w.bounds.max
    ensures h.to in G.Reach(w.graph, row[w.from].node.id, h.depth)
  {
    var hops := G.Expansion(w.graph, row[w.from].node.id, w.bounds);
    var i :| 0 <= i < |hops| && RowsOf(w, row, hops)[i] == r;
    h := hops[i];
    G.ExpansionSound(w.graph, row[w.from].node.id, w.bounds, h);
  }
}
