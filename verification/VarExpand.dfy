/** Variable-length expansion of src/cypher/execution_plan.cc: a bounded breadth-first search with one queue. */
module VarExpand {

  /** The outgoing edges of every vertex: relationship and target. */
  type Graph = nat -> seq<(nat, nat)>

  /** An emitted row: the last edge of a walk and the length of the walk. */
  datatype Hop = Hop(rel: nat, from: nat, to: nat, depth: nat)

  /** The hop limits of the pattern. */
  datatype Bounds = Bounds(min: nat, max: nat)

  // ---------------------------------------------------------------- level by level

  /** What looking at edges yields: rows, vertices to go on from, and the vertices seen so far. */
  datatype Found = Found(hops: seq<Hop>, next: seq<nat>, visited: set<nat>)

  function Skipped(b: Bounds, depth: nat, visited: set<nat>, target: nat): bool {
    target in visited && depth + 1 < b.max
  }

  /** The edges of one vertex at a depth below the limit. */
  function Edges(edges: seq<(nat, nat)>, from: nat, depth: nat, b: Bounds, visited: set<nat>): Found {
    if edges == [] then Found([], [], visited)
    else
      var (rel, to) := edges[0];
      if Skipped(b, depth, visited, to) then Edges(edges[1..], from, depth, b, visited)
      else
        var deeper := depth + 1 < b.max;
        var rest := Edges(edges[1..], from, depth, b, if deeper then visited + {to} else visited);
        Found((if depth + 1 >= b.min then [Hop(rel, from, to, depth + 1)] else []) + rest.hops,
              (if deeper then [to] else []) + rest.next,
              rest.visited)
  }

  /** All vertices of one depth, in order. */
  function Level(g: Graph, nodes: seq<nat>, depth: nat, b: Bounds, visited: set<nat>): Found {
    if nodes == [] then Found([], [], visited)
    else
      var f := Edges(g(nodes[0]), nodes[0], depth, b, visited);
      var rest := Level(g, nodes[1..], depth, b, f.visited);
      Found(f.hops + rest.hops, f.next + rest.next, rest.visited)
  }

  /** Level after level up to the limit. */
  function Levels(g: Graph, nodes: seq<nat>, depth: nat, b: Bounds, visited: set<nat>): seq<Hop>
    decreases if depth < b.max then b.max - depth else 0
  {
    if depth >= b.max then []
    else
      var f := Level(g, nodes, depth, b, visited);
      f.hops + Levels(g, f.next, depth + 1, b, f.visited)
  }

  /** The rows of one start vertex. */
  function Expansion(g: Graph, start: nat, b: Bounds): seq<Hop> { Levels(g, [start], 0, b, {start}) }

  // ---------------------------------------------------------------- the queue

  datatype State = State(node: nat, depth: nat)

  /** Vertices at one depth. */
  function At(nodes: seq<nat>, depth: nat): (q: seq<State>)
    ensures |q| == |nodes|
    ensures forall i :: 0 <= i < |nodes| ==> q[i] == State(nodes[i], depth)
  {
    seq(|nodes|, i requires 0 <= i < |nodes| => State(nodes[i], depth))
  }

  /** A bound on the turns that a queue entry can still cause. */
  function Weight(g: Graph, node: nat, hops: nat): (w: nat)
    ensures w > 0
    decreases hops, 1, 0
  {
    if hops == 0 then 1 else 1 + EdgeWeight(g, g(node), hops - 1)
  }

  function EdgeWeight(g: Graph, edges: seq<(nat, nat)>, hops: nat): (w: nat)
    decreases hops, 2, |edges|
  {
    if edges == [] then 0 else Weight(g, edges[0].1, hops) + EdgeWeight(g, edges[1..], hops)
  }

  function Left(b: Bounds, depth: nat): nat { if depth < b.max then b.max - depth else 0 }

  function QueueWeight(g: Graph, b: Bounds, q: seq<State>): nat {
    if q == [] then 0 else Weight(g, q[0].node, Left(b, q[0].depth)) + QueueWeight(g, b, q[1..])
  }

  lemma {:induction false} QueueWeightConcat(g: Graph, b: Bounds, p: seq<State>, q: seq<State>)
    ensures QueueWeight(g, b, p + q) == QueueWeight(g, b, p) + QueueWeight(g, b, q)
  {
    if p == [] {
      assert p + q == q;
    } else {
      assert (p + q)[1..] == p[1..] + q;
      QueueWeightConcat(g, b, p[1..], q);
    }
  }

  lemma QueueWeightOne(g: Graph, b: Bounds, s: State)
    ensures QueueWeight(g, b, [s]) == Weight(g, s.node, Left(b, s.depth))
  {
    assert [s][1..] == [];
  }

  /** What is still to come when `rest` is left of the current depth and `next` was found for the one below. */
  function Remaining(g: Graph, rest: seq<nat>, next: seq<nat>, depth: nat, b: Bounds, visited: set<nat>): seq<Hop>
    requires depth < b.max
  {
    var f := Level(g, rest, depth, b, visited);
    f.hops + Levels(g, next + f.next, depth + 1, b, f.visited)
  }

  lemma RemainingFirst(g: Graph, rest: seq<nat>, next: seq<nat>, depth: nat, b: Bounds, visited: set<nat>)
    requires depth < b.max && rest != []
    ensures var f := Edges(g(rest[0]), rest[0], depth, b, visited);
            Remaining(g, rest, next, depth, b, visited) ==
            f.hops + Remaining(g, rest[1..], next + f.next, depth, b, f.visited)
  {
    var f := Edges(g(rest[0]), rest[0], depth, b, visited);
    var l := Level(g, rest[1..], depth, b, f.visited);
    assert next + (f.next + l.next) == (next + f.next) + l.next;
    assert (f.hops + l.hops) + Levels(g, (next + f.next) + l.next, depth + 1, b, l.visited) ==
           f.hops + (l.hops + Levels(g, (next + f.next) + l.next, depth + 1, b, l.visited));
  }

  lemma RemainingDeeper(g: Graph, next: seq<nat>, depth: nat, b: Bounds, visited: set<nat>)
    requires depth < b.max
    ensures Remaining(g, [], next, depth, b, visited) == Levels(g, next, depth + 1, b, visited)
    ensures depth + 1 < b.max ==>
              Remaining(g, [], next, depth, b, visited) == Remaining(g, next, [], depth + 1, b, visited)
  {
    assert next + [] == next;
    if depth + 1 < b.max {
      var f := Level(g, next, depth + 1, b, visited);
      assert [] + f.next == f.next;
    }
  }

  /** The inner loop over the neighbours of one vertex. */
  method ScanEdges(g: Graph, edges: seq<(nat, nat)>, from: nat, depth: nat, b: Bounds, visited: set<nat>)
    returns (hops: seq<Hop>, next: seq<nat>, seen: set<nat>)
    requires depth < b.max
    ensures Found(hops, next, seen) == Edges(edges, from, depth, b, visited)
    ensures b.max - depth > 1 ==> QueueWeight(g, b, At(next, depth + 1)) <= EdgeWeight(g, edges, b.max - depth - 1)
    ensures b.max - depth == 1 ==> next == []
  {
    hops, next, seen := [], [], visited;
    var i := 0;
    ghost var all := Edges(edges, from, depth, b, visited);
    assert edges[0..] == edges;
    while i < |edges|
      invariant 0 <= i <= |edges|
      invariant var f := Edges(edges[i..], from, depth, b, seen);
                all == Found(hops + f.hops, next + f.next, f.visited)
      invariant b.max - depth == 1 ==> next == []
      invariant b.max - depth > 1 ==>
                  QueueWeight(g, b, At(next, depth + 1)) + EdgeWeight(g, edges[i..], b.max - depth - 1) <=
                  EdgeWeight(g, edges, b.max - depth - 1)
    {
      var (rel, to) := edges[i];
      assert edges[i..][1..] == edges[i + 1..];
      if !(to in seen && depth + 1 < b.max) {
        ghost var deeper := depth + 1 < b.max;
        ghost var f := Edges(edges[i + 1..], from, depth, b, if deeper then seen + {to} else seen);
        if depth + 1 >= b.min && depth + 1 <= b.max {
          assert hops + ([Hop(rel, from, to, depth + 1)] + f.hops) == (hops + [Hop(rel, from, to, depth + 1)]) + f.hops;
          hops := hops + [Hop(rel, from, to, depth + 1)];
        } else {
          assert [] + f.hops == f.hops;
        }
        if depth + 1 < b.max {
          assert next + ([to] + f.next) == (next + [to]) + f.next;
          assert At(next + [to], depth + 1) == At(next, depth + 1) + [State(to, depth + 1)];
          QueueWeightConcat(g, b, At(next, depth + 1), [State(to, depth + 1)]);
          QueueWeightOne(g, b, State(to, depth + 1));
          seen := seen + {to};
          next := next + [to];
        } else {
          assert [] + f.next == f.next;
        }
      }
      i := i + 1;
    }
    assert hops + [] == hops && next + [] == next;
  }

  lemma {:induction false} LevelsOfNothing(g: Graph, depth: nat, b: Bounds, visited: set<nat>)
    ensures Levels(g, [], depth, b, visited) == []
    decreases if depth < b.max then b.max - depth else 0
  {
    if depth < b.max { LevelsOfNothing(g, depth + 1, b, visited); }
  }

  /** The queue of the search: what is left of one depth, then what was found for the next. */
  ghost predicate Queued(q: seq<State>, rest: seq<nat>, next: seq<nat>, depth: nat, b: Bounds) {
    q == At(rest, depth) + At(next, depth + 1) && (next != [] ==> depth + 1 < b.max)
  }

  lemma QueuedDeeper(q: seq<State>, next: seq<nat>, depth: nat, b: Bounds)
    requires Queued(q, [], next, depth, b)
    ensures Queued(q, next, [], depth + 1, b)
  {
  }

  lemma QueuedStep(q: seq<State>, rest: seq<nat>, next: seq<nat>, depth: nat, b: Bounds, more: seq<nat>)
    requires Queued(q, rest, next, depth, b) && rest != [] && (more != [] ==> depth + 1 < b.max)
    ensures q != [] && q[0] == State(rest[0], depth) && Queued(q[1..] + At(more, depth + 1), rest[1..], next + more,
            depth, b)
  {
    assert q[1..] == At(rest[1..], depth) + At(next, depth + 1);
    assert At(next + more, depth + 1) == At(next, depth + 1) + At(more, depth + 1);
  }

  ghost predicate Weighs(g: Graph, b: Bounds, q: seq<State>, weight: nat) { QueueWeight(g, b, q) == weight }

  lemma QueueDrops(g: Graph, b: Bounds, q: seq<State>, weight: nat) returns (less: nat)
    requires q != [] && Weighs(g, b, q, weight)
    ensures less < weight && Weighs(g, b, q[1..], less)
  {
    less := QueueWeight(g, b, q[1..]);
  }

  lemma QueueTurns(g: Graph, b: Bounds, q: seq<State>, more: seq<nat>, weight: nat) returns (less: nat)
    requires q != [] && q[0].depth < b.max && Weighs(g, b, q, weight)
    requires b.max - q[0].depth > 1 ==>
               QueueWeight(g, b, At(more, q[0].depth + 1)) <= EdgeWeight(g, g(q[0].node), b.max - q[0].depth - 1)
    requires b.max - q[0].depth == 1 ==> more == []
    ensures less < weight && Weighs(g, b, q[1..] + At(more, q[0].depth + 1), less)
  {
    QueueShrinks(g, b, q, more);
    less := QueueWeight(g, b, q[1..] + At(more, q[0].depth + 1));
  }

  lemma QueueShrinks(g: Graph, b: Bounds, q: seq<State>, more: seq<nat>)
    requires q != [] && q[0].depth < b.max
    requires b.max - q[0].depth > 1 ==>
               QueueWeight(g, b, At(more, q[0].depth + 1)) <= EdgeWeight(g, g(q[0].node), b.max - q[0].depth - 1)
    requires b.max - q[0].depth == 1 ==> more == []
    ensures QueueWeight(g, b, q[1..] + At(more, q[0].depth + 1)) < QueueWeight(g, b, q)
  {
    QueueWeightConcat(g, b, q[1..], At(more, q[0].depth + 1));
  }

  /** What was emitted and what is still to come make up the expansion. */
  ghost predicate Pending(g: Graph, goal: seq<Hop>, out: seq<Hop>, rest: seq<nat>, next: seq<nat>, depth: nat,
                          b: Bounds,
                          visited: set<nat>)
  {
    if depth < b.max then goal == out + Remaining(g, rest, next, depth, b, visited) else goal == out && next == []
  }

  lemma PendingStart(g: Graph, start: nat, b: Bounds)
    ensures Pending(g, Expansion(g, start, b), [], [start], [], 0, b, {start})
  {
    if b.max > 0 {
      var f := Level(g, [start], 0, b, {start});
      assert [] + f.next == f.next;
    }
  }

  lemma PendingDeeper(g: Graph, goal: seq<Hop>, out: seq<Hop>, next: seq<nat>, depth: nat, b: Bounds, visited: set<nat>)
    requires Pending(g, goal, out, [], next, depth, b, visited) && next != [] && depth + 1 < b.max
    ensures Pending(g, goal, out, next, [], depth + 1, b, visited)
  {
    RemainingDeeper(g, next, depth, b, visited);
  }

  lemma PendingStep(g: Graph, goal: seq<Hop>, out: seq<Hop>, rest: seq<nat>, next: seq<nat>, depth: nat, b: Bounds,
                    visited: set<nat>,
                    f: Found)
    requires Pending(g, goal, out, rest, next, depth, b, visited) && depth < b.max && rest != []
    requires f == Edges(g(rest[0]), rest[0], depth, b, visited)
    ensures Pending(g, goal, out + f.hops, rest[1..], next + f.next, depth, b, f.visited)
  {
    RemainingFirst(g, rest, next, depth, b, visited);
    var r := Remaining(g, rest[1..], next + f.next, depth, b, f.visited);
    assert out + (f.hops + r) == (out + f.hops) + r;
  }

  lemma PendingEnd(g: Graph, goal: seq<Hop>, out: seq<Hop>, depth: nat, b: Bounds, visited: set<nat>)
    requires Pending(g, goal, out, [], [], depth, b, visited)
    ensures goal == out
  {
    if depth < b.max {
      RemainingDeeper(g, [], depth, b, visited);
      LevelsOfNothing(g, depth + 1, b, visited);
      assert out + [] == out;
    }
  }

  /** The queue holds the rest of one level and the start of the next, and the goal is what has come out and what
      will. */
  ghost predicate Busy(g: Graph, goal: seq<Hop>, out: seq<Hop>, q: seq<State>, rest: seq<nat>, next: seq<nat>,
                       depth: nat, b: Bounds,
                       visited: set<nat>)
  {
    Queued(q, rest, next, depth, b) && Pending(g, goal, out, rest, next, depth, b, visited)
  }

  lemma BusyStarts(g: Graph, start: nat, b: Bounds)
    ensures Busy(g, Expansion(g, start, b), [], [State(start, 0)], [start], [], 0, b, {start})
  {
    PendingStart(g, start, b);
  }

  /** A level is done: the next one begins. */
  lemma BusyDeeper(g: Graph, goal: seq<Hop>, out: seq<Hop>, q: seq<State>, next: seq<nat>, depth: nat, b: Bounds,
                   visited: set<nat>)
    requires Busy(g, goal, out, q, [], next, depth, b, visited) && q != []
    ensures next != [] && Busy(g, goal, out, q, next, [], depth + 1, b, visited)
  {
    PendingDeeper(g, goal, out, next, depth, b, visited);
    QueuedDeeper(q, next, depth, b);
  }

  lemma BusyFirst(g: Graph, goal: seq<Hop>, out: seq<Hop>, q: seq<State>, rest: seq<nat>, next: seq<nat>, depth: nat,
                  b: Bounds,
                  visited: set<nat>)
    requires Busy(g, goal, out, q, rest, next, depth, b, visited) && rest != []
    ensures q != [] && q[0] == State(rest[0], depth)
  {
  }

  /** An entry at the limit is dropped. */
  lemma BusySkips(g: Graph, goal: seq<Hop>, out: seq<Hop>, q: seq<State>, rest: seq<nat>, next: seq<nat>, depth: nat,
                  b: Bounds,
                  visited: set<nat>)
    requires Busy(g, goal, out, q, rest, next, depth, b, visited) && rest != [] && depth >= b.max
    ensures q != [] && Busy(g, goal, out, q[1..], rest[1..], next, depth, b, visited)
  {
    QueuedStep(q, rest, next, depth, b, []);
    assert q[1..] + At([], depth + 1) == q[1..] && next + [] == next;
  }

  /** The first entry is replaced by what its edges lead to. */
  lemma BusyTurns(g: Graph, goal: seq<Hop>, out: seq<Hop>, q: seq<State>, rest: seq<nat>, next: seq<nat>, depth: nat,
                  b: Bounds,
                  visited: set<nat>, f: Found)
    requires Busy(g, goal, out, q, rest, next, depth, b, visited) && rest != [] && depth < b.max
    requires f == Edges(g(rest[0]), rest[0], depth, b, visited) && (f.next != [] ==> depth + 1 < b.max)
    ensures q != [] && Busy(g, goal, out + f.hops, q[1..] + At(f.next, depth + 1), rest[1..], next + f.next, depth, b,
            f.visited)
  {
    QueuedStep(q, rest, next, depth, b, f.next);
    PendingStep(g, goal, out, rest, next, depth, b, visited, f);
  }

  lemma BusyEnds(g: Graph, goal: seq<Hop>, out: seq<Hop>, rest: seq<nat>, next: seq<nat>, depth: nat, b: Bounds,
                 visited: set<nat>)
    requires Busy(g, goal, out, [], rest, next, depth, b, visited)
    ensures out == goal
  {
    assert rest == [] && next == [];
    PendingEnd(g, goal, out, depth, b, visited);
  }

  /** The first entry of the queue: its edges are looked at, unless it is at the limit. */
  method TakeFirst(g: Graph, b: Bounds, queue: seq<State>, visited: set<nat>, out: seq<Hop>, ghost goal: seq<Hop>,
                   ghost rest: seq<nat>,
                   ghost next: seq<nat>, ghost depth: nat, ghost weight: nat)
    returns (queue': seq<State>, visited': set<nat>, out': seq<Hop>, ghost next': seq<nat>, ghost less: nat)
    requires rest != [] && Busy(g, goal, out, queue, rest, next, depth, b, visited) && Weighs(g, b, queue, weight)
    ensures Busy(g, goal, out', queue', rest[1..], next', depth, b, visited')
    ensures less < weight && Weighs(g, b, queue', less)
  {
    BusyFirst(g, goal, out, queue, rest, next, depth, b, visited);
    var s := queue[0];
    if s.depth >= b.max {
      BusySkips(g, goal, out, queue, rest, next, depth, b, visited);
      less := QueueDrops(g, b, queue, weight);
      return queue[1..], visited, out, next, less;
    }
    var hops, more, seen := ScanEdges(g, g(s.node), s.node, s.depth, b, visited);
    BusyTurns(g, goal, out, queue, rest, next, depth, b, visited, Found(hops, more, seen));
    less := QueueTurns(g, b, queue, more, weight);
    return queue[1..] + At(more, s.depth + 1), seen, out + hops, next + more, less;
  }

  /** `ExpandCurrentRecord`: the search with one queue yields, in the same order, what the search level by level yields,
      and it ends on every graph. */
  method Expand(g: Graph, start: nat, b: Bounds) returns (out: seq<Hop>)
    ensures out == Expansion(g, start, b)
  {
    var queue, visited := [State(start, 0)], {start};
    out := [];
    ghost var rest, next, depth := [start], [], 0;
    ghost var goal, weight := Expansion(g, start, b), QueueWeight(g, b, queue);
    BusyStarts(g, start, b);
    while queue != []
      invariant Busy(g, goal, out, queue, rest, next, depth, b, visited) && Weighs(g, b, queue, weight)
      decreases weight
    {
      if rest == [] {
        BusyDeeper(g, goal, out, queue, next, depth, b, visited);
        rest, next, depth := next, [], depth + 1;
      }
      queue, visited, out, next, weight := TakeFirst(g, b, queue, visited, out, goal, rest, next, depth, weight);
      rest := rest[1..];
    }
    BusyEnds(g, goal, out, rest, next, depth, b, visited);
  }

  // ---------------------------------------------------------------- distances

  /** The vertices at the end of a walk of exactly n edges. */
  function Reach(g: Graph, start: nat, n: nat): set<nat> {
    if n == 0 then {start} else Targets(g, Reach(g, start, n - 1))
  }

  function Targets(g: Graph, nodes: set<nat>): set<nat> {
    set u, i | u in nodes && 0 <= i < |g(u)| :: g(u)[i].1
  }

  /** The vertices at the end of a walk of at most n edges. */
  function Within(g: Graph, start: nat, n: nat): set<nat> {
    if n == 0 then {start} else Within(g, start, n - 1) + Reach(g, start, n)
  }

  /** The vertices whose shortest walk has exactly n edges. */
  function AtDistance(g: Graph, start: nat, n: nat): set<nat> {
    if n == 0 then {start} else Reach(g, start, n) - Within(g, start, n - 1)
  }

  predicate NoDuplicates(s: seq<nat>) {
    forall i, j :: 0 <= i < j < |s| ==> s[i] != s[j]
  }

  function ToSet(s: seq<nat>): set<nat> { set x | x in s }

  lemma {:induction false} ReachWithin(g: Graph, start: nat, m: nat, n: nat)
    requires m <= n
    ensures Reach(g, start, m) <= Within(g, start, n)
    decreases n
  {
    if m < n { ReachWithin(g, start, m, n - 1); }
  }

  lemma {:induction false} WithinWalks(g: Graph, start: nat, n: nat, v: nat)
    requires v in Within(g, start, n)
    ensures exists m :: 0 <= m <= n && v in Reach(g, start, m)
    decreases n
  {
    if n > 0 && v in Within(g, start, n - 1) {
      WithinWalks(g, start, n - 1, v);
      var m :| 0 <= m <= n - 1 && v in Reach(g, start, m);
    } else {
      assert v in Reach(g, start, n);
    }
  }

  lemma TargetsAreReached(g: Graph, start: nat, n: nat)
    ensures Targets(g, AtDistance(g, start, n)) <= Reach(g, start, n + 1)
  {
    forall v | v in Targets(g, AtDistance(g, start, n))
      ensures v in Reach(g, start, n + 1)
    {
      var u, i :| u in AtDistance(g, start, n) && 0 <= i < |g(u)| && g(u)[i].1 == v;
      assert u in Reach(g, start, n);
    }
  }

  lemma NewIsTarget(g: Graph, start: nat, n: nat, v: nat)
    requires v in Reach(g, start, n + 1) && v !in Within(g, start, n)
    ensures v in Targets(g, AtDistance(g, start, n))
  {
    var u, i :| u in Reach(g, start, n) && 0 <= i < |g(u)| && g(u)[i].1 == v;
    if n > 0 && u in Within(g, start, n - 1) { WithinStep(g, start, n - 1, u, i); }
  }

  lemma ReachStep(g: Graph, start: nat, m: nat, u: nat, i: nat)
    requires u in Reach(g, start, m) && i < |g(u)|
    ensures g(u)[i].1 in Reach(g, start, m + 1)
  {
    assert g(u)[i].1 in Targets(g, Reach(g, start, m));
  }

  lemma WithinStep(g: Graph, start: nat, n: nat, u: nat, i: nat)
    requires u in Within(g, start, n) && i < |g(u)|
    ensures g(u)[i].1 in Within(g, start, n + 1)
  {
    WithinWalks(g, start, n, u);
    var m :| 0 <= m <= n && u in Reach(g, start, m);
    ReachStep(g, start, m, u, i);
    ReachWithin(g, start, m + 1, n + 1);
  }

  /** One step from the vertices at distance n, leaving out what was seen, gives the vertices at distance n + 1. */
  lemma NextDistance(g: Graph, start: nat, n: nat, m: nat)
    requires m == n + 1
    ensures AtDistance(g, start, m) == Targets(g, AtDistance(g, start, n)) - Within(g, start, n)
    ensures Within(g, start, m) == Within(g, start, n) + Targets(g, AtDistance(g, start, n))
  {
    TargetsAreReached(g, start, n);
    forall v | v in Reach(g, start, n + 1) && v !in Within(g, start, n)
      ensures v in Targets(g, AtDistance(g, start, n))
    {
      NewIsTarget(g, start, n, v);
    }
  }

  // ---------------------------------------------------------------- one level

  function EdgeTargets(edges: seq<(nat, nat)>): set<nat> { set i | 0 <= i < |edges| :: edges[i].1 }

  /** What is found below the limit: each new vertex once, with a row for each if the depth admits it. */
  predicate FoundNew(f: Found, targets: set<nat>, depth: nat, b: Bounds, visited: set<nat>) {
    && f.visited == visited + targets && ToSet(f.next) == targets - visited && NoDuplicates(f.next)
    && (if depth + 1 >= b.min then |f.hops| == |f.next| && (forall i :: 0 <= i < |f.hops| ==> f.hops[i].to == f.next[i])
        else f.hops == [])
  }

  lemma {:induction false} EdgesNew(edges: seq<(nat, nat)>, from: nat, depth: nat, b: Bounds, visited: set<nat>)
    requires depth + 1 < b.max
    ensures FoundNew(Edges(edges, from, depth, b, visited), EdgeTargets(edges), depth, b, visited)
  {
    if edges != [] {
      var to, rest := edges[0].1, edges[1..];
      TargetsFirst(edges);
      if to in visited {
        EdgesNew(rest, from, depth, b, visited);
      } else {
        EdgesNew(rest, from, depth, b, visited + {to});
        FoundFirst(Edges(rest, from, depth, b, visited + {to}), EdgeTargets(rest), depth, b, visited, to, edges[0].0,
            from);
      }
    }
  }

  lemma TargetsFirst(edges: seq<(nat, nat)>)
    requires edges != []
    ensures EdgeTargets(edges) == {edges[0].1} + EdgeTargets(edges[1..])
  {
    forall t | t in EdgeTargets(edges)
      ensures t in {edges[0].1} + EdgeTargets(edges[1..])
    {
      var i :| 0 <= i < |edges| && edges[i].1 == t;
      if i > 0 { assert edges[1..][i - 1].1 == t; }
    }
    forall t | t in EdgeTargets(edges[1..])
      ensures t in EdgeTargets(edges)
    {
      var i :| 0 <= i < |edges[1..]| && edges[1..][i].1 == t;
      assert edges[i + 1].1 == t;
    }
  }

  lemma FoundFirst(f: Found, targets: set<nat>, depth: nat, b: Bounds, visited: set<nat>, to: nat, rel: nat, from: nat)
    requires FoundNew(f, targets, depth, b, visited + {to}) && to !in visited
    ensures FoundNew(Found((if depth + 1 >= b.min then [Hop(rel, from, to, depth + 1)] else []) + f.hops, [to] + f.next,
            f.visited),
                     {to} + targets, depth, b, visited)
  {
    NextFirst(f.next, to, targets, visited);
    assert (visited + {to}) + targets == visited + ({to} + targets);
  }

  lemma NextFirst(next: seq<nat>, to: nat, targets: set<nat>, visited: set<nat>)
    requires ToSet(next) == targets - (visited + {to}) && NoDuplicates(next) && to !in visited
    ensures ToSet([to] + next) == ({to} + targets) - visited && NoDuplicates([to] + next)
  {
    FirstToSet(to, next);
    FirstIsNew(to, next);
    assert {to} + (targets - (visited + {to})) == ({to} + targets) - visited;
  }

  lemma FirstToSet(to: nat, next: seq<nat>)
    ensures ToSet([to] + next) == {to} + ToSet(next)
  {
    assert forall x :: x in [to] + next <==> x == to || x in next;
  }

  lemma FirstIsNew(to: nat, next: seq<nat>)
    requires to !in ToSet(next) && NoDuplicates(next)
    ensures NoDuplicates([to] + next)
  {
    forall i | 0 <= i < |next|
      ensures next[i] != to
    {
      assert next[i] in ToSet(next);
    }
  }

  lemma FoundBoth(f: Found, s: set<nat>, rest: Found, t: set<nat>, depth: nat, b: Bounds, visited: set<nat>)
    requires FoundNew(f, s, depth, b, visited) && FoundNew(rest, t, depth, b, f.visited)
    ensures FoundNew(Found(f.hops + rest.hops, f.next + rest.next, rest.visited), s + t, depth, b, visited)
  {
    var next := f.next + rest.next;
    assert forall x :: x in next <==> x in f.next || x in rest.next;
    assert forall x :: x in f.next ==> x in ToSet(f.next);
    assert forall x :: x in rest.next ==> x in ToSet(rest.next);
    forall i, j | 0 <= i < j < |next|
      ensures next[i] != next[j]
    {
      if i < |f.next| <= j {
        assert next[i] in ToSet(f.next) && next[j] in ToSet(rest.next);
      }
    }
    assert ToSet(next) == ToSet(f.next) + ToSet(rest.next) == (s + t) - visited;
    assert (visited + s) + t == visited + (s + t);
  }

  lemma {:induction false} LevelNew(g: Graph, nodes: seq<nat>, depth: nat, b: Bounds, visited: set<nat>)
    requires depth + 1 < b.max
    ensures FoundNew(Level(g, nodes, depth, b, visited), Targets(g, ToSet(nodes)), depth, b, visited)
  {
    if nodes == [] {
      assert Targets(g, ToSet(nodes)) == {};
    } else {
      var f := Edges(g(nodes[0]), nodes[0], depth, b, visited);
      EdgesNew(g(nodes[0]), nodes[0], depth, b, visited);
      LevelNew(g, nodes[1..], depth, b, f.visited);
      FoundBoth(f, EdgeTargets(g(nodes[0])), Level(g, nodes[1..], depth, b, f.visited), Targets(g, ToSet(nodes[1..])),
          depth, b, visited);
      TargetsOfFirst(g, nodes);
    }
  }

  lemma TargetsOfFirst(g: Graph, nodes: seq<nat>)
    requires nodes != []
    ensures Targets(g, ToSet(nodes)) == EdgeTargets(g(nodes[0])) + Targets(g, ToSet(nodes[1..]))
  {
    forall t | t in Targets(g, ToSet(nodes))
      ensures t in EdgeTargets(g(nodes[0])) + Targets(g, ToSet(nodes[1..]))
    {
      var u, i :| u in ToSet(nodes) && 0 <= i < |g(u)| && g(u)[i].1 == t;
      if u != nodes[0] { assert u in nodes[1..]; }
    }
    forall t | t in Targets(g, ToSet(nodes[1..]))
      ensures t in Targets(g, ToSet(nodes))
    {
      var u, i :| u in ToSet(nodes[1..]) && 0 <= i < |g(u)| && g(u)[i].1 == t;
      assert u in nodes;
    }
    forall t | t in EdgeTargets(g(nodes[0]))
      ensures t in Targets(g, ToSet(nodes))
    {
      var i :| 0 <= i < |g(nodes[0])| && g(nodes[0])[i].1 == t;
      assert nodes[0] in ToSet(nodes);
    }
  }

  // ---------------------------------------------------------------- all levels

  /** The vertices of a depth in the order in which they were queued, and everything seen up to there. */
  datatype Front = Front(nodes: seq<nat>, visited: set<nat>)

  function FrontAt(g: Graph, start: nat, b: Bounds, d: nat): Front {
    if d == 0 then Front([start], {start})
    else After(g, FrontAt(g, start, b, d - 1), d - 1, b)
  }

  /** The front one hop further. */
  function After(g: Graph, p: Front, depth: nat, b: Bounds): Front {
    var f := Level(g, p.nodes, depth, b, p.visited);
    Front(f.next, f.visited)
  }

  /** Each vertex at that distance once, and nothing else. */
  predicate Exactly(f: Front, layer: set<nat>, seen: set<nat>) {
    ToSet(f.nodes) == layer && NoDuplicates(f.nodes) && f.visited == seen
  }

  lemma FrontStep(g: Graph, p: Front, depth: nat, b: Bounds, layer: set<nat>, seen: set<nat>)
    requires Exactly(p, layer, seen) && depth + 1 < b.max
    ensures Exactly(After(g, p, depth, b), Targets(g, layer) - seen, seen + Targets(g, layer))
  {
    LevelNew(g, p.nodes, depth, b, p.visited);
  }

  lemma FrontStarts(g: Graph, start: nat, b: Bounds, d: nat)
    requires d == 0
    ensures Exactly(FrontAt(g, start, b, d), AtDistance(g, start, d), Within(g, start, d))
  {
    assert ToSet([start]) == {start};
  }

  lemma FrontNext(g: Graph, start: nat, b: Bounds, e: nat, d: nat)
    requires d == e + 1 < b.max && Exactly(FrontAt(g, start, b, e), AtDistance(g, start, e), Within(g, start, e))
    ensures Exactly(FrontAt(g, start, b, d), AtDistance(g, start, d), Within(g, start, d))
  {
    var p, layer, seen := FrontAt(g, start, b, e), AtDistance(g, start, e), Within(g, start, e);
    FrontStep(g, p, e, b, layer, seen);
    NextDistance(g, start, e, d);
    SameFront(FrontAt(g, start, b, d), After(g, p, e, b), AtDistance(g, start, d), Targets(g, layer) - seen,
              Within(g, start, d), seen + Targets(g, layer));
  }

  lemma SameFront(f: Front, p: Front, layer: set<nat>, deeper: set<nat>, seen: set<nat>, more: set<nat>)
    requires Exactly(p, deeper, more) && f == p && layer == deeper && seen == more
    ensures Exactly(f, layer, seen)
  {
  }

  /** Below the limit the search queues each vertex at its distance from the start, exactly once. */
  lemma {:induction false} QueuedAtDistance(g: Graph, start: nat, b: Bounds, d: nat)
    requires d < b.max
    ensures Exactly(FrontAt(g, start, b, d), AtDistance(g, start, d), Within(g, start, d))
  {
    if d == 0 {
      FrontStarts(g, start, b, d);
    } else {
      QueuedAtDistance(g, start, b, d - 1);
      FrontNext(g, start, b, d - 1, d);
    }
  }

  function LevelHops(g: Graph, start: nat, b: Bounds, d: nat): seq<Hop> {
    var p := FrontAt(g, start, b, d);
    Level(g, p.nodes, d, b, p.visited).hops
  }

  function HopsFrom(g: Graph, start: nat, b: Bounds, d: nat): seq<Hop>
    decreases if d < b.max then b.max - d else 0
  {
    if d >= b.max then [] else LevelHops(g, start, b, d) + HopsFrom(g, start, b, d + 1)
  }

  lemma {:induction false} LevelsAreHops(g: Graph, start: nat, b: Bounds, d: nat)
    ensures var p := FrontAt(g, start, b, d); Levels(g, p.nodes, d, b, p.visited) == HopsFrom(g, start, b, d)
    decreases if d < b.max then b.max - d else 0
  {
    if d < b.max { LevelsAreHops(g, start, b, d + 1); }
  }

  lemma ExpansionIsHops(g: Graph, start: nat, b: Bounds)
    ensures Expansion(g, start, b) == HopsFrom(g, start, b, 0)
  {
    LevelsAreHops(g, start, b, 0);
  }

  // ---------------------------------------------------------------- the rows

  /** The row is a real edge, at the depth of its level. */
  predicate IsEdge(g: Graph, h: Hop) { (h.rel, h.to) in g(h.from) }

  lemma {:induction false} EdgesSound(edges: seq<(nat, nat)>, from: nat, depth: nat, b: Bounds, visited: set<nat>,
                                      h: Hop)
    requires h in Edges(edges, from, depth, b, visited).hops
    ensures h.from == from && h.depth == depth + 1 >= b.min && (h.rel, h.to) in edges
  {
    var to, rest := edges[0].1, edges[1..];
    if Skipped(b, depth, visited, to) {
      EdgesSound(rest, from, depth, b, visited, h);
    } else if h != Hop(edges[0].0, from, to, depth + 1) || depth + 1 < b.min {
      EdgesSound(rest, from, depth, b, if depth + 1 < b.max then visited + {to} else visited, h);
    }
  }

  lemma {:induction false} LevelSound(g: Graph, nodes: seq<nat>, depth: nat, b: Bounds, visited: set<nat>, h: Hop)
    requires h in Level(g, nodes, depth, b, visited).hops
    ensures h.from in nodes && h.depth == depth + 1 >= b.min && IsEdge(g, h)
  {
    var f := Edges(g(nodes[0]), nodes[0], depth, b, visited);
    if h in f.hops {
      EdgesSound(g(nodes[0]), nodes[0], depth, b, visited, h);
    } else {
      LevelSound(g, nodes[1..], depth, b, f.visited, h);
    }
  }

  /** At the limit nothing is skipped. */
  lemma {:induction false} EdgesAtLimit(edges: seq<(nat, nat)>, from: nat, depth: nat, b: Bounds, visited: set<nat>,
                                        i: nat)
    requires depth + 1 == b.max >= b.min && i < |edges|
    ensures Hop(edges[i].0, from, edges[i].1, b.max) in Edges(edges, from, depth, b, visited).hops
  {
    if i > 0 { EdgesAtLimit(edges[1..], from, depth, b, visited, i - 1); }
  }

  lemma {:induction false} LevelAtLimit(g: Graph, nodes: seq<nat>, depth: nat, b: Bounds, visited: set<nat>, u: nat,
                                        i: nat)
    requires depth + 1 == b.max >= b.min && u in nodes && i < |g(u)|
    ensures Hop(g(u)[i].0, u, g(u)[i].1, b.max) in Level(g, nodes, depth, b, visited).hops
  {
    if u == nodes[0] {
      EdgesAtLimit(g(u), u, depth, b, visited, i);
    } else {
      LevelAtLimit(g, nodes[1..], depth, b, Edges(g(nodes[0]), nodes[0], depth, b, visited).visited, u, i);
    }
  }

  lemma {:induction false} HopsHold(g: Graph, start: nat, b: Bounds, d: nat, e: nat, h: Hop)
    requires d <= e < b.max && h in LevelHops(g, start, b, e)
    ensures h in HopsFrom(g, start, b, d)
    decreases b.max - d
  {
    if d < e { HopsHold(g, start, b, d + 1, e, h); }
  }

  lemma {:induction false} HopsComeFrom(g: Graph, start: nat, b: Bounds, d: nat, h: Hop) returns (e: nat)
    requires h in HopsFrom(g, start, b, d)
    ensures d <= e < b.max && h in LevelHops(g, start, b, e)
    decreases if d < b.max then b.max - d else 0
  {
    if h in LevelHops(g, start, b, d) { e := d; } else { e := HopsComeFrom(g, start, b, d + 1, h); }
  }

  /** Nothing wrong is emitted: every row is an edge that ends a walk of exactly its depth, the depth is within the
      limits, and the edge leaves a vertex whose distance is one less; below the maximum the depth is the distance. */
  lemma ExpansionSound(g: Graph, start: nat, b: Bounds, h: Hop)
    requires h in Expansion(g, start, b)
    ensures 1 <= h.depth && b.min <= h.depth <= b.max && IsEdge(g, h)
    ensures h.from in AtDistance(g, start, h.depth - 1) && h.to in Reach(g, start, h.depth)
    ensures h.depth < b.max ==> h.to in AtDistance(g, start, h.depth)
  {
    ExpansionIsHops(g, start, b);
    var e := HopsComeFrom(g, start, b, 0, h);
    var p := FrontAt(g, start, b, e);
    LevelSound(g, p.nodes, e, b, p.visited, h);
    QueuedAtDistance(g, start, b, e);
    assert h.from in ToSet(p.nodes);
    assert h.from in Reach(g, start, e);
    var i :| 0 <= i < |g(h.from)| && g(h.from)[i] == (h.rel, h.to);
    ReachStep(g, start, e, h.from, i);
    if e + 1 < b.max { HopIsQueued(g, start, b, e, h); }
  }

  lemma HopIsQueued(g: Graph, start: nat, b: Bounds, e: nat, h: Hop)
    requires e + 1 < b.max && h in LevelHops(g, start, b, e)
    ensures h.to in AtDistance(g, start, e + 1)
  {
    var p := FrontAt(g, start, b, e);
    LevelNew(g, p.nodes, e, b, p.visited);
    QueuedAtDistance(g, start, b, e + 1);
    var f := Level(g, p.nodes, e, b, p.visited);
    var i :| 0 <= i < |f.hops| && f.hops[i] == h;
    assert f.next[i] in ToSet(f.next);
  }

  lemma QueuedHasHop(g: Graph, start: nat, b: Bounds, e: nat, v: nat) returns (h: Hop)
    requires e + 1 < b.max && b.min <= e + 1 && v in AtDistance(g, start, e + 1)
    ensures h in LevelHops(g, start, b, e) && h.to == v
  {
    var p := FrontAt(g, start, b, e);
    LevelNew(g, p.nodes, e, b, p.visited);
    QueuedAtDistance(g, start, b, e + 1);
    var f := Level(g, p.nodes, e, b, p.visited);
    assert v in ToSet(f.next);
    var i :| 0 <= i < |f.next| && f.next[i] == v;
    h := f.hops[i];
  }

  /** At the maximum every edge of every vertex one step nearer is emitted, wherever it leads. */
  lemma LimitComplete(g: Graph, start: nat, b: Bounds, u: nat, i: nat)
    requires 0 < b.max && b.min <= b.max && u in AtDistance(g, start, b.max - 1) && i < |g(u)|
    ensures Hop(g(u)[i].0, u, g(u)[i].1, b.max) in Expansion(g, start, b)
  {
    var e := b.max - 1;
    var p := FrontAt(g, start, b, e);
    QueuedAtDistance(g, start, b, e);
    assert u in ToSet(p.nodes);
    LevelAtLimit(g, p.nodes, e, b, p.visited, u, i);
    HopsHold(g, start, b, 0, e, Hop(g(u)[i].0, u, g(u)[i].1, b.max));
    ExpansionIsHops(g, start, b);
  }

  lemma BelowComplete(g: Graph, start: nat, b: Bounds, v: nat, e: nat) returns (h: Hop)
    requires v in AtDistance(g, start, e + 1) && b.min <= e + 1 < b.max
    ensures h in Expansion(g, start, b) && h.to == v && h.depth == e + 1
  {
    var p := FrontAt(g, start, b, e);
    h := QueuedHasHop(g, start, b, e, v);
    HopsHold(g, start, b, 0, e, h);
    ExpansionIsHops(g, start, b);
    LevelSound(g, p.nodes, e, b, p.visited, h);
  }

  lemma Predecessor(g: Graph, start: nat, n: nat, v: nat) returns (u: nat, i: nat)
    requires v in AtDistance(g, start, n + 1)
    ensures u in AtDistance(g, start, n) && i < |g(u)| && g(u)[i].1 == v
  {
    NextDistance(g, start, n, n + 1);
    u, i :| u in AtDistance(g, start, n) && 0 <= i < |g(u)| && g(u)[i].1 == v;
  }

  /** Nothing is missed: every vertex other than the start whose distance is within the limits is emitted, at that
      depth. */
  lemma ExpansionComplete(g: Graph, start: nat, b: Bounds, v: nat, k: nat) returns (h: Hop)
    requires v in AtDistance(g, start, k) && 1 <= k && b.min <= k <= b.max
    ensures h in Expansion(g, start, b) && h.to == v && h.depth == k
  {
    var e := k - 1;
    if k < b.max {
      h := BelowComplete(g, start, b, v, e);
    } else {
      var u, i := Predecessor(g, start, e, v);
      LimitComplete(g, start, b, u, i);
      h := Hop(g(u)[i].0, u, g(u)[i].1, b.max);
    }
  }

  predicate OnceBelow(hops: seq<Hop>, limit: nat) {
    forall i, j :: 0 <= i < j < |hops| && hops[i].depth == hops[j].depth < limit ==> hops[i].to != hops[j].to
  }

  predicate AllAt(hops: seq<Hop>, depth: nat) { forall i :: 0 <= i < |hops| ==> hops[i].depth == depth }

  predicate AllDeeper(hops: seq<Hop>, depth: nat) { forall i :: 0 <= i < |hops| ==> hops[i].depth > depth }

  lemma OnceConcat(l: seq<Hop>, rest: seq<Hop>, limit: nat, depth: nat)
    requires OnceBelow(l, limit) && OnceBelow(rest, limit) && AllAt(l, depth) && AllDeeper(rest, depth)
    ensures OnceBelow(l + rest, limit)
  {
  }

  lemma LevelOnce(g: Graph, start: nat, b: Bounds, d: nat)
    requires d < b.max
    ensures OnceBelow(LevelHops(g, start, b, d), b.max) && AllAt(LevelHops(g, start, b, d), d + 1)
  {
    var p, l := FrontAt(g, start, b, d), LevelHops(g, start, b, d);
    forall i | 0 <= i < |l|
      ensures l[i].depth == d + 1
    {
      LevelSound(g, p.nodes, d, b, p.visited, l[i]);
    }
    if d + 1 < b.max { LevelNew(g, p.nodes, d, b, p.visited); }
  }

  lemma {:induction false} HopsOnce(g: Graph, start: nat, b: Bounds, d: nat)
    ensures OnceBelow(HopsFrom(g, start, b, d), b.max)
    decreases if d < b.max then b.max - d else 0
  {
    if d < b.max {
      var rest := HopsFrom(g, start, b, d + 1);
      HopsOnce(g, start, b, d + 1);
      LevelOnce(g, start, b, d);
      forall i | 0 <= i < |rest|
        ensures rest[i].depth > d + 1
      {
        RestIsDeeper(g, start, b, d + 1, rest[i]);
      }
      OnceConcat(LevelHops(g, start, b, d), rest, b.max, d + 1);
    }
  }

  lemma RestIsDeeper(g: Graph, start: nat, b: Bounds, d: nat, h: Hop)
    requires h in HopsFrom(g, start, b, d)
    ensures h.depth > d
  {
    var e := HopsComeFrom(g, start, b, d, h);
    LevelSound(g, FrontAt(g, start, b, e).nodes, e, b, FrontAt(g, start, b, e).visited, h);
  }

  /** Below the maximum no vertex is emitted twice. */
  lemma ExpansionOnce(g: Graph, start: nat, b: Bounds)
    ensures OnceBelow(Expansion(g, start, b), b.max)
  {
    ExpansionIsHops(g, start, b);
    HopsOnce(g, start, b, 0);
  }

  // ---------------------------------------------------------------- exactly which vertices

  ghost predicate OnRow(g: Graph, start: nat, b: Bounds, v: nat) {
    exists h :: h in Expansion(g, start, b) && h.to == v
  }

  /** The distance of v lies within the limits, but below the maximum. */
  ghost predicate NearEnough(g: Graph, start: nat, b: Bounds, v: nat) {
    exists k: nat :: 1 <= k && b.min <= k < b.max && v in AtDistance(g, start, k)
  }

  /** The last level: an edge leads to v from a vertex one step nearer than the maximum. */
  predicate AtLimit(g: Graph, start: nat, b: Bounds, v: nat) {
    0 < b.max && b.min <= b.max && v in Targets(g, AtDistance(g, start, b.max - 1))
  }

  lemma HopIsNearOrLast(g: Graph, start: nat, b: Bounds, h: Hop)
    requires h in Expansion(g, start, b)
    ensures NearEnough(g, start, b, h.to) || AtLimit(g, start, b, h.to)
  {
    ExpansionSound(g, start, b, h);
    if h.depth == b.max { EdgeTarget(g, h, AtDistance(g, start, b.max - 1)); }
  }

  lemma EdgeTarget(g: Graph, h: Hop, nodes: set<nat>)
    requires IsEdge(g, h) && h.from in nodes
    ensures h.to in Targets(g, nodes)
  {
    var i :| 0 <= i < |g(h.from)| && g(h.from)[i] == (h.rel, h.to);
    assert g(h.from)[i].1 in Targets(g, nodes);
  }

  /** For every graph, limits and vertex: it is on a row if and only if its distance is within the limits and below the
      maximum, or an edge leads to it from a vertex one step nearer than the maximum. */
  lemma {:induction false} ExpansionExactly(g: Graph, start: nat, b: Bounds, v: nat)
    ensures OnRow(g, start, b, v) <==> NearEnough(g, start, b, v) || AtLimit(g, start, b, v)
  {
    if OnRow(g, start, b, v) {
      var h :| h in Expansion(g, start, b) && h.to == v;
      HopIsNearOrLast(g, start, b, h);
    }
    if NearEnough(g, start, b, v) {
      var k: nat :| 1 <= k && b.min <= k < b.max && v in AtDistance(g, start, k);
      var h := ExpansionComplete(g, start, b, v, k);
    }
    if AtLimit(g, start, b, v) {
      var u, i :| u in AtDistance(g, start, b.max - 1) && 0 <= i < |g(u)| && g(u)[i].1 == v;
      LimitComplete(g, start, b, u, i);
    }
  }

  lemma OneDistance(g: Graph, start: nat, v: nat, d: nat, n: nat)
    requires v in AtDistance(g, start, d) && v in Reach(g, start, n)
    ensures d <= n
  {
    if n < d { ReachWithin(g, start, n, d - 1); }
  }

  lemma NearIsDistance(g: Graph, start: nat, b: Bounds, v: nat, d: nat)
    requires v in AtDistance(g, start, d)
    ensures NearEnough(g, start, b, v) <==> 1 <= d && b.min <= d < b.max
  {
    if NearEnough(g, start, b, v) {
      var k: nat :| 1 <= k && b.min <= k < b.max && v in AtDistance(g, start, k);
      OneDistance(g, start, v, d, k);
      OneDistance(g, start, v, k, d);
    }
  }

  lemma FarIsAtLimit(g: Graph, start: nat, b: Bounds, v: nat)
    requires 1 <= b.max && b.min <= b.max && v in AtDistance(g, start, b.max)
    ensures AtLimit(g, start, b, v)
  {
    NextDistance(g, start, b.max - 1, b.max);
  }

  /** A vertex that ends a walk whose length is within the limits is on a row if and only if its distance is within the
      limits too, or an edge leads to it on the last level: a longer walk to a vertex already seen is not followed. */
  lemma {:induction false} WalkEndExactly(g: Graph, start: nat, b: Bounds, v: nat, n: nat, d: nat)
    requires 1 <= n && b.min <= n <= b.max && v in Reach(g, start, n) && v in AtDistance(g, start, d)
    ensures OnRow(g, start, b, v) <==> (1 <= d && b.min <= d) || AtLimit(g, start, b, v)
  {
    ExpansionExactly(g, start, b, v);
    OneDistance(g, start, v, d, n);
    NearIsDistance(g, start, b, v, d);
    if d == b.max { FarIsAtLimit(g, start, b, v); }
  }

  /** A triangle: two edges from 0, to 1 and to 2, and one from 1 to 2. */
  function Triangle(): Graph { (v: nat) => if v == 0 then [(10, 1), (11, 2)] else if v == 1 then [(12, 2)] else [] }

  lemma TriangleReach()
    ensures var g := Triangle(); Reach(g, 0, 1) == {1, 2} && Reach(g, 0, 2) == {2} && AtDistance(g, 0, 2) == {}
    ensures var g := Triangle(); 2 in AtDistance(g, 0, 1)
  {
    var g := Triangle();
    assert g(0)[0].1 in Targets(g, {0}) && g(0)[1].1 in Targets(g, {0});
    assert Reach(g, 0, 0) == {0} && Reach(g, 0, 1) == {1, 2};
    assert g(1)[0].1 in Targets(g, {1, 2});
    assert Reach(g, 0, 2) == Targets(g, {1, 2}) == {2};
  }

  /** `*2..3` in the triangle: vertex 2 ends the walk over 1, of two edges, and no row has it. */
  lemma LongerWalkLost()
    ensures var g, b := Triangle(), Bounds(2, 3); 2 in Reach(g, 0, 2) && !OnRow(g, 0, b, 2)
  {
    TriangleReach();
    WalkEndExactly(Triangle(), 0, Bounds(2, 3), 2, 2, 1);
  }
}
