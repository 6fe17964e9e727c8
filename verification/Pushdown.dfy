/** Splitting a WHERE tree into predicates a scan can check and the rest, src/cypher/execution_plan.cc, and the plan
    rebuilt from the split. */
module Pushdown {
  import opened Expressions
  import opened Values
  import opened Wrappers

  datatype Pushable = Pushable(variable: string, property: string, op: Op, literal: Value)

  /** `remaining` is None when everything was pushable. */
  datatype Analysis = Analysis(pushable: seq<Pushable>, remaining: Option<Expr>)

  /** Property against literal, in either order. */
  function TryExtract(op: Op, left: Expr, right: Expr): Option<Pushable> {
    if left.Property? && right.Literal? then
      Some(Pushable(left.variable, left.property, op, right.value))
    else if left.Literal? && right.Property? then
      Some(Pushable(right.variable, right.property, Flip(op), left.value))
    else None
  }

  function Both(l: Option<Expr>, r: Option<Expr>): Option<Expr> {
    if l.Some? && r.Some? then Some(And(l.value, r.value)) else if l.Some? then l else r
  }

  function Analyze(e: Expr): Analysis {
    match e
    case And(l, r) =>
      var a, b := Analyze(l), Analyze(r);
      Analysis(a.pushable + b.pushable, Both(a.remaining, b.remaining))
    case Comparison(op, l, r) =>
      var p := TryExtract(op, l, r);
      if p.Some? then Analysis([p.value], None) else Analysis([], Some(e))
    case _ => Analysis([], Some(e))
  }

  /** The comparison a pushable predicate is rebuilt as. */
  function Rebuilt(p: Pushable): Expr { Comparison(p.op, Property(p.variable, p.property), Literal(p.literal)) }

  predicate AllPass(env: Env, ps: seq<Pushable>, row: Record) {
    forall i :: 0 <= i < |ps| ==> Passes(env, Rebuilt(ps[i]), row)
  }

  predicate RestPasses(env: Env, e: Option<Expr>, row: Record) { e.None? || Passes(env, e.value, row) }

  predicate SplitPasses(env: Env, a: Analysis, row: Record) { AllPass(env, a.pushable, row)
                        && RestPasses(env, a.remaining, row) }

  // ---------------------------------------------------------------- the split keeps the meaning

  lemma ExtractDecides(env: Env, op: Op, l: Expr, r: Expr, row: Record)
    requires TryExtract(op, l, r).Some?
    ensures Decide(env, Rebuilt(TryExtract(op, l, r).value), row) == Decide(env, Comparison(op, l, r), row)
  {
    if l.Literal? {
      var v := PropertyOf(env, VariableValue(env, r.variable, row), r.property);
      FlippedComparison(env, op, l.value, v);
      assert Evaluate(env, l, row) == Some(l.value) && Evaluate(env, r, row) == Some(v);
      RebuiltEvaluates(env, Pushable(r.variable, r.property, Flip(op), l.value), row);
      assert Evaluate(env, Comparison(op, l, r), row) == Compare(env, op, l.value, v);
    } else {
      RebuiltEvaluates(env, Pushable(l.variable, l.property, op, r.value), row);
    }
  }

  lemma RebuiltEvaluates(env: Env, p: Pushable, row: Record)
    ensures Evaluate(env, Rebuilt(p), row) ==
            Compare(env, p.op, PropertyOf(env, VariableValue(env, p.variable, row), p.property), p.literal)
  {
    assert Evaluate(env, Property(p.variable, p.property), row) ==
           Some(PropertyOf(env, VariableValue(env, p.variable, row), p.property));
    assert Evaluate(env, Literal(p.literal), row) == Some(p.literal);
  }

  lemma OnePasses(env: Env, p: Pushable, row: Record)
    ensures AllPass(env, [p], row) <==> Passes(env, Rebuilt(p), row)
  {
    assert [p][0] == p;
  }

  lemma AllPassConcat(env: Env, ps: seq<Pushable>, qs: seq<Pushable>, row: Record)
    ensures AllPass(env, ps + qs, row) <==> AllPass(env, ps, row) && AllPass(env, qs, row)
  {
    if AllPass(env, ps + qs, row) {
      assert forall i :: 0 <= i < |ps| ==> ps[i] == (ps + qs)[i];
      assert forall i :: 0 <= i < |qs| ==> qs[i] == (ps + qs)[|ps| + i];
    }
  }

  /** A row passes the tree if and only if it passes every pushed predicate and the remaining tree. */
  lemma {:induction false} SplitKeepsMeaning(env: Env, e: Expr, row: Record)
    ensures Passes(env, e, row) <==> SplitPasses(env, Analyze(e), row)
  {
    match e {
      case And(l, r) =>
        SplitKeepsMeaning(env, l, row);
        SplitKeepsMeaning(env, r, row);
        var a, b := Analyze(l), Analyze(r);
        AllPassConcat(env, a.pushable, b.pushable, row);
        AndPasses(env, l, r, row);
        if a.remaining.Some? && b.remaining.Some? { AndPasses(env, a.remaining.value, b.remaining.value, row); }
      case Comparison(op, l, r) =>
        if TryExtract(op, l, r).Some? {
          ExtractDecides(env, op, l, r, row);
          OnePasses(env, TryExtract(op, l, r).value, row);
        }
      case _ =>
    }
  }

  /** The conjuncts of a tree, left to right. */
  function Conjuncts(e: Expr): seq<Expr> { if e.And? then Conjuncts(e.left) + Conjuncts(e.right) else [e] }

  /** A conjunct with a property on the left where the split puts it there. */
  function Normal(e: Expr): Expr {
    if e.Comparison? && TryExtract(e.op, e.left, e.right).Some? then Rebuilt(TryExtract(e.op, e.left, e.right).value)
        else e
  }

  function Normals(es: seq<Expr>): seq<Expr> { if es == [] then [] else [Normal(es[0])] + Normals(es[1..]) }

  function RebuiltAll(ps: seq<Pushable>): seq<Expr> { if ps == [] then [] else [Rebuilt(ps[0])] + RebuiltAll(ps[1..]) }

  function RestConjuncts(e: Option<Expr>): seq<Expr> { if e.Some? then Conjuncts(e.value) else [] }

  lemma {:induction false} NormalsConcat(es: seq<Expr>, fs: seq<Expr>)
    ensures Normals(es + fs) == Normals(es) + Normals(fs)
    decreases |es|
  {
    if es == [] {
      assert es + fs == fs;
    } else {
      assert (es + fs)[1..] == es[1..] + fs;
      NormalsConcat(es[1..], fs);
    }
  }

  lemma {:induction false} RebuiltAllConcat(ps: seq<Pushable>, qs: seq<Pushable>)
    ensures RebuiltAll(ps + qs) == RebuiltAll(ps) + RebuiltAll(qs)
    decreases |ps|
  {
    if ps == [] {
      assert ps + qs == qs;
    } else {
      assert (ps + qs)[1..] == ps[1..] + qs;
      RebuiltAllConcat(ps[1..], qs);
    }
  }

  lemma RestBoth(l: Option<Expr>, r: Option<Expr>)
    ensures RestConjuncts(Both(l, r)) == RestConjuncts(l) + RestConjuncts(r)
  {
  }

  /** The split holds every conjunct of the tree exactly once. */
  lemma {:induction false} SplitKeepsConjuncts(e: Expr)
    ensures multiset(RebuiltAll(Analyze(e).pushable)) + multiset(RestConjuncts(Analyze(e).remaining)) ==
            multiset(Normals(Conjuncts(e)))
  {
    if e.And? {
      SplitKeepsConjuncts(e.left);
      SplitKeepsConjuncts(e.right);
      NormalsConcat(Conjuncts(e.left), Conjuncts(e.right));
      RebuiltAllConcat(Analyze(e.left).pushable, Analyze(e.right).pushable);
      RestBoth(Analyze(e.left).remaining, Analyze(e.right).remaining);
    } else {
      assert Normals([e]) == [Normal(e)];
      if e.Comparison? && TryExtract(e.op, e.left, e.right).Some? {
        assert RebuiltAll([TryExtract(e.op, e.left, e.right).value]) == [Normal(e)];
      }
    }
  }

  /** When no conjunct throws, the tree does not throw either, and it passes or drops a row as the split does. */
  lemma {:induction false} NoConjunctThrows(env: Env, e: Expr, row: Record)
    requires NoneThrows(env, Conjuncts(e), row)
    ensures Decide(env, e, row) == if SplitPasses(env, Analyze(e), row) then Pass else Drop
  {
    SplitKeepsMeaning(env, e, row);
    ConjunctsDecide(env, e, row);
  }

  ghost predicate NoneThrows(env: Env, es: seq<Expr>, row: Record) {
    forall i :: 0 <= i < |es| ==> Decide(env, es[i], row) != Throw
  }

  lemma NoneThrowsParts(env: Env, es: seq<Expr>, fs: seq<Expr>, row: Record)
    requires NoneThrows(env, es + fs, row)
    ensures NoneThrows(env, es, row) && NoneThrows(env, fs, row)
  {
    assert forall i :: 0 <= i < |es| ==> es[i] == (es + fs)[i];
    assert forall i :: 0 <= i < |fs| ==> fs[i] == (es + fs)[|es| + i];
  }

  lemma {:induction false} ConjunctsDecide(env: Env, e: Expr, row: Record)
    requires NoneThrows(env, Conjuncts(e), row)
    ensures Decide(env, e, row) != Throw
  {
    if e.And? {
      NoneThrowsParts(env, Conjuncts(e.left), Conjuncts(e.right), row);
      ConjunctsDecide(env, e.left, row);
      ConjunctsDecide(env, e.right, row);
      AndDecides(env, e.left, e.right, row);
    } else {
      assert Conjuncts(e)[0] == e;
    }
  }

  // ---------------------------------------------------------------- the scan

  /** The position of the predicate given to the index: the first equality, or the first of all. */
  function Best(ps: seq<Pushable>): (b: nat)
    requires ps != []
    ensures b < |ps|
    ensures ps[b].op.EQ? ==> forall i :: 0 <= i < b ==> !ps[i].op.EQ?
    ensures !ps[b].op.EQ? ==> b == 0 && forall i :: 0 <= i < |ps| ==> !ps[i].op.EQ?
  {
    FirstEquality(ps, 0)
  }

  function FirstEquality(ps: seq<Pushable>, from: nat): (b: nat)
    requires ps != [] && from <= |ps| && forall i :: 0 <= i < from ==> !ps[i].op.EQ?
    ensures b < |ps|
    ensures ps[b].op.EQ? ==> forall i :: 0 <= i < b ==> !ps[i].op.EQ?
    ensures !ps[b].op.EQ? ==> b == 0 && forall i :: 0 <= i < |ps| ==> !ps[i].op.EQ?
    decreases |ps| - from
  {
    if from == |ps| then 0 else if ps[from].op.EQ? then from else FirstEquality(ps, from + 1)
  }

  method ChooseBest(ps: seq<Pushable>) returns (best: Option<nat>)
    ensures ps == [] ==> best.None?
    ensures ps != [] ==> best == Some(Best(ps))
  {
    var equality: Option<nat>, range: Option<nat> := None, None;
    var i := 0;
    while i < |ps|
      invariant 0 <= i <= |ps|
      invariant equality.None? && forall k :: 0 <= k < i ==> !ps[k].op.EQ?
      invariant range == if i == 0 then None else Some(0)
      invariant ps != [] ==> Best(ps) == FirstEquality(ps, i)
    {
      if ps[i].op.EQ? {
        equality := Some(i);
        break;
      } else if range.None? {
        range := Some(i);
      }
      i := i + 1;
    }
    best := if equality.Some? then equality else range;
  }

  /** The left-leaning conjunction of all but the best predicate. */
  function Chain(ps: seq<Pushable>): Option<Expr> {
    if ps == [] then None
    else Both(Chain(ps[..|ps| - 1]), Some(Rebuilt(ps[|ps| - 1])))
  }

  function Others(ps: seq<Pushable>, best: nat): seq<Pushable>
    requires best < |ps|
  {
    ps[..best] + ps[best + 1..]
  }

  method RebuildFilter(ps: seq<Pushable>, best: nat) returns (filter: Option<Expr>)
    requires best < |ps|
    ensures filter == Chain(Others(ps, best))
  {
    var remaining: seq<Pushable> := [];
    var i := 0;
    while i < |ps|
      invariant 0 <= i <= |ps|
      invariant remaining == if i <= best then ps[..i] else ps[..best] + ps[best + 1..i]
    {
      if i != best { remaining := remaining + [ps[i]]; }
      i := i + 1;
    }
    assert remaining == Others(ps, best);
    filter := None;
    i := 0;
    while i < |remaining|
      invariant 0 <= i <= |remaining|
      invariant filter == Chain(remaining[..i])
    {
      assert remaining[..i + 1][..i] == remaining[..i];
      filter := if filter.Some? then Some(And(filter.value, Rebuilt(remaining[i]))) else Some(Rebuilt(remaining[i]));
      i := i + 1;
    }
    assert remaining[..|remaining|] == remaining;
  }

  lemma {:induction false} ChainPasses(env: Env, ps: seq<Pushable>, row: Record)
    ensures RestPasses(env, Chain(ps), row) <==> AllPass(env, ps, row)
    decreases |ps|
  {
    if ps != [] {
      var front, last := ps[..|ps| - 1], ps[|ps| - 1];
      ChainPasses(env, front, row);
      AllPassConcat(env, front, [last], row);
      assert ps == front + [last];
      OnePasses(env, last, row);
      if front != [] { AndPasses(env, Chain(front).value, Rebuilt(last), row); }
    }
  }

  /** The index predicate and the rebuilt filter together are all the predicates, each once. */
  lemma {:induction false} RebuildKeepsAll(env: Env, ps: seq<Pushable>, best: nat, row: Record)
    requires best < |ps|
    ensures Passes(env, Rebuilt(ps[best]), row) && RestPasses(env, Chain(Others(ps, best)), row)
            <==> AllPass(env, ps, row)
    ensures multiset(Others(ps, best)) + multiset{ps[best]} == multiset(ps)
  {
    ChainPasses(env, Others(ps, best), row);
    AllPassConcat(env, ps[..best], ps[best + 1..], row);
    AllPassConcat(env, ps[..best], [ps[best]] + ps[best + 1..], row);
    AllPassConcat(env, [ps[best]], ps[best + 1..], row);
    assert ps == ps[..best] + ([ps[best]] + ps[best + 1..]);
    OnePasses(env, ps[best], row);
  }
}
