/** Plans as chains of operators: what draining a pushed-down plan yields. */
module PlanOperators {
  import opened Expressions
  import opened Operators
  import opened Pushdown
  import opened PushdownExactly
  import opened PushdownPlan
  import opened RowLists
  import opened Values

  /** The operators of a plan; the rows to come are those of the plan. */
  method Build(env: Env, plan: Plan) returns (op: Operator)
    ensures op.Valid() && fresh(op.Repr) && op.Contents() == Rows(env, plan)
  {
    if plan.Filtered? {
      var below := Build(env, plan.child);
      op := new Operator.Above(Filter(Passing(env, plan.condition)), below);
    } else if plan.Each? {
      var below := Build(env, plan.child);
      op := new Operator.Above(Spread(plan.step), below);
    } else {
      op := new Operator.FromRows(Rows(env, plan));
    }
  }

  /** Draining the plan with the WHERE pushed down, and draining a filter over the whole plan: the lists are the same
      exactly if the push-down keeps the rows. */
  method RunWhere(env: Env, find: Finder, plan: Plan, e: Expr) returns (pushed: seq<Record>, filtered: seq<Record>)
    ensures pushed == Rows(env, Where(find, plan, e)) && filtered == Keep(Passing(env, e), Rows(env, plan))
    ensures pushed == filtered <==> Kept(env, find, plan, e)
  {
    var op := Build(env, Where(find, plan, e));
    pushed := Drain(op);
    op := Build(env, Filtered(e, plan));
    filtered := Drain(op);
  }
}
