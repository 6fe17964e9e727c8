/** WHERE expressions and their evaluation, src/cypher/expression_evaluator.cc. */
module Expressions {
  import opened Decimal
  import opened Tokens
  import opened Values
  import opened Wrappers

  type Record = map<string, Value>

  datatype Op = EQ | NE | LT | GT | LE | GE

  /** Arithmetic, function calls, parameters and literals of lists and maps are `Other`: the environment evaluates
      them. */
  datatype Expr =
    | Literal(value: Value)
    | Variable(name: string)
    | Property(variable: string, property: string)
    | Comparison(op: Op, left: Expr, right: Expr)
    | And(left: Expr, right: Expr)
    | Or(left: Expr, right: Expr)
    | Not(operand: Expr)
    | Other(id: nat)

  /** What evaluation takes from outside: bindings, character case, the rounding of integers to doubles and the text of
      a value. */
  datatype Env = Env(
    variables: Record,
    parameters: Record,
    upper: string -> string,
    lower: string -> string,
    toDouble: int -> Float,
    toText: Value -> string,
    other: (nat, Record) -> Option<Value>)

  function Lookup(es: seq<Entry>, key: string): Option<Value> {
    if es == [] then None else if es[0].key == key then Some(es[0].value) else Lookup(es[1..], key)
  }

  function VariableValue(env: Env, name: string, row: Record): Value {
    if name in row then row[name]
    else if name in env.variables then env.variables[name]
    else if name in env.parameters then env.parameters[name]
    else Null
  }

  function OrNull(v: Option<Value>): Value { if v.Some? then v.value else Null }

  function PropertyOf(env: Env, v: Value, property: string): Value {
    match v
    case NodeValue(n) => OrNull(Lookup(n.properties, property))
    case Map(es) => OrNull(Lookup(es, property))
    case Str(s) =>
      if property == "length" || property == "size" then Int(|s|)
      else if property == "toUpper" then Str(env.upper(s))
      else if property == "toLower" then Str(env.lower(s))
      else Null
    case _ => Null
  }

  // ---------------------------------------------------------------- comparison

  function AsDouble(env: Env, v: Value): Option<Float> {
    if v.Float? then Some(v.f) else if v.Int? then Some(env.toDouble(v.i)) else None
  }

  function FloatCmp(a: Float, b: Float): int { if FloatLt(a, b) then -1 else if FloatLt(b, a) then 1 else 0 }

  /** `CompareValues` of two values that are not null; None when reading a non-number as a number throws. */
  function CompareValues(env: Env, a: Value, b: Value): Option<int> {
    if a.Int? && b.Int? then Some(CmpInt(a.i, b.i))
    else if a.Float? || b.Float? then
      var x, y := AsDouble(env, a), AsDouble(env, b);
      if x.None? || y.None? then None else Some(FloatCmp(x.value, y.value))
    else if a.Str? && b.Str? then Some(CmpText(a.s, b.s))
    else if a.Bool? && b.Bool? then Some(if a.b == b.b then 0 else if a.b then 1 else -1)
    else Some(CmpText(env.toText(a), env.toText(b)))
  }

  predicate Holds(op: Op, c: int) {
    match op
    case EQ => c == 0
    case NE => c != 0
    case LT => c < 0
    case GT => c > 0
    case LE => c <= 0
    case GE => c >= 0
  }

  /** With a null on one side or both, EQ is false, NE is true and the rest are null. */
  function Compare(env: Env, op: Op, a: Value, b: Value): Option<Value> {
    if a.Null? || b.Null? then
      Some(if op.EQ? then Bool(false) else if op.NE? then Bool(true) else Null)
    else
      var c := CompareValues(env, a, b);
      if c.None? then None else Some(Bool(Holds(op, c.value)))
  }

  // ---------------------------------------------------------------- evaluation

  /** None is an exception: a comparison that throws, or a value that is neither null nor a boolean read as a
      boolean. */
  function Evaluate(env: Env, e: Expr, row: Record): Option<Value> {
    match e
    case Literal(v) => Some(v)
    case Variable(name) => Some(VariableValue(env, name, row))
    case Property(v, p) => Some(PropertyOf(env, VariableValue(env, v, row), p))
    case Comparison(op, l, r) =>
      var a := Evaluate(env, l, row);
      if a.None? then None
      else
        var b := Evaluate(env, r, row);
        if b.None? then None else Compare(env, op, a.value, b.value)
    case And(l, r) =>
      var a := Evaluate(env, l, row);
      if a.None? || !Logical(a.value) then None
      else if a.value == Bool(false) then a
      else
        var b := Evaluate(env, r, row);
        if b.None? || !Logical(b.value) then None
        else if b.value == Bool(false) then b
        else if a.value.Null? || b.value.Null? then Some(Null)
        else Some(Bool(true))
    case Or(l, r) =>
      var a := Evaluate(env, l, row);
      if a.None? || !Logical(a.value) then None
      else if a.value == Bool(true) then a
      else
        var b := Evaluate(env, r, row);
        if b.None? || !Logical(b.value) then None
        else if b.value == Bool(true) then b
        else if a.value.Null? || b.value.Null? then Some(Null)
        else Some(Bool(false))
    case Not(x) =>
      var a := Evaluate(env, x, row);
      if a.None? || !Logical(a.value) then None
      else if a.value.Null? then Some(Null)
      else Some(Bool(!a.value.b))
    case Other(id) => env.other(id, row)
  }

  predicate Logical(v: Value) { v.Null? || v.Bool? }

  /** What a filter does with a row. */
  datatype Outcome = Pass | Drop | Throw

  /** `Filter::EvaluatePredicate`. */
  function Decide(env: Env, e: Expr, row: Record): Outcome {
    var v := Evaluate(env, e, row);
    if v.None? || !Logical(v.value) then Throw else if v.value == Bool(true) then Pass else Drop
  }

  predicate Passes(env: Env, e: Expr, row: Record) { Decide(env, e, row) == Pass }

  /** In three-valued logic a conjunction passes exactly when both sides do. */
  lemma AndPasses(env: Env, l: Expr, r: Expr, row: Record)
    ensures Passes(env, And(l, r), row) <==> Passes(env, l, row) && Passes(env, r, row)
  {
  }

  /** A conjunction drops a row or throws as its sides do, left first. */
  lemma AndDecides(env: Env, l: Expr, r: Expr, row: Record)
    requires Decide(env, l, row) != Throw && Decide(env, r, row) != Throw
    ensures Decide(env, And(l, r), row) == if Passes(env, l, row) && Passes(env, r, row) then Pass else Drop
  {
  }

  // ---------------------------------------------------------------- flipping

  function Flip(op: Op): (f: Op)
    ensures forall c: int :: Holds(f, c) <==> Holds(op, -c)
  {
    match op
    case LT => GT
    case GT => LT
    case LE => GE
    case GE => LE
    case _ => op
  }

  function Negated(c: Option<int>): Option<int> { if c.Some? then Some(-c.value) else None }

  lemma {:induction false} CompareOpposite(env: Env, a: Value, b: Value)
    ensures CompareValues(env, b, a) == Negated(CompareValues(env, a, b))
  {
    if a.Str? && b.Str? { BeforeTotal(a.s, b.s); }
    BeforeTotal(env.toText(a), env.toText(b));
    if a.Float? || b.Float? {
      var x, y := AsDouble(env, a), AsDouble(env, b);
      if x.Some? && y.Some? { FloatCmpOpposite(x.value, y.value); }
    }
  }

  lemma FloatCmpOpposite(a: Float, b: Float)
    ensures FloatCmp(b, a) == -FloatCmp(a, b)
  {
  }

  /** Exchanging the sides and flipping the operator changes nothing, exceptions included. */
  lemma {:induction false} FlippedComparison(env: Env, op: Op, a: Value, b: Value)
    ensures Compare(env, Flip(op), b, a) == Compare(env, op, a, b)
  {
    CompareOpposite(env, a, b);
  }
}
