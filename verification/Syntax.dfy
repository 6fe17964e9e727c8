/** The syntax trees of a query, include/cedar/cypher/ast.h. */
module Syntax {
  import Expressions
  import Temporal
  import Values
  import opened Wrappers

  datatype Expr =
    | Literal(value: Values.Value)
    | Variable(name: string)
    | Property(variable: string, property: string)
    | Comparison(op: Expressions.Op, left: Expr, right: Expr)
    | And(left: Expr, right: Expr)
    | Or(left: Expr, right: Expr)
    | Not(operand: Expr)
    | Arithmetic(sign: char, left: Expr, right: Expr)
    | Call(name: string, arguments: seq<Expr>)
    | Listed(elements: seq<Expr>)
    | Parameter(name: string)

  /** A variable that is not given is the empty string. */
  datatype Element =
    | NodePattern(variable: string, labels: seq<string>, properties: map<string, Expr>)
    | RelPattern(variable: string, incoming: bool, types: seq<string>, minHops: Option<nat>, maxHops: Option<nat>)

  type Path = seq<Element>

  datatype Item = Item(expression: Expr, alias: Option<string>)

  datatype SortItem = SortItem(expression: Expr, ascending: bool)

  datatype Change =
    | Add(property: string, kind: string)
    | Drop(property: string)
    | Rename(property: string, name: string)
    | Modify(property: string, kind: string)

  /** ALTER TAG and ALTER EDGE give the same tree. */
  datatype Clause =
    | Match(patterns: seq<Path>, optional: bool)
    | Create(patterns: seq<Path>)
    | Merge(patterns: seq<Path>)
    | Return(items: seq<Item>, distinct: bool)
    | With(items: seq<Item>, distinct: bool)
    | Where(condition: Option<Expr>)
    | OrderBy(keys: seq<SortItem>)
    | Limit(count: Expr)
    | Skipped(count: Expr)
    | Set(settings: seq<(Expr, Expr)>)
    | Delete(names: seq<string>)
    | Unwind(expression: Expr, alias: string)
    | Show(what: string, space: string)
    | Use(space: string)
    | Alter(target: string, change: Change)
    | Union(all: bool, right: Statement)
    | Subquery(body: Statement)

  datatype Statement = Statement(clauses: seq<Clause>, temporal: Option<Temporal.Clause>)
}
