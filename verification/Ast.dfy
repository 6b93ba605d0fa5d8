/** Queries as the planner sees them. */
module Ast {
  import opened Basics

  datatype List<T> = Nil | Cons(head: T, tail: List<T>)

  type Name = seq<string>

  datatype Value = NullValue | Bool(holds: bool) | Number(n: int) | Text(s: string)

  datatype OrderBy = OrderBy(expr: Expr, asc: bool, nullsFirst: Option<bool>)
  datatype When = When(cond: Expr, result: Expr)
  datatype Window = Window(partitionBy: List<Expr>, orderBy: List<OrderBy>, frame: Option<string>)

  datatype Expr =
    | Literal(value: Value)
    | Column(name: Name)
    | Wildcard
    | UnaryOp(op: string, expr: Expr)
    | BinaryOp(left: Expr, bop: string, right: Expr)
    | Function(fname: string, args: List<Expr>, params: List<Expr>, distinct: bool)
    | WindowCall(fname: string, args: List<Expr>, params: List<Expr>, distinct: bool, spec: Window)
    | Cast(expr: Expr, ty: string)
    | Case(operand: Option<Expr>, whenThen: List<When>, elseResult: Option<Expr>)
    | InList(expr: Expr, list: List<Expr>, negated: bool)
    | InSubquery(expr: Expr, subquery: Query, negated: bool)
    | Between(expr: Expr, low: Expr, high: Expr, negated: bool)
    | Like(expr: Expr, pattern: Expr, negated: bool, caseInsensitive: bool)
    | IsNull(expr: Expr, negated: bool)
    | Tuple(items: List<Expr>)
    | Scalar(subquery: Query)
    | Exists(subquery: Query, negated: bool)
    | Interval(expr: Expr, unit: string)

  datatype SelectItem = Star | QualifiedStar(table: string) | Item(expr: Expr, alias: Option<string>)

  datatype JoinConstraint = On(expr: Expr) | Using(columns: List<string>) | NoConstraint

  datatype TableRef =
    | Table(name: Name, alias: Option<string>, final: bool)
    | Derived(query: Query, alias: Option<string>)
    | Join(left: TableRef, right: TableRef, op: string, constraint: JoinConstraint)

  datatype Select = Select(
    distinct: bool, projection: List<SelectItem>, from: Option<TableRef>, prewhere: Option<Expr>,
    selection: Option<Expr>, groupBy: List<Expr>, withTotals: bool, having: Option<Expr>)

  datatype SetExpr =
    | Plain(select: Select)
    | Nested(query: Query)
    | SetOperation(op: string, all: bool, left: SetExpr, right: SetExpr)
    | Values(rows: List<List<Expr>>)

  datatype Cte = Cte(name: string, query: Query)
  datatype LimitBy = LimitBy(n: Expr, keys: List<Expr>)

  datatype Query = Query(
    with: List<Cte>, body: SetExpr, orderBy: List<OrderBy>, limit: Option<Expr>, offset: Option<Expr>,
    limitBy: Option<LimitBy>)

  function Last(n: Name): string { if n == [] then "" else n[|n| - 1] }
  function Qualifier(n: Name): Option<string> { if |n| >= 2 then Some(n[|n| - 2]) else None }
}
