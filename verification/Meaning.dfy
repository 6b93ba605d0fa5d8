/** What queries mean, and that folding keeps it.  Operators, base relations and
the relational operations are parameters: whatever they are, a rewrite that
succeeds means what the query did. */
module Meaning {
  import opened Basics
  import opened Ast
  import opened Subquery
  import opened CteScope

  // ------------------------------------------------------------------ denotations

  /** What the columns in sight stand for. */
  type Row = map<Name, Value>

  datatype Relation = Relation(columns: seq<Name>, rows: List<List<Value>>)

  /** Where an expression is evaluated: a row, enclosing queries' columns
  included, and the rows an aggregate ranges over. */
  datatype Context = Context(row: Row, group: List<Row>)

  /** An expression means a value in every context, a query a relation for every
  row of the queries around it. */
  type Col = imap<Context, Value>
  type Rel = imap<Row, Relation>

  ghost function At(d: Col, c: Context): Value { if c in d then d[c] else NullValue }
  ghost function RelAt(r: Rel, o: Row): Relation { if o in r then r[o] else Relation([], Nil) }
  /** The same whatever it is asked for. */
  function Always<T, C>(v: T, c: C): T { v }

  ghost function Const(v: Value): Col { imap c: Context | true :: Always(v, c) }
  ghost function ConstRel(r: Relation): Rel { imap o: Row | true :: Always(r, o) }

  datatype OrderCol = OrderCol(col: Col, asc: bool, nullsFirst: Option<bool>)
  datatype WindowCols = WindowCols(partitionBy: List<Col>, orderBy: List<OrderCol>, frame: Option<string>)
  datatype Branch = Branch(cond: Value, result: Value)
  datatype WhenCol = WhenCol(cond: Col, result: Col)
  datatype ItemCol = AllColumns | TableColumns(table: string) | Computed(col: Col, alias: Option<string>)
  datatype Matching = OnCol(col: Col) | OnNames(columns: List<string>) | Everything
  datatype SelectCols = SelectCols(
    distinct: bool, items: List<ItemCol>, from: Option<Rel>, prewhere: Option<Col>, selection: Option<Col>,
    groupBy: List<Col>, withTotals: bool, having: Option<Col>)
  datatype Ending = Ending(
    orderBy: List<OrderCol>, limit: Option<Col>, offset: Option<Col>, limitBy: Option<(Col, List<Col>)>)

  /** What the operators, the functions, the base relations and the clauses of a
  query do. */
  datatype Semantics = Semantics(
    column: (Name, Context) -> Value,
    star: Context -> Value,
    unary: (string, Value) -> Value,
    binary: (Value, string, Value) -> Value,
    cast: (Value, string) -> Value,
    interval: (Value, string) -> Value,
    between: (Value, Value, Value) -> Value,
    like: (Value, Value, bool) -> Value,
    tuple: List<Value> -> Value,
    choose: (Option<Value>, List<Branch>, Option<Value>) -> Value,
    call: (string, List<Col>, List<Col>, bool, Context) -> Value,
    window: (string, List<Col>, List<Col>, bool, WindowCols, Context) -> Value,
    base: (Name, bool) -> Relation,
    named: (Relation, Option<string>) -> Relation,
    join: (Relation, Relation, string, Matching, Row) -> Relation,
    select: (SelectCols, Row) -> Relation,
    combine: (string, bool, Relation, Relation) -> Relation,
    values: (List<List<Col>>, Row) -> Relation,
    finish: (Relation, Ending, Row) -> Relation)

  // ----------------------------------------------------- three-valued membership

  function Not(v: Value): Value { if v.Bool? then Bool(!v.holds) else v }

  function Negate(v: Value, negated: bool): Value { if negated then Not(v) else v }

  function Or(a: Value, b: Value): Value {
    if a == Bool(true) || b == Bool(true) then Bool(true)
    else if a == Bool(false) && b == Bool(false) then Bool(false)
    else NullValue
  }

  /** `v` equals one of `vs`, as far as `=` can tell. */
  function Member(s: Semantics, v: Value, vs: List<Value>): Value {
    match vs
    case Nil => Bool(false)
    case Cons(u, rest) => Or(s.binary(v, "=", u), Member(s, v, rest))
  }

  /** The first column. */
  function Firsts(rows: List<List<Value>>): List<Value> {
    match rows
    case Nil => Nil
    case Cons(r, rest) => Cons(if r.Nil? then NullValue else r.head, Firsts(rest))
  }

  /** A scalar subquery's one value, or NULL. */
  function One(vs: List<Value>): Value { if vs.Nil? then NullValue else vs.head }

  // ------------------------------------------------------------ pointwise meanings

  ghost function ValuesAt(ds: List<Col>, c: Context): List<Value> {
    match ds
    case Nil => Nil
    case Cons(d, rest) => Cons(At(d, c), ValuesAt(rest, c))
  }

  ghost function BranchesAt(ws: List<WhenCol>, c: Context): List<Branch> {
    match ws
    case Nil => Nil
    case Cons(w, rest) => Cons(Branch(At(w.cond, c), At(w.result, c)), BranchesAt(rest, c))
  }

  ghost function OptAt(d: Option<Col>, c: Context): Option<Value> { if d.Some? then Some(At(d.value, c)) else None }

  ghost function ColumnCol(s: Semantics, n: Name): Col { imap c: Context | true :: s.column(n, c) }
  ghost function StarCol(s: Semantics): Col { imap c: Context | true :: s.star(c) }
  ghost function UnaryCol(s: Semantics, op: string, a: Col): Col { imap c: Context | true :: s.unary(op, At(a, c)) }
  ghost function BinaryCol(s: Semantics, a: Col, op: string, b: Col): Col {
    imap c: Context | true :: s.binary(At(a, c), op, At(b, c))
  }
  ghost function CastCol(s: Semantics, a: Col, ty: string): Col { imap c: Context | true :: s.cast(At(a, c), ty) }
  ghost function IntervalCol(s: Semantics, a: Col, unit: string): Col {
    imap c: Context | true :: s.interval(At(a, c), unit)
  }
  ghost function NullCol(a: Col, negated: bool): Col { imap c: Context | true :: Bool((At(a, c) == NullValue) != negated) }
  ghost function BetweenCol(s: Semantics, a: Col, lo: Col, hi: Col, negated: bool): Col {
    imap c: Context | true :: Negate(s.between(At(a, c), At(lo, c), At(hi, c)), negated)
  }
  ghost function LikeCol(s: Semantics, a: Col, p: Col, negated: bool, ci: bool): Col {
    imap c: Context | true :: Negate(s.like(At(a, c), At(p, c), ci), negated)
  }
  ghost function TupleCol(s: Semantics, ds: List<Col>): Col { imap c: Context | true :: s.tuple(ValuesAt(ds, c)) }
  ghost function CaseCol(s: Semantics, op: Option<Col>, ws: List<WhenCol>, els: Option<Col>): Col {
    imap c: Context | true :: s.choose(OptAt(op, c), BranchesAt(ws, c), OptAt(els, c))
  }
  ghost function CallCol(s: Semantics, f: string, args: List<Col>, params: List<Col>, distinct: bool): Col {
    imap c: Context | true :: s.call(f, args, params, distinct, c)
  }
  ghost function WindowCol(s: Semantics, f: string, args: List<Col>, params: List<Col>, distinct: bool, w: WindowCols): Col {
    imap c: Context | true :: s.window(f, args, params, distinct, w, c)
  }

  /** `x IN (e1, e2, ...)`. */
  ghost function InListCol(s: Semantics, a: Col, ds: List<Col>, negated: bool): Col {
    imap c: Context | true :: Negate(Member(s, At(a, c), ValuesAt(ds, c)), negated)
  }

  /** `x IN (SELECT ...)`: the subquery is run for the row at hand. */
  ghost function InRelCol(s: Semantics, a: Col, r: Rel, negated: bool): Col {
    imap c: Context | true :: Negate(Member(s, At(a, c), Firsts(RelAt(r, c.row).rows)), negated)
  }

  ghost function ExistsCol(r: Rel, negated: bool): Col {
    imap c: Context | true :: Bool(RelAt(r, c.row).rows.Cons? != negated)
  }

  ghost function ScalarCol(r: Rel): Col { imap c: Context | true :: One(Firsts(RelAt(r, c.row).rows)) }

  ghost function NamedRel(s: Semantics, r: Rel, alias: Option<string>): Rel {
    imap o: Row | true :: s.named(RelAt(r, o), alias)
  }
  ghost function JoinRel(s: Semantics, l: Rel, r: Rel, op: string, on: Matching): Rel {
    imap o: Row | true :: s.join(RelAt(l, o), RelAt(r, o), op, on, o)
  }
  ghost function SelectRel(s: Semantics, sel: SelectCols): Rel { imap o: Row | true :: s.select(sel, o) }
  ghost function CombineRel(s: Semantics, op: string, all: bool, l: Rel, r: Rel): Rel {
    imap o: Row | true :: s.combine(op, all, RelAt(l, o), RelAt(r, o))
  }
  ghost function ValuesRel(s: Semantics, rows: List<List<Col>>): Rel { imap o: Row | true :: s.values(rows, o) }
  ghost function FinishRel(s: Semantics, r: Rel, end: Ending): Rel { imap o: Row | true :: s.finish(RelAt(r, o), end, o) }

  // ----------------------------------------------------------------------- meaning

  /** A CTE in scope: the name as declared and what it means. */
  datatype Binding = Binding(name: string, rel: Rel)

  type Scope = map<string, Binding>

  ghost function MeansQuery(q: Query, s: Semantics, scope: Scope): Rel
    decreases q, 1
  {
    var inner := Bind(q.with, s, scope);
    FinishRel(s, MeansSet(q.body, s, inner),
      Ending(MeansOrders(q.orderBy, s, inner), MeansOpt(q.limit, s, inner), MeansOpt(q.offset, s, inner),
        MeansLimitBy(q.limitBy, s, inner)))
  }

  ghost function MeansLimitBy(lb: Option<LimitBy>, s: Semantics, scope: Scope): Option<(Col, List<Col>)>
    decreases lb, 0
  {
    match lb
    case None => None
    case Some(l) => Some((MeansExpr(l.n, s, scope), MeansExprs(l.keys, s, scope)))
  }

  /** Each CTE sees the ones before it; a later one of the same name shadows. */
  ghost function Bind(cs: List<Cte>, s: Semantics, scope: Scope): Scope
    decreases cs, 0
  {
    match cs
    case Nil => scope
    case Cons(c, rest) => Bind(rest, s, scope[Lower(c.name) := Binding(c.name, MeansQuery(c.query, s, scope))])
  }

  ghost function MeansSet(e: SetExpr, s: Semantics, scope: Scope): Rel
    decreases e, 0
  {
    match e
    case Plain(sel) =>
      SelectRel(s, SelectCols(
        sel.distinct, MeansItems(sel.projection, s, scope), MeansFrom(sel.from, s, scope),
        MeansOpt(sel.prewhere, s, scope), MeansOpt(sel.selection, s, scope), MeansExprs(sel.groupBy, s, scope),
        sel.withTotals, MeansOpt(sel.having, s, scope)))
    case Nested(q) => MeansQuery(q, s, scope)
    case SetOperation(op, all, l, r) => CombineRel(s, op, all, MeansSet(l, s, scope), MeansSet(r, s, scope))
    case Values(rows) => ValuesRel(s, MeansRows(rows, s, scope))
  }

  ghost function MeansFrom(f: Option<TableRef>, s: Semantics, scope: Scope): Option<Rel>
    decreases f, 0
  {
    match f
    case None => None
    case Some(t) => Some(MeansTable(t, s, scope))
  }

  /** A CTE shadows any relation of its name; a relation named otherwise is what
  the database says. */
  ghost function MeansTable(t: TableRef, s: Semantics, scope: Scope): Rel
    decreases t, 0
  {
    match t
    case Table(n, alias, final) =>
      if Bound(n, scope.Keys) then
        var b := scope[Lower(Last(n))];
        NamedRel(s, b.rel, Some(if alias.Some? then alias.value else b.name))
      else
        NamedRel(s, ConstRel(s.base(n, final)), Some(if alias.Some? then alias.value else Last(n)))
    case Derived(q, alias) => NamedRel(s, MeansQuery(q, s, scope), alias)
    case Join(l, r, op, on) =>
      JoinRel(s, MeansTable(l, s, scope), MeansTable(r, s, scope), op,
        match on
        case On(e) => OnCol(MeansExpr(e, s, scope))
        case Using(columns) => OnNames(columns)
        case NoConstraint => Everything)
  }

  ghost function MeansItems(items: List<SelectItem>, s: Semantics, scope: Scope): List<ItemCol>
    decreases items, 0
  {
    match items
    case Nil => Nil
    case Cons(i, rest) =>
      Cons(match i
           case Star => AllColumns
           case QualifiedStar(t) => TableColumns(t)
           case Item(e, alias) => Computed(MeansExpr(e, s, scope), alias),
        MeansItems(rest, s, scope))
  }

  ghost function MeansOrders(os: List<OrderBy>, s: Semantics, scope: Scope): List<OrderCol>
    decreases os, 0
  {
    match os
    case Nil => Nil
    case Cons(o, rest) => Cons(OrderCol(MeansExpr(o.expr, s, scope), o.asc, o.nullsFirst), MeansOrders(rest, s, scope))
  }

  ghost function MeansExprs(es: List<Expr>, s: Semantics, scope: Scope): List<Col>
    decreases es, 0
  {
    match es
    case Nil => Nil
    case Cons(e, rest) => Cons(MeansExpr(e, s, scope), MeansExprs(rest, s, scope))
  }

  ghost function MeansRows(rows: List<List<Expr>>, s: Semantics, scope: Scope): List<List<Col>>
    decreases rows, 0
  {
    match rows
    case Nil => Nil
    case Cons(r, rest) => Cons(MeansExprs(r, s, scope), MeansRows(rest, s, scope))
  }

  ghost function MeansWhens(ws: List<When>, s: Semantics, scope: Scope): List<WhenCol>
    decreases ws, 0
  {
    match ws
    case Nil => Nil
    case Cons(w, rest) =>
      Cons(WhenCol(MeansExpr(w.cond, s, scope), MeansExpr(w.result, s, scope)), MeansWhens(rest, s, scope))
  }

  ghost function MeansOpt(e: Option<Expr>, s: Semantics, scope: Scope): Option<Col>
    decreases e, 0
  {
    match e
    case None => None
    case Some(x) => Some(MeansExpr(x, s, scope))
  }

  ghost function MeansWindow(w: Window, s: Semantics, scope: Scope): WindowCols
    decreases w, 0
  {
    WindowCols(MeansExprs(w.partitionBy, s, scope), MeansOrders(w.orderBy, s, scope), w.frame)
  }

  ghost function MeansExpr(e: Expr, s: Semantics, scope: Scope): Col
    decreases e, 0
  {
    match e
    case Literal(v) => Const(v)
    case Column(n) => ColumnCol(s, n)
    case Wildcard => StarCol(s)
    case UnaryOp(op, x) => UnaryCol(s, op, MeansExpr(x, s, scope))
    case BinaryOp(l, op, r) => BinaryCol(s, MeansExpr(l, s, scope), op, MeansExpr(r, s, scope))
    case Function(f, args, params, distinct) =>
      CallCol(s, f, MeansExprs(args, s, scope), MeansExprs(params, s, scope), distinct)
    case WindowCall(f, args, params, distinct, w) =>
      WindowCol(s, f, MeansExprs(args, s, scope), MeansExprs(params, s, scope), distinct, MeansWindow(w, s, scope))
    case Cast(x, ty) => CastCol(s, MeansExpr(x, s, scope), ty)
    case Case(op, ws, els) => CaseCol(s, MeansOpt(op, s, scope), MeansWhens(ws, s, scope), MeansOpt(els, s, scope))
    case InList(x, list, negated) => InListCol(s, MeansExpr(x, s, scope), MeansExprs(list, s, scope), negated)
    case InSubquery(x, q, negated) => InRelCol(s, MeansExpr(x, s, scope), MeansQuery(q, s, scope), negated)
    case Between(x, lo, hi, negated) =>
      BetweenCol(s, MeansExpr(x, s, scope), MeansExpr(lo, s, scope), MeansExpr(hi, s, scope), negated)
    case Like(x, p, negated, ci) => LikeCol(s, MeansExpr(x, s, scope), MeansExpr(p, s, scope), negated, ci)
    case IsNull(x, negated) => NullCol(MeansExpr(x, s, scope), negated)
    case Tuple(items) => TupleCol(s, MeansExprs(items, s, scope))
    case Scalar(q) => ScalarCol(MeansQuery(q, s, scope))
    case Exists(q, negated) => ExistsCol(MeansQuery(q, s, scope), negated)
    case Interval(x, unit) => IntervalCol(s, MeansExpr(x, s, scope), unit)
  }
}
