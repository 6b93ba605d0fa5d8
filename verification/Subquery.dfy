/** Folding subqueries, views and system tables into a query, and the walk that
decides whether there is anything to fold. */
module Subquery {
  import opened Basics
  import opened Ast

  /** What running a subquery on its own comes to. */
  datatype Eval = Rows(values: List<Value>) | Correlated | Fails

  /** What the rewrite consults: the views, the current database, the tables
  there really are, the system tables' contents and the executor. */
  datatype Env = Env(
    views: map<string, Query>, db: string, tables: set<string>,
    derive: Name -> Option<Query>, eval: (Query, bool) -> Eval)

  /** A rewritten value and the folding budget left. */
  datatype Res<T> = Ok(value: T, left: nat) | Err

  // ---------------------------------------------------------------------- names

  function LowerChar(c: char): char { if 'A' <= c <= 'Z' then ((c as int) + 32) as char else c }

  function Lower(s: string): string { seq(|s|, i requires 0 <= i < |s| => LowerChar(s[i])) }

  predicate SystemQualifier(q: string) { Lower(q) == "system" || Lower(q) == "information_schema" }

  /** A virtual table: one of ours by name, unless the user has a real one. */
  predicate IsVirtual(n: Name, env: Env) {
    var q := Qualifier(n);
    && q.Some?
    && (if Lower(q.value) == "system"
        then Lower(Last(n)) in {"tables", "parts", "columns", "settings", "query_log", "wal"}
        else Lower(q.value) == "information_schema" && Lower(Last(n)) in {"tables", "columns"})
    && q.value + "." + Last(n) !in env.tables
  }

  function ViewKey(n: Name, db: string): string {
    (if Qualifier(n).Some? then Qualifier(n).value else db) + "." + Last(n)
  }

  function ViewOf(n: Name, env: Env): Option<Query> {
    if ViewKey(n, env.db) in env.views then Some(env.views[ViewKey(n, env.db)]) else None
  }

  /** `c` and `d` are the two cases of one letter. */
  predicate TwoCases(c: char, d: char) { 'A' <= c <= 'Z' && d as int == c as int + 32 }

  lemma {:induction false} LowerIff(a: string, b: string)
    ensures Lower(a) == Lower(b) <==>
      |a| == |b| && forall i :: 0 <= i < |a| ==> a[i] == b[i] || TwoCases(a[i], b[i]) || TwoCases(b[i], a[i])
  {
    forall i | 0 <= i < |a| && |a| == |b|
      ensures Lower(a)[i] == Lower(b)[i] <==> a[i] == b[i] || TwoCases(a[i], b[i]) || TwoCases(b[i], a[i])
    {
    }
    if Lower(a) == Lower(b) { assert |Lower(a)| == |Lower(b)|; }
  }

  const Virtual: set<(string, string)> := {
    ("system", "tables"), ("system", "parts"), ("system", "columns"), ("system", "settings"), ("system", "query_log"),
    ("system", "wal"), ("information_schema", "tables"), ("information_schema", "columns")}

  /** Which names are views and which are virtual tables: a view is found by its
  qualifier or the current database, a virtual table only by its qualifier,
  whatever its case, and only if no real table bears the name. */
  lemma {:induction false} NamesMean(q: string, n: string, env: Env)
    ensures ViewOf([n], env) == if env.db + "." + n in env.views then Some(env.views[env.db + "." + n]) else None
    ensures ViewOf([q, n], env) == if q + "." + n in env.views then Some(env.views[q + "." + n]) else None
    ensures !IsVirtual([n], env)
    ensures IsVirtual([q, n], env) <==> (Lower(q), Lower(n)) in Virtual && q + "." + n !in env.tables
  {
    assert "system" != "information_schema" by { assert |"system"| == 6 && |"information_schema"| == 18; }
  }

  // --------------------------------------------------------------------- detector

  predicate HasQuery(q: Query, env: Env) {
    || HasCtes(q.with, env)
    || HasSet(q.body, env)
    || HasOrders(q.orderBy)
    || HasOpt(q.limit) || HasOpt(q.offset)
    || (q.limitBy.Some? && (HasExpr(q.limitBy.value.n) || HasExprs(q.limitBy.value.keys)))
  }

  predicate HasCtes(cs: List<Cte>, env: Env) { cs.Cons? && (HasQuery(cs.head.query, env) || HasCtes(cs.tail, env)) }

  predicate HasSet(s: SetExpr, env: Env) {
    match s
    case Plain(sel) =>
      || HasItems(sel.projection)
      || (sel.from.Some? && HasTable(sel.from.value, env))
      || HasOpt(sel.prewhere) || HasOpt(sel.selection) || HasOpt(sel.having)
      || HasExprs(sel.groupBy)
    case Nested(q) => HasQuery(q, env)
    case SetOperation(_, _, l, r) => HasSet(l, env) || HasSet(r, env)
    case Values(rows) => HasRows(rows)
  }

  predicate HasTable(t: TableRef, env: Env) {
    match t
    case Table(n, _, _) => (Qualifier(n).Some? && SystemQualifier(Qualifier(n).value)) || ViewOf(n, env).Some?
    case Derived(q, _) => HasQuery(q, env)
    case Join(l, r, _, c) => HasTable(l, env) || HasTable(r, env) || (c.On? && HasExpr(c.expr))
  }

  predicate HasItems(items: List<SelectItem>) {
    items.Cons? && ((items.head.Item? && HasExpr(items.head.expr)) || HasItems(items.tail))
  }

  predicate HasOrders(os: List<OrderBy>) { os.Cons? && (HasExpr(os.head.expr) || HasOrders(os.tail)) }
  predicate HasExprs(es: List<Expr>) { es.Cons? && (HasExpr(es.head) || HasExprs(es.tail)) }
  predicate HasRows(rows: List<List<Expr>>) { rows.Cons? && (HasExprs(rows.head) || HasRows(rows.tail)) }
  predicate HasWhens(ws: List<When>) { ws.Cons? && (HasExpr(ws.head.cond) || HasExpr(ws.head.result) || HasWhens(ws.tail)) }
  predicate HasOpt(e: Option<Expr>) { e.Some? && HasExpr(e.value) }

  predicate HasExpr(e: Expr) {
    match e
    case Scalar(_) => true
    case InSubquery(_, _, _) => true
    case Exists(_, _) => true
    case Literal(_) => false
    case Column(_) => false
    case Wildcard => false
    case UnaryOp(_, x) => HasExpr(x)
    case Cast(x, _) => HasExpr(x)
    case IsNull(x, _) => HasExpr(x)
    case Interval(x, _) => HasExpr(x)
    case BinaryOp(l, _, r) => HasExpr(l) || HasExpr(r)
    case Function(_, args, params, _) => HasExprs(args) || HasExprs(params)
    case WindowCall(_, args, params, _, spec) =>
      HasExprs(args) || HasExprs(params) || HasExprs(spec.partitionBy) || HasOrders(spec.orderBy)
    case Case(op, ws, els) => HasOpt(op) || HasWhens(ws) || HasOpt(els)
    case InList(x, list, _) => HasExpr(x) || HasExprs(list)
    case Between(x, lo, hi, _) => HasExpr(x) || HasExpr(lo) || HasExpr(hi)
    case Like(x, p, _, _) => HasExpr(x) || HasExpr(p)
    case Tuple(items) => HasExprs(items)
  }

  // ----------------------------------------------------------------------- rewrite

  /** Values a subquery came to, as literals. */
  function Literals(vs: List<Value>): List<Expr> {
    match vs
    case Nil => Nil
    case Cons(v, rest) => Cons(Literal(v), Literals(rest))
  }

  /** Run a subquery against the budget; `scalar` allows at most one row. */
  function RunSub(q: Query, env: Env, left: nat, scalar: bool): Res<Option<List<Value>>> {
    if left == 0 then Err
    else
      match env.eval(q, scalar)
      case Fails => Err
      case Correlated => Ok(None, left - 1)
      case Rows(vs) => if scalar && vs.Cons? && vs.tail.Cons? then Err else Ok(Some(vs), left - 1)
  }

  function RwQuery(q: Query, env: Env, left: nat): (r: Res<Query>)
    ensures r.Ok? ==> r.left <= left
    decreases left, q, 1
  {
    var a := RwCtes(q.with, env, left);
    if a.Err? then Err else
    var b := RwSet(q.body, env, a.left);
    if b.Err? then Err else
    var c := RwOrders(q.orderBy, env, b.left);
    if c.Err? then Err else
    var d := RwOpt(q.limit, env, c.left);
    if d.Err? then Err else
    var e := RwOpt(q.offset, env, d.left);
    if e.Err? then Err else
    if q.limitBy.None? then Ok(Query(a.value, b.value, c.value, d.value, e.value, None), e.left) else
    var n := RwExpr(q.limitBy.value.n, env, e.left);
    if n.Err? then Err else
    var k := RwExprs(q.limitBy.value.keys, env, n.left);
    if k.Err? then Err else
    Ok(Query(a.value, b.value, c.value, d.value, e.value, Some(LimitBy(n.value, k.value))), k.left)
  }

  function RwCtes(cs: List<Cte>, env: Env, left: nat): (r: Res<List<Cte>>)
    ensures r.Ok? ==> r.left <= left
    decreases left, cs, 0
  {
    match cs
    case Nil => Ok(Nil, left)
    case Cons(c, rest) =>
      var q := RwQuery(c.query, env, left);
      if q.Err? then Err else
      var more := RwCtes(rest, env, q.left);
      if more.Err? then Err else Ok(Cons(Cte(c.name, q.value), more.value), more.left)
  }

  function RwSet(s: SetExpr, env: Env, left: nat): (r: Res<SetExpr>)
    ensures r.Ok? ==> r.left <= left
    decreases left, s, 0
  {
    match s
    case Plain(sel) =>
      var p := RwItems(sel.projection, env, left);
      if p.Err? then Err else
      var f := RwFrom(sel.from, env, p.left);
      if f.Err? then Err else
      var w := RwOpt(sel.prewhere, env, f.left);
      if w.Err? then Err else
      var x := RwOpt(sel.selection, env, w.left);
      if x.Err? then Err else
      var h := RwOpt(sel.having, env, x.left);
      if h.Err? then Err else
      var g := RwExprs(sel.groupBy, env, h.left);
      if g.Err? then Err else
      Ok(Plain(Select(sel.distinct, p.value, f.value, w.value, x.value, g.value, sel.withTotals, h.value)), g.left)
    case Nested(q) =>
      var x := RwQuery(q, env, left);
      if x.Err? then Err else Ok(Nested(x.value), x.left)
    case SetOperation(op, all, l, r) =>
      var a := RwSet(l, env, left);
      if a.Err? then Err else
      var b := RwSet(r, env, a.left);
      if b.Err? then Err else Ok(SetOperation(op, all, a.value, b.value), b.left)
    case Values(rows) =>
      var a := RwRows(rows, env, left);
      if a.Err? then Err else Ok(Values(a.value), a.left)
  }

  function RwFrom(f: Option<TableRef>, env: Env, left: nat): (r: Res<Option<TableRef>>)
    ensures r.Ok? ==> r.left <= left
    decreases left, f, 0
  {
    match f
    case None => Ok(None, left)
    case Some(t) =>
      var x := RwTable(t, env, left);
      if x.Err? then Err else Ok(Some(x.value), x.left)
  }

  function Alias(alias: Option<string>, n: Name): Option<string> { if alias.Some? then alias else Some(Last(n)) }

  function RwTable(t: TableRef, env: Env, left: nat): (r: Res<TableRef>)
    ensures r.Ok? ==> r.left <= left
    decreases left, t, 0
  {
    match t
    case Table(n, alias, _) =>
      if IsVirtual(n, env) then
        (if env.derive(n).Some? then Ok(Derived(env.derive(n).value, Alias(alias, n)), left) else Err)
      else if ViewOf(n, env).None? then Ok(t, left)
      else if left == 0 then Err
      else
        var q := RwQuery(ViewOf(n, env).value, env, left - 1);
        if q.Err? then Err else Ok(Derived(q.value, Alias(alias, n)), q.left)
    case Derived(q, alias) =>
      var x := RwQuery(q, env, left);
      if x.Err? then Err else Ok(Derived(x.value, alias), x.left)
    case Join(l, r, op, c) =>
      var a := RwTable(l, env, left);
      if a.Err? then Err else
      var b := RwTable(r, env, a.left);
      if b.Err? then Err else
      if !c.On? then Ok(Join(a.value, b.value, op, c), b.left) else
      var e := RwExpr(c.expr, env, b.left);
      if e.Err? then Err else Ok(Join(a.value, b.value, op, On(e.value)), e.left)
  }

  function RwItems(items: List<SelectItem>, env: Env, left: nat): (r: Res<List<SelectItem>>)
    ensures r.Ok? ==> r.left <= left
    decreases left, items, 0
  {
    match items
    case Nil => Ok(Nil, left)
    case Cons(i, rest) =>
      if i.Item? then
        var e := RwExpr(i.expr, env, left);
        if e.Err? then Err else
        var more := RwItems(rest, env, e.left);
        if more.Err? then Err else Ok(Cons(Item(e.value, i.alias), more.value), more.left)
      else
        var more := RwItems(rest, env, left);
        if more.Err? then Err else Ok(Cons(i, more.value), more.left)
  }

  function RwOrders(os: List<OrderBy>, env: Env, left: nat): (r: Res<List<OrderBy>>)
    ensures r.Ok? ==> r.left <= left
    decreases left, os, 0
  {
    match os
    case Nil => Ok(Nil, left)
    case Cons(o, rest) =>
      var e := RwExpr(o.expr, env, left);
      if e.Err? then Err else
      var more := RwOrders(rest, env, e.left);
      if more.Err? then Err else Ok(Cons(o.(expr := e.value), more.value), more.left)
  }

  function RwExprs(es: List<Expr>, env: Env, left: nat): (r: Res<List<Expr>>)
    ensures r.Ok? ==> r.left <= left
    decreases left, es, 0
  {
    match es
    case Nil => Ok(Nil, left)
    case Cons(x, rest) =>
      var e := RwExpr(x, env, left);
      if e.Err? then Err else
      var more := RwExprs(rest, env, e.left);
      if more.Err? then Err else Ok(Cons(e.value, more.value), more.left)
  }

  function RwRows(rows: List<List<Expr>>, env: Env, left: nat): (r: Res<List<List<Expr>>>)
    ensures r.Ok? ==> r.left <= left
    decreases left, rows, 0
  {
    match rows
    case Nil => Ok(Nil, left)
    case Cons(row, rest) =>
      var e := RwExprs(row, env, left);
      if e.Err? then Err else
      var more := RwRows(rest, env, e.left);
      if more.Err? then Err else Ok(Cons(e.value, more.value), more.left)
  }

  function RwWhens(ws: List<When>, env: Env, left: nat): (r: Res<List<When>>)
    ensures r.Ok? ==> r.left <= left
    decreases left, ws, 0
  {
    match ws
    case Nil => Ok(Nil, left)
    case Cons(w, rest) =>
      var c := RwExpr(w.cond, env, left);
      if c.Err? then Err else
      var x := RwExpr(w.result, env, c.left);
      if x.Err? then Err else
      var more := RwWhens(rest, env, x.left);
      if more.Err? then Err else Ok(Cons(When(c.value, x.value), more.value), more.left)
  }

  function RwOpt(e: Option<Expr>, env: Env, left: nat): (r: Res<Option<Expr>>)
    ensures r.Ok? ==> r.left <= left
    decreases left, e, 0
  {
    match e
    case None => Ok(None, left)
    case Some(x) =>
      var y := RwExpr(x, env, left);
      if y.Err? then Err else Ok(Some(y.value), y.left)
  }

  function RwExpr(e: Expr, env: Env, left: nat): (r: Res<Expr>)
    ensures r.Ok? ==> r.left <= left
    decreases left, e, 0
  {
    match e
    case Literal(_) => Ok(e, left)
    case Column(_) => Ok(e, left)
    case Wildcard => Ok(e, left)
    case UnaryOp(op, x) =>
      var y := RwExpr(x, env, left);
      if y.Err? then Err else Ok(UnaryOp(op, y.value), y.left)
    case Cast(x, ty) =>
      var y := RwExpr(x, env, left);
      if y.Err? then Err else Ok(Cast(y.value, ty), y.left)
    case IsNull(x, negated) =>
      var y := RwExpr(x, env, left);
      if y.Err? then Err else Ok(IsNull(y.value, negated), y.left)
    case Interval(x, unit) =>
      var y := RwExpr(x, env, left);
      if y.Err? then Err else Ok(Interval(y.value, unit), y.left)
    case BinaryOp(l, op, r) =>
      var a := RwExpr(l, env, left);
      if a.Err? then Err else
      var b := RwExpr(r, env, a.left);
      if b.Err? then Err else Ok(BinaryOp(a.value, op, b.value), b.left)
    case Function(f, args, params, distinct) =>
      var a := RwExprs(args, env, left);
      if a.Err? then Err else
      var p := RwExprs(params, env, a.left);
      if p.Err? then Err else Ok(Function(f, a.value, p.value, distinct), p.left)
    case WindowCall(f, args, params, distinct, spec) =>
      var a := RwExprs(args, env, left);
      if a.Err? then Err else
      var p := RwExprs(params, env, a.left);
      if p.Err? then Err else
      var s := RwWindow(spec, env, p.left);
      if s.Err? then Err else Ok(WindowCall(f, a.value, p.value, distinct, s.value), s.left)
    case Case(op, ws, els) =>
      var a := RwOpt(op, env, left);
      if a.Err? then Err else
      var w := RwWhens(ws, env, a.left);
      if w.Err? then Err else
      var x := RwOpt(els, env, w.left);
      if x.Err? then Err else Ok(Case(a.value, w.value, x.value), x.left)
    case InList(x, list, negated) =>
      var a := RwExpr(x, env, left);
      if a.Err? then Err else
      var l := RwExprs(list, env, a.left);
      if l.Err? then Err else Ok(InList(a.value, l.value, negated), l.left)
    case Between(x, lo, hi, negated) =>
      var a := RwExpr(x, env, left);
      if a.Err? then Err else
      var b := RwExpr(lo, env, a.left);
      if b.Err? then Err else
      var c := RwExpr(hi, env, b.left);
      if c.Err? then Err else Ok(Between(a.value, b.value, c.value, negated), c.left)
    case Like(x, p, negated, ci) =>
      var a := RwExpr(x, env, left);
      if a.Err? then Err else
      var b := RwExpr(p, env, a.left);
      if b.Err? then Err else Ok(Like(a.value, b.value, negated, ci), b.left)
    case Tuple(items) =>
      var a := RwExprs(items, env, left);
      if a.Err? then Err else Ok(Tuple(a.value), a.left)
    case Scalar(q) =>
      var v := RunSub(q, env, left, true);
      if v.Err? then Err
      else if v.value.None? then Ok(e, v.left)
      else Ok(Literal(if v.value.value.Nil? then NullValue else v.value.value.head), v.left)
    case InSubquery(x, q, negated) =>
      var a := RwExpr(x, env, left);
      if a.Err? then Err else
      var v := RunSub(q, env, a.left, false);
      if v.Err? then Err
      else if v.value.None? then Ok(InSubquery(a.value, q, negated), v.left)
      else Ok(InList(a.value, Literals(v.value.value), negated), v.left)
    case Exists(q, negated) =>
      var v := RunSub(q, env, left, false);
      if v.Err? then Err
      else if v.value.None? then Ok(e, v.left)
      else Ok(Literal(Bool(v.value.value.Cons? != negated)), v.left)
  }

  function RwWindow(w: Window, env: Env, left: nat): (r: Res<Window>)
    ensures r.Ok? ==> r.left <= left
    decreases left, w, 0
  {
    var p := RwExprs(w.partitionBy, env, left);
    if p.Err? then Err else
    var o := RwOrders(w.orderBy, env, p.left);
    if o.Err? then Err else Ok(Window(p.value, o.value, w.frame), o.left)
  }

  /** The planner's entry: borrow the query as it is when the walk finds nothing
  to fold, else rewrite a copy with a budget of 64. */
  function Resolve(q: Query, env: Env): Option<Query> {
    if !HasQuery(q, env) then Some(q)
    else
      var r := RwQuery(q, env, 64);
      if r.Err? then None else Some(r.value)
  }

  // --------------------------------------------------------------------- soundness

  /** The cheap test on names covers every virtual table. */
  lemma {:induction false} VirtualLooksSystem(n: Name, env: Env)
    requires IsVirtual(n, env)
    ensures Qualifier(n).Some? && SystemQualifier(Qualifier(n).value)
  {
  }

  lemma {:induction false} QueryUntouched(q: Query, env: Env, left: nat)
    requires !HasQuery(q, env)
    ensures RwQuery(q, env, left) == Ok(q, left)
    decreases q, 1
  {
    CtesUntouched(q.with, env, left);
    SetUntouched(q.body, env, left);
    OrdersUntouched(q.orderBy, env, left);
    OptUntouched(q.limit, env, left);
    OptUntouched(q.offset, env, left);
    if q.limitBy.Some? {
      ExprUntouched(q.limitBy.value.n, env, left);
      ExprsUntouched(q.limitBy.value.keys, env, left);
    }
  }

  lemma {:induction false} CtesUntouched(cs: List<Cte>, env: Env, left: nat)
    requires !HasCtes(cs, env)
    ensures RwCtes(cs, env, left) == Ok(cs, left)
    decreases cs, 0
  {
    if cs.Cons? {
      QueryUntouched(cs.head.query, env, left);
      CtesUntouched(cs.tail, env, left);
    }
  }

  lemma {:induction false} SetUntouched(s: SetExpr, env: Env, left: nat)
    requires !HasSet(s, env)
    ensures RwSet(s, env, left) == Ok(s, left)
    decreases s, 0
  {
    match s
    case Plain(sel) =>
      ItemsUntouched(sel.projection, env, left);
      if sel.from.Some? { TableUntouched(sel.from.value, env, left); }
      OptUntouched(sel.prewhere, env, left);
      OptUntouched(sel.selection, env, left);
      OptUntouched(sel.having, env, left);
      ExprsUntouched(sel.groupBy, env, left);
    case Nested(q) => QueryUntouched(q, env, left);
    case SetOperation(_, _, l, r) =>
      SetUntouched(l, env, left);
      SetUntouched(r, env, left);
    case Values(rows) => RowsUntouched(rows, env, left);
  }

  lemma {:induction false} TableUntouched(t: TableRef, env: Env, left: nat)
    requires !HasTable(t, env)
    ensures RwTable(t, env, left) == Ok(t, left)
    decreases t, 0
  {
    match t
    case Table(n, _, _) => if IsVirtual(n, env) { VirtualLooksSystem(n, env); }
    case Derived(q, _) => QueryUntouched(q, env, left);
    case Join(l, r, _, c) =>
      TableUntouched(l, env, left);
      TableUntouched(r, env, left);
      if c.On? { ExprUntouched(c.expr, env, left); }
  }

  lemma {:induction false} ItemsUntouched(items: List<SelectItem>, env: Env, left: nat)
    requires !HasItems(items)
    ensures RwItems(items, env, left) == Ok(items, left)
    decreases items, 0
  {
    if items.Cons? {
      if items.head.Item? { ExprUntouched(items.head.expr, env, left); }
      ItemsUntouched(items.tail, env, left);
    }
  }

  lemma {:induction false} OrdersUntouched(os: List<OrderBy>, env: Env, left: nat)
    requires !HasOrders(os)
    ensures RwOrders(os, env, left) == Ok(os, left)
    decreases os, 0
  {
    if os.Cons? {
      ExprUntouched(os.head.expr, env, left);
      OrdersUntouched(os.tail, env, left);
    }
  }

  lemma {:induction false} ExprsUntouched(es: List<Expr>, env: Env, left: nat)
    requires !HasExprs(es)
    ensures RwExprs(es, env, left) == Ok(es, left)
    decreases es, 0
  {
    if es.Cons? {
      ExprUntouched(es.head, env, left);
      ExprsUntouched(es.tail, env, left);
    }
  }

  lemma {:induction false} RowsUntouched(rows: List<List<Expr>>, env: Env, left: nat)
    requires !HasRows(rows)
    ensures RwRows(rows, env, left) == Ok(rows, left)
    decreases rows, 0
  {
    if rows.Cons? {
      ExprsUntouched(rows.head, env, left);
      RowsUntouched(rows.tail, env, left);
    }
  }

  lemma {:induction false} WhensUntouched(ws: List<When>, env: Env, left: nat)
    requires !HasWhens(ws)
    ensures RwWhens(ws, env, left) == Ok(ws, left)
    decreases ws, 0
  {
    if ws.Cons? {
      ExprUntouched(ws.head.cond, env, left);
      ExprUntouched(ws.head.result, env, left);
      WhensUntouched(ws.tail, env, left);
    }
  }

  lemma {:induction false} OptUntouched(e: Option<Expr>, env: Env, left: nat)
    requires !HasOpt(e)
    ensures RwOpt(e, env, left) == Ok(e, left)
    decreases e, 0
  {
    if e.Some? { ExprUntouched(e.value, env, left); }
  }

  lemma {:induction false} ExprUntouched(e: Expr, env: Env, left: nat)
    requires !HasExpr(e)
    ensures RwExpr(e, env, left) == Ok(e, left)
    decreases e, 0
  {
    match e
    case UnaryOp(_, x) => ExprUntouched(x, env, left);
    case Cast(x, _) => ExprUntouched(x, env, left);
    case IsNull(x, _) => ExprUntouched(x, env, left);
    case Interval(x, _) => ExprUntouched(x, env, left);
    case BinaryOp(l, _, r) =>
      ExprUntouched(l, env, left);
      ExprUntouched(r, env, left);
    case Function(_, args, params, _) =>
      ExprsUntouched(args, env, left);
      ExprsUntouched(params, env, left);
    case WindowCall(_, args, params, _, spec) =>
      ExprsUntouched(args, env, left);
      ExprsUntouched(params, env, left);
      ExprsUntouched(spec.partitionBy, env, left);
      OrdersUntouched(spec.orderBy, env, left);
    case Case(op, ws, els) =>
      OptUntouched(op, env, left);
      WhensUntouched(ws, env, left);
      OptUntouched(els, env, left);
    case InList(x, list, _) =>
      ExprUntouched(x, env, left);
      ExprsUntouched(list, env, left);
    case Between(x, lo, hi, _) =>
      ExprUntouched(x, env, left);
      ExprUntouched(lo, env, left);
      ExprUntouched(hi, env, left);
    case Like(x, p, _, _) =>
      ExprUntouched(x, env, left);
      ExprUntouched(p, env, left);
    case Tuple(items) => ExprsUntouched(items, env, left);
    case _ =>
  }

  /** The shortcut changes no answer: planning is as if every query were copied
  and rewritten. */
  lemma {:induction false} ShortcutSound(q: Query, env: Env)
    ensures Resolve(q, env) == if RwQuery(q, env, 64).Err? then None else Some(RwQuery(q, env, 64).value)
  {
    if !HasQuery(q, env) { QueryUntouched(q, env, 64); }
  }
}
