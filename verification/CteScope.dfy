/** What the rewrite does to a reference that a CTE binds. */
module CteScope {
  import opened Basics
  import opened Ast
  import opened Subquery

  /** A bare name some enclosing CTE binds, whatever its case. */
  predicate Bound(n: Name, scope: set<string>) { |n| == 1 && Lower(Last(n)) in scope }

  function CteNames(cs: List<Cte>): set<string> {
    match cs
    case Nil => {}
    case Cons(c, rest) => {Lower(c.name)} + CteNames(rest)
  }

  // -------------------------------------------------- what a subquery reads of a scope

  /** `q` reads a name of `scope` that its own CTEs do not bind.  A CTE sees the
  ones before it, the rest of the query sees them all. */
  function ReadsQuery(q: Query, scope: set<string>): (r: bool)
    ensures r ==> scope != {}
  {
    var inner := scope - CteNames(q.with);
    || ReadsCtes(q.with, scope)
    || ReadsSet(q.body, inner)
    || ReadsOrders(q.orderBy, inner)
    || ReadsOpt(q.limit, inner) || ReadsOpt(q.offset, inner)
    || (q.limitBy.Some? && (ReadsExpr(q.limitBy.value.n, inner) || ReadsExprs(q.limitBy.value.keys, inner)))
  }

  function ReadsCtes(cs: List<Cte>, scope: set<string>): (r: bool)
    ensures r ==> scope != {}
  {
    cs.Cons? && (ReadsQuery(cs.head.query, scope) || ReadsCtes(cs.tail, scope - {Lower(cs.head.name)}))
  }

  function ReadsSet(s: SetExpr, scope: set<string>): (r: bool)
    ensures r ==> scope != {}
  {
    match s
    case Plain(sel) =>
      || ReadsItems(sel.projection, scope)
      || (sel.from.Some? && ReadsTable(sel.from.value, scope))
      || ReadsOpt(sel.prewhere, scope) || ReadsOpt(sel.selection, scope) || ReadsOpt(sel.having, scope)
      || ReadsExprs(sel.groupBy, scope)
    case Nested(q) => ReadsQuery(q, scope)
    case SetOperation(_, _, l, r) => ReadsSet(l, scope) || ReadsSet(r, scope)
    case Values(rows) => ReadsRows(rows, scope)
  }

  function ReadsTable(t: TableRef, scope: set<string>): (r: bool)
    ensures r ==> scope != {}
  {
    match t
    case Table(n, _, _) => Bound(n, scope)
    case Derived(q, _) => ReadsQuery(q, scope)
    case Join(l, r, _, c) => ReadsTable(l, scope) || ReadsTable(r, scope) || (c.On? && ReadsExpr(c.expr, scope))
  }

  function ReadsItems(items: List<SelectItem>, scope: set<string>): (r: bool)
    ensures r ==> scope != {}
  {
    items.Cons? && ((items.head.Item? && ReadsExpr(items.head.expr, scope)) || ReadsItems(items.tail, scope))
  }

  function ReadsOrders(os: List<OrderBy>, scope: set<string>): (r: bool)
    ensures r ==> scope != {}
  {
    os.Cons? && (ReadsExpr(os.head.expr, scope) || ReadsOrders(os.tail, scope))
  }

  function ReadsExprs(es: List<Expr>, scope: set<string>): (r: bool)
    ensures r ==> scope != {}
  {
    es.Cons? && (ReadsExpr(es.head, scope) || ReadsExprs(es.tail, scope))
  }

  function ReadsRows(rows: List<List<Expr>>, scope: set<string>): (r: bool)
    ensures r ==> scope != {}
  {
    rows.Cons? && (ReadsExprs(rows.head, scope) || ReadsRows(rows.tail, scope))
  }

  function ReadsWhens(ws: List<When>, scope: set<string>): (r: bool)
    ensures r ==> scope != {}
  {
    ws.Cons? && (ReadsExpr(ws.head.cond, scope) || ReadsExpr(ws.head.result, scope) || ReadsWhens(ws.tail, scope))
  }

  function ReadsOpt(e: Option<Expr>, scope: set<string>): (r: bool)
    ensures r ==> scope != {}
  {
    e.Some? && ReadsExpr(e.value, scope)
  }

  function ReadsWindow(w: Window, scope: set<string>): (r: bool)
    ensures r ==> scope != {}
  {
    ReadsExprs(w.partitionBy, scope) || ReadsOrders(w.orderBy, scope)
  }

  function ReadsExpr(e: Expr, scope: set<string>): (r: bool)
    ensures r ==> scope != {}
  {
    match e
    case Scalar(q) => ReadsQuery(q, scope)
    case InSubquery(x, q, _) => ReadsExpr(x, scope) || ReadsQuery(q, scope)
    case Exists(q, _) => ReadsQuery(q, scope)
    case UnaryOp(_, x) => ReadsExpr(x, scope)
    case Cast(x, _) => ReadsExpr(x, scope)
    case IsNull(x, _) => ReadsExpr(x, scope)
    case Interval(x, _) => ReadsExpr(x, scope)
    case BinaryOp(l, _, r) => ReadsExpr(l, scope) || ReadsExpr(r, scope)
    case Function(_, args, params, _) => ReadsExprs(args, scope) || ReadsExprs(params, scope)
    case WindowCall(_, args, params, _, spec) => ReadsExprs(args, scope) || ReadsExprs(params, scope) || ReadsWindow(spec, scope)
    case Case(op, ws, els) => ReadsOpt(op, scope) || ReadsWhens(ws, scope) || ReadsOpt(els, scope)
    case InList(x, list, _) => ReadsExpr(x, scope) || ReadsExprs(list, scope)
    case Between(x, lo, hi, _) => ReadsExpr(x, scope) || ReadsExpr(lo, scope) || ReadsExpr(hi, scope)
    case Like(x, p, _, _) => ReadsExpr(x, scope) || ReadsExpr(p, scope)
    case Tuple(items) => ReadsExprs(items, scope)
    case _ => false
  }

  // ------------------------------------------------------------- left as they stand

  /** Every reference of `q` that a CTE binds -- in a FROM clause, or anywhere in
  a subquery of an expression -- stands unchanged in `q'`. */
  predicate Kept(q: Query, q': Query, scope: set<string>) {
    var inner := scope + CteNames(q.with);
    && KeptCtes(q.with, q'.with, scope)
    && KeptSet(q.body, q'.body, inner)
    && KeptOrders(q.orderBy, q'.orderBy, inner)
    && KeptOpt(q.limit, q'.limit, inner) && KeptOpt(q.offset, q'.offset, inner)
    && (q.limitBy.Some? ==>
        && q'.limitBy.Some? && KeptExpr(q.limitBy.value.n, q'.limitBy.value.n, inner)
        && KeptExprs(q.limitBy.value.keys, q'.limitBy.value.keys, inner))
  }

  predicate KeptCtes(cs: List<Cte>, cs': List<Cte>, scope: set<string>) {
    cs.Cons? ==>
      && cs'.Cons? && Kept(cs.head.query, cs'.head.query, scope)
      && KeptCtes(cs.tail, cs'.tail, scope + {Lower(cs.head.name)})
  }

  predicate KeptSet(s: SetExpr, s': SetExpr, scope: set<string>) {
    match s
    case Plain(sel) =>
      && s'.Plain?
      && KeptItems(sel.projection, s'.select.projection, scope)
      && (sel.from.Some? ==> s'.select.from.Some? && KeptTable(sel.from.value, s'.select.from.value, scope))
      && KeptOpt(sel.prewhere, s'.select.prewhere, scope) && KeptOpt(sel.selection, s'.select.selection, scope)
      && KeptOpt(sel.having, s'.select.having, scope) && KeptExprs(sel.groupBy, s'.select.groupBy, scope)
    case Nested(q) => s'.Nested? && Kept(q, s'.query, scope)
    case SetOperation(_, _, l, r) => s'.SetOperation? && KeptSet(l, s'.left, scope) && KeptSet(r, s'.right, scope)
    case Values(rows) => s'.Values? && KeptRows(rows, s'.rows, scope)
  }

  predicate KeptTable(t: TableRef, t': TableRef, scope: set<string>) {
    match t
    case Table(n, _, _) => Bound(n, scope) ==> t' == t
    case Derived(q, _) => t'.Derived? && Kept(q, t'.query, scope)
    case Join(l, r, _, c) =>
      && t'.Join? && KeptTable(l, t'.left, scope) && KeptTable(r, t'.right, scope)
      && (c.On? ==> t'.constraint.On? && KeptExpr(c.expr, t'.constraint.expr, scope))
  }

  predicate KeptItems(items: List<SelectItem>, items': List<SelectItem>, scope: set<string>) {
    items.Cons? ==>
      && items'.Cons? && KeptItems(items.tail, items'.tail, scope)
      && (items.head.Item? ==> items'.head.Item? && KeptExpr(items.head.expr, items'.head.expr, scope))
  }

  predicate KeptOrders(os: List<OrderBy>, os': List<OrderBy>, scope: set<string>) {
    os.Cons? ==> os'.Cons? && KeptExpr(os.head.expr, os'.head.expr, scope) && KeptOrders(os.tail, os'.tail, scope)
  }

  predicate KeptExprs(es: List<Expr>, es': List<Expr>, scope: set<string>) {
    es.Cons? ==> es'.Cons? && KeptExpr(es.head, es'.head, scope) && KeptExprs(es.tail, es'.tail, scope)
  }

  predicate KeptRows(rows: List<List<Expr>>, rows': List<List<Expr>>, scope: set<string>) {
    rows.Cons? ==> rows'.Cons? && KeptExprs(rows.head, rows'.head, scope) && KeptRows(rows.tail, rows'.tail, scope)
  }

  predicate KeptWhens(ws: List<When>, ws': List<When>, scope: set<string>) {
    ws.Cons? ==>
      && ws'.Cons? && KeptExpr(ws.head.cond, ws'.head.cond, scope)
      && KeptExpr(ws.head.result, ws'.head.result, scope) && KeptWhens(ws.tail, ws'.tail, scope)
  }

  predicate KeptOpt(e: Option<Expr>, e': Option<Expr>, scope: set<string>) {
    e.Some? ==> e'.Some? && KeptExpr(e.value, e'.value, scope)
  }

  predicate KeptWindow(w: Window, w': Window, scope: set<string>) {
    KeptExprs(w.partitionBy, w'.partitionBy, scope) && KeptOrders(w.orderBy, w'.orderBy, scope)
  }

  predicate KeptExpr(e: Expr, e': Expr, scope: set<string>) {
    match e
    case Scalar(q) => ReadsQuery(q, scope) ==> e' == e
    case Exists(q, _) => ReadsQuery(q, scope) ==> e' == e
    case InSubquery(x, q, _) =>
      && (e'.InSubquery? || e'.InList?) && KeptExpr(x, e'.expr, scope)
      && (ReadsQuery(q, scope) ==> e'.InSubquery? && e'.subquery == q)
    case UnaryOp(_, x) => e'.UnaryOp? && KeptExpr(x, e'.expr, scope)
    case Cast(x, _) => e'.Cast? && KeptExpr(x, e'.expr, scope)
    case IsNull(x, _) => e'.IsNull? && KeptExpr(x, e'.expr, scope)
    case Interval(x, _) => e'.Interval? && KeptExpr(x, e'.expr, scope)
    case BinaryOp(l, _, r) => e'.BinaryOp? && KeptExpr(l, e'.left, scope) && KeptExpr(r, e'.right, scope)
    case Function(_, args, params, _) => e'.Function? && KeptExprs(args, e'.args, scope) && KeptExprs(params, e'.params, scope)
    case WindowCall(_, args, params, _, spec) =>
      && e'.WindowCall? && KeptExprs(args, e'.args, scope) && KeptExprs(params, e'.params, scope)
      && KeptWindow(spec, e'.spec, scope)
    case Case(op, ws, els) =>
      e'.Case? && KeptOpt(op, e'.operand, scope) && KeptWhens(ws, e'.whenThen, scope) && KeptOpt(els, e'.elseResult, scope)
    case InList(x, list, _) => e'.InList? && KeptExpr(x, e'.expr, scope) && KeptExprs(list, e'.list, scope)
    case Between(x, lo, hi, _) =>
      e'.Between? && KeptExpr(x, e'.expr, scope) && KeptExpr(lo, e'.low, scope) && KeptExpr(hi, e'.high, scope)
    case Like(x, p, _, _) => e'.Like? && KeptExpr(x, e'.expr, scope) && KeptExpr(p, e'.pattern, scope)
    case Tuple(items) => e'.Tuple? && KeptExprs(items, e'.items, scope)
    case _ => true
  }

  // ------------------------------------------------------------ taken for another

  /** A subquery run on its own, outside every scope, that reads a name of one:
  it answers from whatever else bears the name. */
  predicate Misread(q: Query, scalar: bool, scope: set<string>, env: Env) {
    ReadsQuery(q, scope) && env.eval(q, scalar).Rows?
  }

  /** Some reference a CTE binds is taken for another relation: in a FROM clause
  for a view of that name, in an expression for what answers a subquery on its
  own. */
  predicate Captured(q: Query, scope: set<string>, env: Env) {
    var inner := scope + CteNames(q.with);
    || CapturedCtes(q.with, scope, env)
    || CapturedSet(q.body, inner, env)
    || CapturedOrders(q.orderBy, inner, env)
    || CapturedOpt(q.limit, inner, env) || CapturedOpt(q.offset, inner, env)
    || (q.limitBy.Some? && (CapturedExpr(q.limitBy.value.n, inner, env) || CapturedExprs(q.limitBy.value.keys, inner, env)))
  }

  predicate CapturedCtes(cs: List<Cte>, scope: set<string>, env: Env) {
    cs.Cons? && (Captured(cs.head.query, scope, env) || CapturedCtes(cs.tail, scope + {Lower(cs.head.name)}, env))
  }

  predicate CapturedSet(s: SetExpr, scope: set<string>, env: Env) {
    match s
    case Plain(sel) =>
      || CapturedItems(sel.projection, scope, env)
      || (sel.from.Some? && CapturedTable(sel.from.value, scope, env))
      || CapturedOpt(sel.prewhere, scope, env) || CapturedOpt(sel.selection, scope, env)
      || CapturedOpt(sel.having, scope, env) || CapturedExprs(sel.groupBy, scope, env)
    case Nested(q) => Captured(q, scope, env)
    case SetOperation(_, _, l, r) => CapturedSet(l, scope, env) || CapturedSet(r, scope, env)
    case Values(rows) => CapturedRows(rows, scope, env)
  }

  predicate CapturedTable(t: TableRef, scope: set<string>, env: Env) {
    match t
    case Table(n, _, _) => Bound(n, scope) && ViewOf(n, env).Some?
    case Derived(q, _) => Captured(q, scope, env)
    case Join(l, r, _, c) =>
      CapturedTable(l, scope, env) || CapturedTable(r, scope, env) || (c.On? && CapturedExpr(c.expr, scope, env))
  }

  predicate CapturedItems(items: List<SelectItem>, scope: set<string>, env: Env) {
    items.Cons? && ((items.head.Item? && CapturedExpr(items.head.expr, scope, env)) || CapturedItems(items.tail, scope, env))
  }

  predicate CapturedOrders(os: List<OrderBy>, scope: set<string>, env: Env) {
    os.Cons? && (CapturedExpr(os.head.expr, scope, env) || CapturedOrders(os.tail, scope, env))
  }

  predicate CapturedExprs(es: List<Expr>, scope: set<string>, env: Env) {
    es.Cons? && (CapturedExpr(es.head, scope, env) || CapturedExprs(es.tail, scope, env))
  }

  predicate CapturedRows(rows: List<List<Expr>>, scope: set<string>, env: Env) {
    rows.Cons? && (CapturedExprs(rows.head, scope, env) || CapturedRows(rows.tail, scope, env))
  }

  predicate CapturedWhens(ws: List<When>, scope: set<string>, env: Env) {
    ws.Cons? && (CapturedExpr(ws.head.cond, scope, env) || CapturedExpr(ws.head.result, scope, env) || CapturedWhens(ws.tail, scope, env))
  }

  predicate CapturedOpt(e: Option<Expr>, scope: set<string>, env: Env) { e.Some? && CapturedExpr(e.value, scope, env) }

  predicate CapturedWindow(w: Window, scope: set<string>, env: Env) {
    CapturedExprs(w.partitionBy, scope, env) || CapturedOrders(w.orderBy, scope, env)
  }

  predicate CapturedExpr(e: Expr, scope: set<string>, env: Env) {
    match e
    case Scalar(q) => Misread(q, true, scope, env)
    case Exists(q, _) => Misread(q, false, scope, env)
    case InSubquery(x, q, _) => CapturedExpr(x, scope, env) || Misread(q, false, scope, env)
    case UnaryOp(_, x) => CapturedExpr(x, scope, env)
    case Cast(x, _) => CapturedExpr(x, scope, env)
    case IsNull(x, _) => CapturedExpr(x, scope, env)
    case Interval(x, _) => CapturedExpr(x, scope, env)
    case BinaryOp(l, _, r) => CapturedExpr(l, scope, env) || CapturedExpr(r, scope, env)
    case Function(_, args, params, _) => CapturedExprs(args, scope, env) || CapturedExprs(params, scope, env)
    case WindowCall(_, args, params, _, spec) =>
      CapturedExprs(args, scope, env) || CapturedExprs(params, scope, env) || CapturedWindow(spec, scope, env)
    case Case(op, ws, els) => CapturedOpt(op, scope, env) || CapturedWhens(ws, scope, env) || CapturedOpt(els, scope, env)
    case InList(x, list, _) => CapturedExpr(x, scope, env) || CapturedExprs(list, scope, env)
    case Between(x, lo, hi, _) => CapturedExpr(x, scope, env) || CapturedExpr(lo, scope, env) || CapturedExpr(hi, scope, env)
    case Like(x, p, _, _) => CapturedExpr(x, scope, env) || CapturedExpr(p, scope, env)
    case Tuple(items) => CapturedExprs(items, scope, env)
    case _ => false
  }

  // ------------------------------------------------------------ the exact condition

  /** The rewrite knows nothing of CTE scope: a rewrite that succeeds leaves every
  CTE-bound reference alone if and only if none is taken for another relation. */
  lemma {:induction false} ScopeKeptIff(q: Query, env: Env, left: nat, scope: set<string>)
    requires RwQuery(q, env, left).Ok?
    ensures Kept(q, RwQuery(q, env, left).value, scope) <==> !Captured(q, scope, env)
    decreases q, 1
  {
    var inner := scope + CteNames(q.with);
    CtesKeptIff(q.with, env, left, scope);
    var l1 := RwCtes(q.with, env, left).left;
    SetKeptIff(q.body, env, l1, inner);
    var l2 := RwSet(q.body, env, l1).left;
    OrdersKeptIff(q.orderBy, env, l2, inner);
    var l3 := RwOrders(q.orderBy, env, l2).left;
    OptKeptIff(q.limit, env, l3, inner);
    var l4 := RwOpt(q.limit, env, l3).left;
    OptKeptIff(q.offset, env, l4, inner);
    var l5 := RwOpt(q.offset, env, l4).left;
    if q.limitBy.Some? {
      ExprKeptIff(q.limitBy.value.n, env, l5, inner);
      ExprsKeptIff(q.limitBy.value.keys, env, RwExpr(q.limitBy.value.n, env, l5).left, inner);
    }
  }

  lemma {:induction false} CtesKeptIff(cs: List<Cte>, env: Env, left: nat, scope: set<string>)
    requires RwCtes(cs, env, left).Ok?
    ensures KeptCtes(cs, RwCtes(cs, env, left).value, scope) <==> !CapturedCtes(cs, scope, env)
    decreases cs, 0
  {
    if cs.Cons? {
      ScopeKeptIff(cs.head.query, env, left, scope);
      CtesKeptIff(cs.tail, env, RwQuery(cs.head.query, env, left).left, scope + {Lower(cs.head.name)});
    }
  }

  lemma {:induction false} SetKeptIff(s: SetExpr, env: Env, left: nat, scope: set<string>)
    requires RwSet(s, env, left).Ok?
    ensures KeptSet(s, RwSet(s, env, left).value, scope) <==> !CapturedSet(s, scope, env)
    decreases s, 1
  {
    match s
    case Plain(sel) => SelectKeptIff(s, env, left, scope);
    case Nested(q) => ScopeKeptIff(q, env, left, scope);
    case SetOperation(_, _, l, r) =>
      SetKeptIff(l, env, left, scope);
      SetKeptIff(r, env, RwSet(l, env, left).left, scope);
    case Values(rows) => RowsKeptIff(rows, env, left, scope);
  }

  lemma {:induction false} SelectKeptIff(s: SetExpr, env: Env, left: nat, scope: set<string>)
    requires s.Plain? && RwSet(s, env, left).Ok?
    ensures KeptSet(s, RwSet(s, env, left).value, scope) <==> !CapturedSet(s, scope, env)
    decreases s, 0
  {
    var sel := s.select;
    ItemsKeptIff(sel.projection, env, left, scope);
    var l1 := RwItems(sel.projection, env, left).left;
    if sel.from.Some? { TableKeptIff(sel.from.value, env, l1, scope); }
    var l2 := RwFrom(sel.from, env, l1).left;
    OptKeptIff(sel.prewhere, env, l2, scope);
    var l3 := RwOpt(sel.prewhere, env, l2).left;
    OptKeptIff(sel.selection, env, l3, scope);
    var l4 := RwOpt(sel.selection, env, l3).left;
    OptKeptIff(sel.having, env, l4, scope);
    ExprsKeptIff(sel.groupBy, env, RwOpt(sel.having, env, l4).left, scope);
  }

  lemma {:induction false} TableKeptIff(t: TableRef, env: Env, left: nat, scope: set<string>)
    requires RwTable(t, env, left).Ok?
    ensures KeptTable(t, RwTable(t, env, left).value, scope) <==> !CapturedTable(t, scope, env)
    decreases t, 0
  {
    match t
    case Table(_, _, _) =>
    case Derived(q, _) => ScopeKeptIff(q, env, left, scope);
    case Join(l, r, _, c) =>
      TableKeptIff(l, env, left, scope);
      var l1 := RwTable(l, env, left).left;
      TableKeptIff(r, env, l1, scope);
      if c.On? { ExprKeptIff(c.expr, env, RwTable(r, env, l1).left, scope); }
  }

  lemma {:induction false} ItemsKeptIff(items: List<SelectItem>, env: Env, left: nat, scope: set<string>)
    requires RwItems(items, env, left).Ok?
    ensures KeptItems(items, RwItems(items, env, left).value, scope) <==> !CapturedItems(items, scope, env)
    decreases items, 0
  {
    if items.Cons? {
      if items.head.Item? {
        ExprKeptIff(items.head.expr, env, left, scope);
        ItemsKeptIff(items.tail, env, RwExpr(items.head.expr, env, left).left, scope);
      } else {
        ItemsKeptIff(items.tail, env, left, scope);
      }
    }
  }

  lemma {:induction false} OrdersKeptIff(os: List<OrderBy>, env: Env, left: nat, scope: set<string>)
    requires RwOrders(os, env, left).Ok?
    ensures KeptOrders(os, RwOrders(os, env, left).value, scope) <==> !CapturedOrders(os, scope, env)
    decreases os, 0
  {
    if os.Cons? {
      ExprKeptIff(os.head.expr, env, left, scope);
      OrdersKeptIff(os.tail, env, RwExpr(os.head.expr, env, left).left, scope);
    }
  }

  lemma {:induction false} ExprsKeptIff(es: List<Expr>, env: Env, left: nat, scope: set<string>)
    requires RwExprs(es, env, left).Ok?
    ensures KeptExprs(es, RwExprs(es, env, left).value, scope) <==> !CapturedExprs(es, scope, env)
    decreases es, 0
  {
    if es.Cons? {
      ExprKeptIff(es.head, env, left, scope);
      ExprsKeptIff(es.tail, env, RwExpr(es.head, env, left).left, scope);
    }
  }

  lemma {:induction false} RowsKeptIff(rows: List<List<Expr>>, env: Env, left: nat, scope: set<string>)
    requires RwRows(rows, env, left).Ok?
    ensures KeptRows(rows, RwRows(rows, env, left).value, scope) <==> !CapturedRows(rows, scope, env)
    decreases rows, 0
  {
    if rows.Cons? {
      ExprsKeptIff(rows.head, env, left, scope);
      RowsKeptIff(rows.tail, env, RwExprs(rows.head, env, left).left, scope);
    }
  }

  lemma {:induction false} WhensKeptIff(ws: List<When>, env: Env, left: nat, scope: set<string>)
    requires RwWhens(ws, env, left).Ok?
    ensures KeptWhens(ws, RwWhens(ws, env, left).value, scope) <==> !CapturedWhens(ws, scope, env)
    decreases ws, 0
  {
    if ws.Cons? {
      ExprKeptIff(ws.head.cond, env, left, scope);
      var l1 := RwExpr(ws.head.cond, env, left).left;
      ExprKeptIff(ws.head.result, env, l1, scope);
      WhensKeptIff(ws.tail, env, RwExpr(ws.head.result, env, l1).left, scope);
    }
  }

  lemma {:induction false} OptKeptIff(e: Option<Expr>, env: Env, left: nat, scope: set<string>)
    requires RwOpt(e, env, left).Ok?
    ensures KeptOpt(e, RwOpt(e, env, left).value, scope) <==> !CapturedOpt(e, scope, env)
    decreases e, 0
  {
    if e.Some? { ExprKeptIff(e.value, env, left, scope); }
  }

  lemma {:induction false} WindowKeptIff(w: Window, env: Env, left: nat, scope: set<string>)
    requires RwWindow(w, env, left).Ok?
    ensures KeptWindow(w, RwWindow(w, env, left).value, scope) <==> !CapturedWindow(w, scope, env)
    decreases w, 0
  {
    ExprsKeptIff(w.partitionBy, env, left, scope);
    OrdersKeptIff(w.orderBy, env, RwExprs(w.partitionBy, env, left).left, scope);
  }

  lemma {:induction false} ExprKeptIff(e: Expr, env: Env, left: nat, scope: set<string>)
    requires RwExpr(e, env, left).Ok?
    ensures KeptExpr(e, RwExpr(e, env, left).value, scope) <==> !CapturedExpr(e, scope, env)
    decreases e, 0
  {
    match e
    case InSubquery(x, _, _) => ExprKeptIff(x, env, left, scope);
    case UnaryOp(_, x) =>
      ExprKeptIff(x, env, left, scope);
    case Cast(x, _) =>
      ExprKeptIff(x, env, left, scope);
    case IsNull(x, _) =>
      ExprKeptIff(x, env, left, scope);
    case Interval(x, _) =>
      ExprKeptIff(x, env, left, scope);
    case BinaryOp(l, _, r) =>
      ExprKeptIff(l, env, left, scope);
      var left1 := RwExpr(l, env, left).left;
      ExprKeptIff(r, env, left1, scope);
    case Function(_, args, params, _) =>
      ExprsKeptIff(args, env, left, scope);
      var left1 := RwExprs(args, env, left).left;
      ExprsKeptIff(params, env, left1, scope);
    case WindowCall(_, args, params, _, spec) =>
      ExprsKeptIff(args, env, left, scope);
      var left1 := RwExprs(args, env, left).left;
      ExprsKeptIff(params, env, left1, scope);
      var left2 := RwExprs(params, env, left1).left;
      WindowKeptIff(spec, env, left2, scope);
    case Case(op, ws, els) =>
      OptKeptIff(op, env, left, scope);
      var left1 := RwOpt(op, env, left).left;
      WhensKeptIff(ws, env, left1, scope);
      var left2 := RwWhens(ws, env, left1).left;
      OptKeptIff(els, env, left2, scope);
    case InList(x, list, _) =>
      ExprKeptIff(x, env, left, scope);
      var left1 := RwExpr(x, env, left).left;
      ExprsKeptIff(list, env, left1, scope);
    case Between(x, lo, hi, _) =>
      ExprKeptIff(x, env, left, scope);
      var left1 := RwExpr(x, env, left).left;
      ExprKeptIff(lo, env, left1, scope);
      var left2 := RwExpr(lo, env, left1).left;
      ExprKeptIff(hi, env, left2, scope);
    case Like(x, p, _, _) =>
      ExprKeptIff(x, env, left, scope);
      var left1 := RwExpr(x, env, left).left;
      ExprKeptIff(p, env, left1, scope);
    case Tuple(items) =>
      ExprsKeptIff(items, env, left, scope);
    case _ =>
  }

  // ------------------------------------------------------------------ two witnesses

  function NoRows(): Query { Query(Nil, Values(Nil), Nil, None, None, None) }

  function FromV(): Select { Select(false, Nil, Some(Table(["v"], None, false)), None, None, Nil, false, None) }

  /** A query over the CTE `v` it begins with. */
  function WithV(body: Select): Query { Query(Cons(Cte("v", NoRows()), Nil), Plain(body), Nil, None, None, None) }

  /** A database with a view `v`. */
  function ViewV(): Env { Env(map["d.v" := NoRows()], "d", {}, n => None, (q, scalar) => Fails) }

  /** The reference to the CTE comes out as the view's body. */
  lemma {:induction false} CteCaptured()
    ensures Captured(WithV(FromV()), {}, ViewV())
    ensures RwQuery(WithV(FromV()), ViewV(), 64).Ok?
    ensures RwQuery(WithV(FromV()), ViewV(), 64).value.body
            == Plain(FromV().(from := Some(Derived(NoRows(), Some("v")))))
  {
    var q := WithV(FromV());
    assert ViewKey(["v"], "d") == "d.v";
    assert Lower("v") == "v";
    assert "v" in CteNames(q.with);
    assert RwQuery(NoRows(), ViewV(), 64) == Ok(NoRows(), 64);
    assert RwQuery(NoRows(), ViewV(), 63) == Ok(NoRows(), 63);
    assert RwCtes(q.with, ViewV(), 64) == Ok(q.with, 64);
    assert RwTable(Table(["v"], None, false), ViewV(), 64) == Ok(Derived(NoRows(), Some("v")), 63);
  }

  /** A database with no view, whose base table `v` answers the subquery. */
  function BaseV(): Env { Env(map[], "d", {"d.v"}, n => None, (q, scalar) => Rows(Cons(Number(7), Nil))) }

  /** A select of one scalar subquery over `v`. */
  function OneScalar(): Select {
    Select(false, Cons(Item(Scalar(Query(Nil, Plain(FromV()), Nil, None, None, None)), None), Nil),
           None, None, None, Nil, false, None)
  }

  /** The subquery's reference to the CTE comes out as a value of the base table,
  though no view is anywhere near. */
  lemma {:induction false} SubqueryCaptured()
    ensures Captured(WithV(OneScalar()), {}, BaseV())
    ensures RwQuery(WithV(OneScalar()), BaseV(), 64).Ok?
    ensures RwQuery(WithV(OneScalar()), BaseV(), 64).value.body
            == Plain(OneScalar().(projection := Cons(Item(Literal(Number(7)), None), Nil)))
  {
    var q := WithV(OneScalar());
    var sub := Query(Nil, Plain(FromV()), Nil, None, None, None);
    assert Lower("v") == "v";
    assert "v" in CteNames(q.with);
    assert Bound(["v"], {} + CteNames(q.with));
    assert ReadsTable(Table(["v"], None, false), {} + CteNames(q.with) - CteNames(sub.with));
    assert ReadsQuery(sub, {} + CteNames(q.with));
    assert CapturedExpr(Scalar(sub), {} + CteNames(q.with), BaseV());
    assert CapturedItems(OneScalar().projection, {} + CteNames(q.with), BaseV());
    assert RwQuery(NoRows(), BaseV(), 64) == Ok(NoRows(), 64);
    assert RwCtes(q.with, BaseV(), 64) == Ok(q.with, 64);
    assert RwExpr(Scalar(sub), BaseV(), 64) == Ok(Literal(Number(7)), 63);
  }
}
