/** What is left of views and virtual tables once a query has been rewritten. */
module Expansion {
  import opened Basics
  import opened Ast
  import opened Subquery

  // ------------------------------------------------------------------ fully expanded

  /** No relation a query reads -- in its FROM clauses or in the subqueries of its
  expressions, at any depth -- is a view or a virtual table. */
  predicate Expanded(q: Query, env: Env) {
    && ExpandedCtes(q.with, env)
    && ExpandedSet(q.body, env)
    && ExpandedOrders(q.orderBy, env)
    && ExpandedOpt(q.limit, env) && ExpandedOpt(q.offset, env)
    && (q.limitBy.Some? ==> ExpandedExpr(q.limitBy.value.n, env) && ExpandedExprs(q.limitBy.value.keys, env))
  }

  predicate ExpandedCtes(cs: List<Cte>, env: Env) {
    cs.Cons? ==> Expanded(cs.head.query, env) && ExpandedCtes(cs.tail, env)
  }

  predicate ExpandedSet(s: SetExpr, env: Env) {
    match s
    case Plain(sel) =>
      && ExpandedItems(sel.projection, env)
      && (sel.from.Some? ==> ExpandedTable(sel.from.value, env))
      && ExpandedOpt(sel.prewhere, env) && ExpandedOpt(sel.selection, env) && ExpandedOpt(sel.having, env)
      && ExpandedExprs(sel.groupBy, env)
    case Nested(q) => Expanded(q, env)
    case SetOperation(_, _, l, r) => ExpandedSet(l, env) && ExpandedSet(r, env)
    case Values(rows) => ExpandedRows(rows, env)
  }

  predicate ExpandedTable(t: TableRef, env: Env) {
    match t
    case Table(n, _, _) => !IsVirtual(n, env) && ViewOf(n, env).None?
    case Derived(q, _) => Expanded(q, env)
    case Join(l, r, _, c) => ExpandedTable(l, env) && ExpandedTable(r, env) && (c.On? ==> ExpandedExpr(c.expr, env))
  }

  predicate ExpandedItems(items: List<SelectItem>, env: Env) {
    items.Cons? ==> (items.head.Item? ==> ExpandedExpr(items.head.expr, env)) && ExpandedItems(items.tail, env)
  }

  predicate ExpandedOrders(os: List<OrderBy>, env: Env) {
    os.Cons? ==> ExpandedExpr(os.head.expr, env) && ExpandedOrders(os.tail, env)
  }

  predicate ExpandedExprs(es: List<Expr>, env: Env) { es.Cons? ==> ExpandedExpr(es.head, env) && ExpandedExprs(es.tail, env) }

  predicate ExpandedRows(rows: List<List<Expr>>, env: Env) {
    rows.Cons? ==> ExpandedExprs(rows.head, env) && ExpandedRows(rows.tail, env)
  }

  predicate ExpandedWhens(ws: List<When>, env: Env) {
    ws.Cons? ==> ExpandedExpr(ws.head.cond, env) && ExpandedExpr(ws.head.result, env) && ExpandedWhens(ws.tail, env)
  }

  predicate ExpandedOpt(e: Option<Expr>, env: Env) { e.Some? ==> ExpandedExpr(e.value, env) }

  predicate ExpandedWindow(w: Window, env: Env) { ExpandedExprs(w.partitionBy, env) && ExpandedOrders(w.orderBy, env) }

  predicate ExpandedExpr(e: Expr, env: Env) {
    match e
    case Scalar(q) => Expanded(q, env)
    case Exists(q, _) => Expanded(q, env)
    case InSubquery(x, q, _) => ExpandedExpr(x, env) && Expanded(q, env)
    case UnaryOp(_, x) => ExpandedExpr(x, env)
    case Cast(x, _) => ExpandedExpr(x, env)
    case IsNull(x, _) => ExpandedExpr(x, env)
    case Interval(x, _) => ExpandedExpr(x, env)
    case BinaryOp(l, _, r) => ExpandedExpr(l, env) && ExpandedExpr(r, env)
    case Function(_, args, params, _) => ExpandedExprs(args, env) && ExpandedExprs(params, env)
    case WindowCall(_, args, params, _, spec) => ExpandedExprs(args, env) && ExpandedExprs(params, env) && ExpandedWindow(spec, env)
    case Case(op, ws, els) => ExpandedOpt(op, env) && ExpandedWhens(ws, env) && ExpandedOpt(els, env)
    case InList(x, list, _) => ExpandedExpr(x, env) && ExpandedExprs(list, env)
    case Between(x, lo, hi, _) => ExpandedExpr(x, env) && ExpandedExpr(lo, env) && ExpandedExpr(hi, env)
    case Like(x, p, _, _) => ExpandedExpr(x, env) && ExpandedExpr(p, env)
    case Tuple(items) => ExpandedExprs(items, env)
    case _ => true
  }

  // --------------------------------------------------------------------- left stuck

  /** A subquery that cannot run on its own is left exactly as it stands, with
  whatever views and virtual tables it names. */
  predicate LeftUnexpanded(q: Query, scalar: bool, env: Env) { env.eval(q, scalar).Correlated? && !Expanded(q, env) }

  /** An expression of the query, or of a view it reads through at most `depth`
  others, holds such a subquery. */
  predicate Stuck(q: Query, env: Env, depth: nat)
    decreases depth, q, 1
  {
    || StuckCtes(q.with, env, depth)
    || StuckSet(q.body, env, depth)
    || StuckOrders(q.orderBy, env, depth)
    || StuckOpt(q.limit, env, depth) || StuckOpt(q.offset, env, depth)
    || (q.limitBy.Some? && (StuckExpr(q.limitBy.value.n, env, depth) || StuckExprs(q.limitBy.value.keys, env, depth)))
  }

  predicate StuckCtes(cs: List<Cte>, env: Env, depth: nat)
    decreases depth, cs, 0
  {
    cs.Cons? && (Stuck(cs.head.query, env, depth) || StuckCtes(cs.tail, env, depth))
  }

  predicate StuckSet(s: SetExpr, env: Env, depth: nat)
    decreases depth, s, 0
  {
    match s
    case Plain(sel) =>
      || StuckItems(sel.projection, env, depth)
      || (sel.from.Some? && StuckTable(sel.from.value, env, depth))
      || StuckOpt(sel.prewhere, env, depth) || StuckOpt(sel.selection, env, depth) || StuckOpt(sel.having, env, depth)
      || StuckExprs(sel.groupBy, env, depth)
    case Nested(q) => Stuck(q, env, depth)
    case SetOperation(_, _, l, r) => StuckSet(l, env, depth) || StuckSet(r, env, depth)
    case Values(rows) => StuckRows(rows, env, depth)
  }

  predicate StuckTable(t: TableRef, env: Env, depth: nat)
    decreases depth, t, 0
  {
    match t
    case Table(n, _, _) =>
      !IsVirtual(n, env) && ViewOf(n, env).Some? && depth > 0 && Stuck(ViewOf(n, env).value, env, depth - 1)
    case Derived(q, _) => Stuck(q, env, depth)
    case Join(l, r, _, c) => StuckTable(l, env, depth) || StuckTable(r, env, depth) || (c.On? && StuckExpr(c.expr, env, depth))
  }

  predicate StuckItems(items: List<SelectItem>, env: Env, depth: nat)
    decreases depth, items, 0
  {
    items.Cons? && ((items.head.Item? && StuckExpr(items.head.expr, env, depth)) || StuckItems(items.tail, env, depth))
  }

  predicate StuckOrders(os: List<OrderBy>, env: Env, depth: nat)
    decreases depth, os, 0
  {
    os.Cons? && (StuckExpr(os.head.expr, env, depth) || StuckOrders(os.tail, env, depth))
  }

  predicate StuckExprs(es: List<Expr>, env: Env, depth: nat)
    decreases depth, es, 0
  {
    es.Cons? && (StuckExpr(es.head, env, depth) || StuckExprs(es.tail, env, depth))
  }

  predicate StuckRows(rows: List<List<Expr>>, env: Env, depth: nat)
    decreases depth, rows, 0
  {
    rows.Cons? && (StuckExprs(rows.head, env, depth) || StuckRows(rows.tail, env, depth))
  }

  predicate StuckWhens(ws: List<When>, env: Env, depth: nat)
    decreases depth, ws, 0
  {
    ws.Cons? && (StuckExpr(ws.head.cond, env, depth) || StuckExpr(ws.head.result, env, depth) || StuckWhens(ws.tail, env, depth))
  }

  predicate StuckOpt(e: Option<Expr>, env: Env, depth: nat)
    decreases depth, e, 0
  {
    e.Some? && StuckExpr(e.value, env, depth)
  }

  predicate StuckWindow(w: Window, env: Env, depth: nat)
    decreases depth, w, 0
  {
    StuckExprs(w.partitionBy, env, depth) || StuckOrders(w.orderBy, env, depth)
  }

  predicate StuckExpr(e: Expr, env: Env, depth: nat)
    decreases depth, e, 0
  {
    match e
    case Scalar(q) => LeftUnexpanded(q, true, env)
    case Exists(q, _) => LeftUnexpanded(q, false, env)
    case InSubquery(x, q, _) => StuckExpr(x, env, depth) || LeftUnexpanded(q, false, env)
    case UnaryOp(_, x) => StuckExpr(x, env, depth)
    case Cast(x, _) => StuckExpr(x, env, depth)
    case IsNull(x, _) => StuckExpr(x, env, depth)
    case Interval(x, _) => StuckExpr(x, env, depth)
    case BinaryOp(l, _, r) => StuckExpr(l, env, depth) || StuckExpr(r, env, depth)
    case Function(_, args, params, _) => StuckExprs(args, env, depth) || StuckExprs(params, env, depth)
    case WindowCall(_, args, params, _, spec) =>
      StuckExprs(args, env, depth) || StuckExprs(params, env, depth) || StuckWindow(spec, env, depth)
    case Case(op, ws, els) => StuckOpt(op, env, depth) || StuckWhens(ws, env, depth) || StuckOpt(els, env, depth)
    case InList(x, list, _) => StuckExpr(x, env, depth) || StuckExprs(list, env, depth)
    case Between(x, lo, hi, _) => StuckExpr(x, env, depth) || StuckExpr(lo, env, depth) || StuckExpr(hi, env, depth)
    case Like(x, p, _, _) => StuckExpr(x, env, depth) || StuckExpr(p, env, depth)
    case Tuple(items) => StuckExprs(items, env, depth)
    case _ => false
  }

  // ------------------------------------------------------------ the exact condition

  /** System tables are computed relations that read from nothing further. */
  ghost predicate DerivesPlainly(env: Env) { forall n :: env.derive(n).Some? ==> Expanded(env.derive(n).value, env) }

  /** A rewrite that succeeds leaves no view and no virtual table anywhere in the
  query, views within views included, if and only if no subquery it had to leave
  in place names one. */
  lemma {:induction false} ExpandsIff(q: Query, env: Env, left: nat, depth: nat)
    requires DerivesPlainly(env) && left <= depth && RwQuery(q, env, left).Ok?
    ensures Expanded(RwQuery(q, env, left).value, env) <==> !Stuck(q, env, depth)
    decreases left, q, 1
  {
    CtesExpandsIff(q.with, env, left, depth);
    var l1 := RwCtes(q.with, env, left).left;
    SetExpandsIff(q.body, env, l1, depth);
    var l2 := RwSet(q.body, env, l1).left;
    OrdersExpandsIff(q.orderBy, env, l2, depth);
    var l3 := RwOrders(q.orderBy, env, l2).left;
    OptExpandsIff(q.limit, env, l3, depth);
    var l4 := RwOpt(q.limit, env, l3).left;
    OptExpandsIff(q.offset, env, l4, depth);
    var l5 := RwOpt(q.offset, env, l4).left;
    if q.limitBy.Some? {
      ExprExpandsIff(q.limitBy.value.n, env, l5, depth);
      ExprsExpandsIff(q.limitBy.value.keys, env, RwExpr(q.limitBy.value.n, env, l5).left, depth);
    }
  }

  lemma {:induction false} CtesExpandsIff(cs: List<Cte>, env: Env, left: nat, depth: nat)
    requires DerivesPlainly(env) && left <= depth && RwCtes(cs, env, left).Ok?
    ensures ExpandedCtes(RwCtes(cs, env, left).value, env) <==> !StuckCtes(cs, env, depth)
    decreases left, cs, 0
  {
    if cs.Cons? {
      ExpandsIff(cs.head.query, env, left, depth);
      CtesExpandsIff(cs.tail, env, RwQuery(cs.head.query, env, left).left, depth);
    }
  }

  lemma {:induction false} SetExpandsIff(s: SetExpr, env: Env, left: nat, depth: nat)
    requires DerivesPlainly(env) && left <= depth && RwSet(s, env, left).Ok?
    ensures ExpandedSet(RwSet(s, env, left).value, env) <==> !StuckSet(s, env, depth)
    decreases left, s, 1
  {
    match s
    case Plain(_) => SelectExpandsIff(s, env, left, depth);
    case Nested(q) => ExpandsIff(q, env, left, depth);
    case SetOperation(_, _, l, r) =>
      SetExpandsIff(l, env, left, depth);
      SetExpandsIff(r, env, RwSet(l, env, left).left, depth);
    case Values(rows) => RowsExpandsIff(rows, env, left, depth);
  }

  lemma {:induction false} SelectExpandsIff(s: SetExpr, env: Env, left: nat, depth: nat)
    requires DerivesPlainly(env) && left <= depth && s.Plain? && RwSet(s, env, left).Ok?
    ensures ExpandedSet(RwSet(s, env, left).value, env) <==> !StuckSet(s, env, depth)
    decreases left, s, 0
  {
    var sel := s.select;
    ItemsExpandsIff(sel.projection, env, left, depth);
    var l1 := RwItems(sel.projection, env, left).left;
    if sel.from.Some? { TableExpandsIff(sel.from.value, env, l1, depth); }
    var l2 := RwFrom(sel.from, env, l1).left;
    OptExpandsIff(sel.prewhere, env, l2, depth);
    var l3 := RwOpt(sel.prewhere, env, l2).left;
    OptExpandsIff(sel.selection, env, l3, depth);
    var l4 := RwOpt(sel.selection, env, l3).left;
    OptExpandsIff(sel.having, env, l4, depth);
    ExprsExpandsIff(sel.groupBy, env, RwOpt(sel.having, env, l4).left, depth);
  }

  lemma {:induction false} TableExpandsIff(t: TableRef, env: Env, left: nat, depth: nat)
    requires DerivesPlainly(env) && left <= depth && RwTable(t, env, left).Ok?
    ensures ExpandedTable(RwTable(t, env, left).value, env) <==> !StuckTable(t, env, depth)
    decreases left, t, 0
  {
    match t
    case Table(n, _, _) =>
      if !IsVirtual(n, env) && ViewOf(n, env).Some? { ExpandsIff(ViewOf(n, env).value, env, left - 1, depth - 1); }
    case Derived(q, _) => ExpandsIff(q, env, left, depth);
    case Join(l, r, _, c) =>
      TableExpandsIff(l, env, left, depth);
      var l1 := RwTable(l, env, left).left;
      TableExpandsIff(r, env, l1, depth);
      if c.On? { ExprExpandsIff(c.expr, env, RwTable(r, env, l1).left, depth); }
  }

  lemma {:induction false} ItemsExpandsIff(items: List<SelectItem>, env: Env, left: nat, depth: nat)
    requires DerivesPlainly(env) && left <= depth && RwItems(items, env, left).Ok?
    ensures ExpandedItems(RwItems(items, env, left).value, env) <==> !StuckItems(items, env, depth)
    decreases left, items, 0
  {
    if items.Cons? {
      if items.head.Item? {
        ExprExpandsIff(items.head.expr, env, left, depth);
        ItemsExpandsIff(items.tail, env, RwExpr(items.head.expr, env, left).left, depth);
      } else {
        ItemsExpandsIff(items.tail, env, left, depth);
      }
    }
  }

  lemma {:induction false} OrdersExpandsIff(os: List<OrderBy>, env: Env, left: nat, depth: nat)
    requires DerivesPlainly(env) && left <= depth && RwOrders(os, env, left).Ok?
    ensures ExpandedOrders(RwOrders(os, env, left).value, env) <==> !StuckOrders(os, env, depth)
    decreases left, os, 0
  {
    if os.Cons? {
      ExprExpandsIff(os.head.expr, env, left, depth);
      OrdersExpandsIff(os.tail, env, RwExpr(os.head.expr, env, left).left, depth);
    }
  }

  lemma {:induction false} ExprsExpandsIff(es: List<Expr>, env: Env, left: nat, depth: nat)
    requires DerivesPlainly(env) && left <= depth && RwExprs(es, env, left).Ok?
    ensures ExpandedExprs(RwExprs(es, env, left).value, env) <==> !StuckExprs(es, env, depth)
    decreases left, es, 0
  {
    if es.Cons? {
      ExprExpandsIff(es.head, env, left, depth);
      ExprsExpandsIff(es.tail, env, RwExpr(es.head, env, left).left, depth);
    }
  }

  lemma {:induction false} RowsExpandsIff(rows: List<List<Expr>>, env: Env, left: nat, depth: nat)
    requires DerivesPlainly(env) && left <= depth && RwRows(rows, env, left).Ok?
    ensures ExpandedRows(RwRows(rows, env, left).value, env) <==> !StuckRows(rows, env, depth)
    decreases left, rows, 0
  {
    if rows.Cons? {
      ExprsExpandsIff(rows.head, env, left, depth);
      RowsExpandsIff(rows.tail, env, RwExprs(rows.head, env, left).left, depth);
    }
  }

  lemma {:induction false} WhensExpandsIff(ws: List<When>, env: Env, left: nat, depth: nat)
    requires DerivesPlainly(env) && left <= depth && RwWhens(ws, env, left).Ok?
    ensures ExpandedWhens(RwWhens(ws, env, left).value, env) <==> !StuckWhens(ws, env, depth)
    decreases left, ws, 0
  {
    if ws.Cons? {
      ExprExpandsIff(ws.head.cond, env, left, depth);
      var l1 := RwExpr(ws.head.cond, env, left).left;
      ExprExpandsIff(ws.head.result, env, l1, depth);
      WhensExpandsIff(ws.tail, env, RwExpr(ws.head.result, env, l1).left, depth);
    }
  }

  lemma {:induction false} OptExpandsIff(e: Option<Expr>, env: Env, left: nat, depth: nat)
    requires DerivesPlainly(env) && left <= depth && RwOpt(e, env, left).Ok?
    ensures ExpandedOpt(RwOpt(e, env, left).value, env) <==> !StuckOpt(e, env, depth)
    decreases left, e, 0
  {
    if e.Some? { ExprExpandsIff(e.value, env, left, depth); }
  }

  lemma {:induction false} WindowExpandsIff(w: Window, env: Env, left: nat, depth: nat)
    requires DerivesPlainly(env) && left <= depth && RwWindow(w, env, left).Ok?
    ensures ExpandedWindow(RwWindow(w, env, left).value, env) <==> !StuckWindow(w, env, depth)
    decreases left, w, 0
  {
    ExprsExpandsIff(w.partitionBy, env, left, depth);
    OrdersExpandsIff(w.orderBy, env, RwExprs(w.partitionBy, env, left).left, depth);
  }

  lemma {:induction false} LiteralsExpanded(vs: List<Value>, env: Env)
    ensures ExpandedExprs(Literals(vs), env)
  {
    if vs.Cons? { LiteralsExpanded(vs.tail, env); }
  }

  lemma {:induction false} ExprExpandsIff(e: Expr, env: Env, left: nat, depth: nat)
    requires DerivesPlainly(env) && left <= depth && RwExpr(e, env, left).Ok?
    ensures ExpandedExpr(RwExpr(e, env, left).value, env) <==> !StuckExpr(e, env, depth)
    decreases left, e, 1
  {
    match e
    case UnaryOp(_, x) =>
      ExprExpandsIff(x, env, left, depth);
    case Cast(x, _) =>
      ExprExpandsIff(x, env, left, depth);
    case IsNull(x, _) =>
      ExprExpandsIff(x, env, left, depth);
    case Interval(x, _) =>
      ExprExpandsIff(x, env, left, depth);
    case BinaryOp(l, _, r) =>
      ExprExpandsIff(l, env, left, depth);
      var left1 := RwExpr(l, env, left).left;
      ExprExpandsIff(r, env, left1, depth);
    case Function(_, args, params, _) =>
      ExprsExpandsIff(args, env, left, depth);
      var left1 := RwExprs(args, env, left).left;
      ExprsExpandsIff(params, env, left1, depth);
    case InList(x, list, _) =>
      ExprExpandsIff(x, env, left, depth);
      var left1 := RwExpr(x, env, left).left;
      ExprsExpandsIff(list, env, left1, depth);
    case Like(x, p, _, _) =>
      ExprExpandsIff(x, env, left, depth);
      var left1 := RwExpr(x, env, left).left;
      ExprExpandsIff(p, env, left1, depth);
    case Tuple(items) =>
      ExprsExpandsIff(items, env, left, depth);
    case _ => LongExpandsIff(e, env, left, depth);
  }

  /** The expressions with a subquery beside an operand, or three parts. */
  lemma {:induction false} LongExpandsIff(e: Expr, env: Env, left: nat, depth: nat)
    requires DerivesPlainly(env) && left <= depth && RwExpr(e, env, left).Ok?
    requires !e.UnaryOp? && !e.Cast? && !e.IsNull? && !e.Interval?
    requires !e.BinaryOp? && !e.Function? && !e.InList? && !e.Like? && !e.Tuple?
    ensures ExpandedExpr(RwExpr(e, env, left).value, env) <==> !StuckExpr(e, env, depth)
    decreases left, e, 0
  {
    match e
    case InSubquery(x, q, _) =>
      ExprExpandsIff(x, env, left, depth);
      var v := RunSub(q, env, RwExpr(x, env, left).left, false);
      if v.value.Some? { LiteralsExpanded(v.value.value, env); }
    case WindowCall(_, args, params, _, spec) =>
      ExprsExpandsIff(args, env, left, depth);
      var left1 := RwExprs(args, env, left).left;
      ExprsExpandsIff(params, env, left1, depth);
      var left2 := RwExprs(params, env, left1).left;
      WindowExpandsIff(spec, env, left2, depth);
    case Case(op, ws, els) =>
      OptExpandsIff(op, env, left, depth);
      var left1 := RwOpt(op, env, left).left;
      WhensExpandsIff(ws, env, left1, depth);
      var left2 := RwWhens(ws, env, left1).left;
      OptExpandsIff(els, env, left2, depth);
    case Between(x, lo, hi, _) =>
      ExprExpandsIff(x, env, left, depth);
      var left1 := RwExpr(x, env, left).left;
      ExprExpandsIff(lo, env, left1, depth);
      var left2 := RwExpr(lo, env, left1).left;
      ExprExpandsIff(hi, env, left2, depth);
    case _ =>
  }

  // ---------------------------------------------------------------------- a witness

  function NoRows(): Query { Query(Nil, Values(Nil), Nil, None, None, None) }

  function FromV(): Query {
    Query(Nil, Plain(Select(false, Nil, Some(Table(["v"], None, false)), None, None, Nil, false, None)), Nil, None, None, None)
  }

  /** A view `v`, and subqueries that cannot run on their own. */
  function Correlating(): Env { Env(map["d.v" := NoRows()], "d", {}, n => None, (q, scalar) => Correlated) }

  /** A filter `EXISTS (SELECT ... FROM v)`. */
  function Filtered(): Query {
    Query(Nil, Plain(Select(false, Nil, None, None, Some(Exists(FromV(), false)), Nil, false, None)), Nil, None, None, None)
  }

  /** The view's name is still there after a rewrite that succeeds. */
  lemma {:induction false} CorrelatedKeepsView()
    ensures RwQuery(Filtered(), Correlating(), 64) == Ok(Filtered(), 63)
    ensures !Expanded(Filtered(), Correlating()) && Stuck(Filtered(), Correlating(), 64)
  {
    assert ViewKey(["v"], "d") == "d.v";
    assert !ExpandedTable(Table(["v"], None, false), Correlating());
    assert !Expanded(FromV(), Correlating());
    assert RwExpr(Exists(FromV(), false), Correlating(), 64) == Ok(Exists(FromV(), false), 63);
    assert StuckExpr(Exists(FromV(), false), Correlating(), 64);
  }
}
