/** When the rewrite succeeds: what it has to pay, and what it may not meet. */
module Budget {
  import opened Basics
  import opened Ast
  import opened Subquery

  /** Folds to pay for, or nothing at all where one is bound to fail. */
  type Price = Option<nat>

  function Plus(a: Price, b: Price): Price {
    if a.Some? && b.Some? then Some(a.value + b.value) else None
  }

  /** A subquery that may run costs one; one that fails, or a scalar of several
  rows, has no price. */
  function SubPrice(q: Query, env: Env, scalar: bool): Price {
    match env.eval(q, scalar)
    case Fails => None
    case Correlated => Some(1)
    case Rows(vs) => if scalar && vs.Cons? && vs.tail.Cons? then None else Some(1)
  }

  /** Each subquery of an expression costs one, each view one and what its body
  costs.  `depth` bounds how deep views are followed. */
  function QueryPrice(q: Query, env: Env, depth: nat): Price
    decreases depth, q, 1
  {
    Plus(CtesPrice(q.with, env, depth),
    Plus(SetPrice(q.body, env, depth),
    Plus(OrdersPrice(q.orderBy, env, depth),
    Plus(OptPrice(q.limit, env, depth),
    Plus(OptPrice(q.offset, env, depth),
      if q.limitBy.None? then Some(0)
      else Plus(ExprPrice(q.limitBy.value.n, env, depth), ExprsPrice(q.limitBy.value.keys, env, depth)))))))
  }

  function CtesPrice(cs: List<Cte>, env: Env, depth: nat): Price
    decreases depth, cs, 0
  {
    if cs.Nil? then Some(0) else Plus(QueryPrice(cs.head.query, env, depth), CtesPrice(cs.tail, env, depth))
  }

  function SetPrice(e: SetExpr, env: Env, depth: nat): Price
    decreases depth, e, 0
  {
    match e
    case Plain(sel) =>
      Plus(ItemsPrice(sel.projection, env, depth),
      Plus(if sel.from.None? then Some(0) else TablePrice(sel.from.value, env, depth),
      Plus(OptPrice(sel.prewhere, env, depth),
      Plus(OptPrice(sel.selection, env, depth),
      Plus(OptPrice(sel.having, env, depth), ExprsPrice(sel.groupBy, env, depth))))))
    case Nested(q) => QueryPrice(q, env, depth)
    case SetOperation(_, _, l, r) => Plus(SetPrice(l, env, depth), SetPrice(r, env, depth))
    case Values(rows) => RowsPrice(rows, env, depth)
  }

  function TablePrice(t: TableRef, env: Env, depth: nat): Price
    decreases depth, t, 0
  {
    match t
    case Table(n, _, _) =>
      if IsVirtual(n, env) then (if env.derive(n).Some? then Some(0) else None)
      else if ViewOf(n, env).None? then Some(0)
      else if depth == 0 then Some(1)
      else Plus(Some(1), QueryPrice(ViewOf(n, env).value, env, depth - 1))
    case Derived(q, _) => QueryPrice(q, env, depth)
    case Join(l, r, _, c) =>
      Plus(TablePrice(l, env, depth),
      Plus(TablePrice(r, env, depth), if c.On? then ExprPrice(c.expr, env, depth) else Some(0)))
  }

  function ItemsPrice(items: List<SelectItem>, env: Env, depth: nat): Price
    decreases depth, items, 0
  {
    if items.Nil? then Some(0)
    else Plus(if items.head.Item? then ExprPrice(items.head.expr, env, depth) else Some(0), ItemsPrice(items.tail, env, depth))
  }

  function OrdersPrice(os: List<OrderBy>, env: Env, depth: nat): Price
    decreases depth, os, 0
  {
    if os.Nil? then Some(0) else Plus(ExprPrice(os.head.expr, env, depth), OrdersPrice(os.tail, env, depth))
  }

  function ExprsPrice(es: List<Expr>, env: Env, depth: nat): Price
    decreases depth, es, 0
  {
    if es.Nil? then Some(0) else Plus(ExprPrice(es.head, env, depth), ExprsPrice(es.tail, env, depth))
  }

  function RowsPrice(rows: List<List<Expr>>, env: Env, depth: nat): Price
    decreases depth, rows, 0
  {
    if rows.Nil? then Some(0) else Plus(ExprsPrice(rows.head, env, depth), RowsPrice(rows.tail, env, depth))
  }

  function WhensPrice(ws: List<When>, env: Env, depth: nat): Price
    decreases depth, ws, 0
  {
    if ws.Nil? then Some(0)
    else
      Plus(ExprPrice(ws.head.cond, env, depth),
      Plus(ExprPrice(ws.head.result, env, depth), WhensPrice(ws.tail, env, depth)))
  }

  function OptPrice(e: Option<Expr>, env: Env, depth: nat): Price
    decreases depth, e, 0
  {
    if e.None? then Some(0) else ExprPrice(e.value, env, depth)
  }

  function WindowPrice(w: Window, env: Env, depth: nat): Price
    decreases depth, w, 0
  {
    Plus(ExprsPrice(w.partitionBy, env, depth), OrdersPrice(w.orderBy, env, depth))
  }

  function ExprPrice(e: Expr, env: Env, depth: nat): Price
    decreases depth, e, 0
  {
    match e
    case Scalar(q) => SubPrice(q, env, true)
    case Exists(q, _) => SubPrice(q, env, false)
    case InSubquery(x, q, _) => Plus(ExprPrice(x, env, depth), SubPrice(q, env, false))
    case UnaryOp(_, x) => ExprPrice(x, env, depth)
    case Cast(x, _) => ExprPrice(x, env, depth)
    case IsNull(x, _) => ExprPrice(x, env, depth)
    case Interval(x, _) => ExprPrice(x, env, depth)
    case BinaryOp(l, _, r) => Plus(ExprPrice(l, env, depth), ExprPrice(r, env, depth))
    case Function(_, args, params, _) => Plus(ExprsPrice(args, env, depth), ExprsPrice(params, env, depth))
    case WindowCall(_, args, params, _, spec) =>
      Plus(ExprsPrice(args, env, depth), Plus(ExprsPrice(params, env, depth), WindowPrice(spec, env, depth)))
    case Case(op, ws, els) =>
      Plus(OptPrice(op, env, depth), Plus(WhensPrice(ws, env, depth), OptPrice(els, env, depth)))
    case InList(x, list, _) => Plus(ExprPrice(x, env, depth), ExprsPrice(list, env, depth))
    case Between(x, lo, hi, _) =>
      Plus(ExprPrice(x, env, depth), Plus(ExprPrice(lo, env, depth), ExprPrice(hi, env, depth)))
    case Like(x, p, _, _) => Plus(ExprPrice(x, env, depth), ExprPrice(p, env, depth))
    case Tuple(items) => ExprsPrice(items, env, depth)
    case _ => Some(0)
  }

  // ------------------------------------------------------------- the exact condition

  /** The result succeeds exactly when the price is known and affordable, and
  then costs exactly it. */
  predicate Paid<T>(r: Res<T>, price: Price, left: nat) {
    && (r.Ok? <==> price.Some? && price.value <= left)
    && (r.Ok? ==> r.left == left - price.value)
  }

  /** The rewrite succeeds if and only if nothing it meets fails and the budget
  covers every subquery and every view, those inside views included. */
  lemma {:induction false} SucceedsIff(q: Query, env: Env, left: nat, depth: nat)
    requires left <= depth
    ensures Paid(RwQuery(q, env, left), QueryPrice(q, env, depth), left)
    decreases depth, q, 1
  {
    CtesPaid(q.with, env, left, depth);
    if RwCtes(q.with, env, left).Err? { return; }
    var l1 := RwCtes(q.with, env, left).left;
    SetPaid(q.body, env, l1, depth);
    if RwSet(q.body, env, l1).Err? { return; }
    var l2 := RwSet(q.body, env, l1).left;
    OrdersPaid(q.orderBy, env, l2, depth);
    if RwOrders(q.orderBy, env, l2).Err? { return; }
    var l3 := RwOrders(q.orderBy, env, l2).left;
    OptPaid(q.limit, env, l3, depth);
    if RwOpt(q.limit, env, l3).Err? { return; }
    var l4 := RwOpt(q.limit, env, l3).left;
    OptPaid(q.offset, env, l4, depth);
    if RwOpt(q.offset, env, l4).Err? || q.limitBy.None? { return; }
    var l5 := RwOpt(q.offset, env, l4).left;
    ExprPaid(q.limitBy.value.n, env, l5, depth);
    if RwExpr(q.limitBy.value.n, env, l5).Err? { return; }
    ExprsPaid(q.limitBy.value.keys, env, RwExpr(q.limitBy.value.n, env, l5).left, depth);
  }

  lemma {:induction false} CtesPaid(cs: List<Cte>, env: Env, left: nat, depth: nat)
    requires left <= depth
    ensures Paid(RwCtes(cs, env, left), CtesPrice(cs, env, depth), left)
    decreases depth, cs, 0
  {
    if cs.Nil? { return; }
    SucceedsIff(cs.head.query, env, left, depth);
    if RwQuery(cs.head.query, env, left).Err? { return; }
    var l1 := RwQuery(cs.head.query, env, left).left;
    CtesPaid(cs.tail, env, l1, depth);
  }

  lemma {:induction false} SetPaid(e: SetExpr, env: Env, left: nat, depth: nat)
    requires left <= depth
    ensures Paid(RwSet(e, env, left), SetPrice(e, env, depth), left)
    decreases depth, e, 1
  {
    match e
    case Plain(sel) => SelectPaid(e, env, left, depth);
    case Nested(q) => SucceedsIff(q, env, left, depth);
    case SetOperation(_, _, l, r) =>
      SetPaid(l, env, left, depth);
      if RwSet(l, env, left).Err? { return; }
      var l1 := RwSet(l, env, left).left;
      SetPaid(r, env, l1, depth);
    case Values(rows) => RowsPaid(rows, env, left, depth);
  }

  lemma {:induction false} SelectPaid(e: SetExpr, env: Env, left: nat, depth: nat)
    requires left <= depth && e.Plain?
    ensures Paid(RwSet(e, env, left), SetPrice(e, env, depth), left)
    decreases depth, e, 0
  {
    var sel := e.select;
    ItemsPaid(sel.projection, env, left, depth);
    if RwItems(sel.projection, env, left).Err? { return; }
    var l1 := RwItems(sel.projection, env, left).left;
    if sel.from.Some? { TablePaid(sel.from.value, env, l1, depth); }
    if RwFrom(sel.from, env, l1).Err? { return; }
    var l2 := RwFrom(sel.from, env, l1).left;
    OptPaid(sel.prewhere, env, l2, depth);
    if RwOpt(sel.prewhere, env, l2).Err? { return; }
    var l3 := RwOpt(sel.prewhere, env, l2).left;
    OptPaid(sel.selection, env, l3, depth);
    if RwOpt(sel.selection, env, l3).Err? { return; }
    var l4 := RwOpt(sel.selection, env, l3).left;
    OptPaid(sel.having, env, l4, depth);
    if RwOpt(sel.having, env, l4).Err? { return; }
    ExprsPaid(sel.groupBy, env, RwOpt(sel.having, env, l4).left, depth);
  }

  lemma {:induction false} TablePaid(t: TableRef, env: Env, left: nat, depth: nat)
    requires left <= depth
    ensures Paid(RwTable(t, env, left), TablePrice(t, env, depth), left)
    decreases depth, t, 0
  {
    match t
    case Table(n, _, _) =>
      if !IsVirtual(n, env) && ViewOf(n, env).Some? && left > 0 {
        SucceedsIff(ViewOf(n, env).value, env, left - 1, depth - 1);
      }
    case Derived(q, _) => SucceedsIff(q, env, left, depth);
    case Join(l, r, _, c) =>
      TablePaid(l, env, left, depth);
      if RwTable(l, env, left).Err? { return; }
      var l1 := RwTable(l, env, left).left;
      TablePaid(r, env, l1, depth);
      if RwTable(r, env, l1).Ok? && c.On? { ExprPaid(c.expr, env, RwTable(r, env, l1).left, depth); }
  }

  lemma {:induction false} ItemsPaid(items: List<SelectItem>, env: Env, left: nat, depth: nat)
    requires left <= depth
    ensures Paid(RwItems(items, env, left), ItemsPrice(items, env, depth), left)
    decreases depth, items, 0
  {
    if items.Nil? { return; }
    if items.head.Item? {
      ExprPaid(items.head.expr, env, left, depth);
      if RwExpr(items.head.expr, env, left).Ok? { ItemsPaid(items.tail, env, RwExpr(items.head.expr, env, left).left, depth); }
    } else {
      ItemsPaid(items.tail, env, left, depth);
    }
  }

  lemma {:induction false} OrdersPaid(os: List<OrderBy>, env: Env, left: nat, depth: nat)
    requires left <= depth
    ensures Paid(RwOrders(os, env, left), OrdersPrice(os, env, depth), left)
    decreases depth, os, 0
  {
    if os.Nil? { return; }
    ExprPaid(os.head.expr, env, left, depth);
    if RwExpr(os.head.expr, env, left).Err? { return; }
    var l1 := RwExpr(os.head.expr, env, left).left;
    OrdersPaid(os.tail, env, l1, depth);
  }

  lemma {:induction false} ExprsPaid(es: List<Expr>, env: Env, left: nat, depth: nat)
    requires left <= depth
    ensures Paid(RwExprs(es, env, left), ExprsPrice(es, env, depth), left)
    decreases depth, es, 0
  {
    if es.Nil? { return; }
    ExprPaid(es.head, env, left, depth);
    if RwExpr(es.head, env, left).Err? { return; }
    var l1 := RwExpr(es.head, env, left).left;
    ExprsPaid(es.tail, env, l1, depth);
  }

  lemma {:induction false} RowsPaid(rows: List<List<Expr>>, env: Env, left: nat, depth: nat)
    requires left <= depth
    ensures Paid(RwRows(rows, env, left), RowsPrice(rows, env, depth), left)
    decreases depth, rows, 0
  {
    if rows.Nil? { return; }
    ExprsPaid(rows.head, env, left, depth);
    if RwExprs(rows.head, env, left).Err? { return; }
    var l1 := RwExprs(rows.head, env, left).left;
    RowsPaid(rows.tail, env, l1, depth);
  }

  lemma {:induction false} WhensPaid(ws: List<When>, env: Env, left: nat, depth: nat)
    requires left <= depth
    ensures Paid(RwWhens(ws, env, left), WhensPrice(ws, env, depth), left)
    decreases depth, ws, 0
  {
    if ws.Nil? { return; }
    ExprPaid(ws.head.cond, env, left, depth);
    if RwExpr(ws.head.cond, env, left).Err? { return; }
    var l1 := RwExpr(ws.head.cond, env, left).left;
    ExprPaid(ws.head.result, env, l1, depth);
    if RwExpr(ws.head.result, env, l1).Err? { return; }
    var l2 := RwExpr(ws.head.result, env, l1).left;
    WhensPaid(ws.tail, env, l2, depth);
  }

  lemma {:induction false} OptPaid(e: Option<Expr>, env: Env, left: nat, depth: nat)
    requires left <= depth
    ensures Paid(RwOpt(e, env, left), OptPrice(e, env, depth), left)
    decreases depth, e, 0
  {
    if e.Some? { ExprPaid(e.value, env, left, depth); }
  }

  lemma {:induction false} WindowPaid(w: Window, env: Env, left: nat, depth: nat)
    requires left <= depth
    ensures Paid(RwWindow(w, env, left), WindowPrice(w, env, depth), left)
    decreases depth, w, 0
  {
    ExprsPaid(w.partitionBy, env, left, depth);
    if RwExprs(w.partitionBy, env, left).Err? { return; }
    var l1 := RwExprs(w.partitionBy, env, left).left;
    OrdersPaid(w.orderBy, env, l1, depth);
  }

  lemma {:induction false} ExprPaid(e: Expr, env: Env, left: nat, depth: nat)
    requires left <= depth
    ensures Paid(RwExpr(e, env, left), ExprPrice(e, env, depth), left)
    decreases depth, e, 1
  {
    match e
    case UnaryOp(_, x) => ExprPaid(x, env, left, depth);
    case Cast(x, _) => ExprPaid(x, env, left, depth);
    case IsNull(x, _) => ExprPaid(x, env, left, depth);
    case Interval(x, _) => ExprPaid(x, env, left, depth);
    case InSubquery(x, _, _) => ExprPaid(x, env, left, depth);
    case BinaryOp(_, _, _) => PairPaid(e, env, left, depth);
    case Function(_, _, _, _) => PairPaid(e, env, left, depth);
    case InList(_, _, _) => PairPaid(e, env, left, depth);
    case Like(_, _, _, _) => PairPaid(e, env, left, depth);
    case Tuple(items) => ExprsPaid(items, env, left, depth);
    case WindowCall(_, _, _, _, _) => CallPaid(e, env, left, depth);
    case Case(_, _, _) => CasePaid(e, env, left, depth);
    case Between(_, _, _, _) => BetweenPaid(e, env, left, depth);
    case _ =>
  }

  lemma {:induction false} PairPaid(e: Expr, env: Env, left: nat, depth: nat)
    requires left <= depth && (e.BinaryOp? || e.Function? || e.InList? || e.Like?)
    ensures Paid(RwExpr(e, env, left), ExprPrice(e, env, depth), left)
    decreases depth, e, 0
  {
    match e
    case BinaryOp(l, _, r) =>
      ExprPaid(l, env, left, depth);
      if RwExpr(l, env, left).Err? { return; }
      var l1 := RwExpr(l, env, left).left;
      ExprPaid(r, env, l1, depth);
    case Function(_, args, params, _) =>
      ExprsPaid(args, env, left, depth);
      if RwExprs(args, env, left).Err? { return; }
      var l1 := RwExprs(args, env, left).left;
      ExprsPaid(params, env, l1, depth);
    case InList(x, list, _) =>
      ExprPaid(x, env, left, depth);
      if RwExpr(x, env, left).Err? { return; }
      var l1 := RwExpr(x, env, left).left;
      ExprsPaid(list, env, l1, depth);
    case Like(x, p, _, _) =>
      ExprPaid(x, env, left, depth);
      if RwExpr(x, env, left).Err? { return; }
      var l1 := RwExpr(x, env, left).left;
      ExprPaid(p, env, l1, depth);
  }

  lemma {:induction false} CallPaid(e: Expr, env: Env, left: nat, depth: nat)
    requires left <= depth && e.WindowCall?
    ensures Paid(RwExpr(e, env, left), ExprPrice(e, env, depth), left)
    decreases depth, e, 0
  {
    ExprsPaid(e.args, env, left, depth);
    if RwExprs(e.args, env, left).Err? { return; }
    var l1 := RwExprs(e.args, env, left).left;
    ExprsPaid(e.params, env, l1, depth);
    if RwExprs(e.params, env, l1).Err? { return; }
    var l2 := RwExprs(e.params, env, l1).left;
    WindowPaid(e.spec, env, l2, depth);
  }

  lemma {:induction false} CasePaid(e: Expr, env: Env, left: nat, depth: nat)
    requires left <= depth && e.Case?
    ensures Paid(RwExpr(e, env, left), ExprPrice(e, env, depth), left)
    decreases depth, e, 0
  {
    OptPaid(e.operand, env, left, depth);
    if RwOpt(e.operand, env, left).Err? { return; }
    var l1 := RwOpt(e.operand, env, left).left;
    WhensPaid(e.whenThen, env, l1, depth);
    if RwWhens(e.whenThen, env, l1).Err? { return; }
    var l2 := RwWhens(e.whenThen, env, l1).left;
    OptPaid(e.elseResult, env, l2, depth);
  }

  lemma {:induction false} BetweenPaid(e: Expr, env: Env, left: nat, depth: nat)
    requires left <= depth && e.Between?
    ensures Paid(RwExpr(e, env, left), ExprPrice(e, env, depth), left)
    decreases depth, e, 0
  {
    ExprPaid(e.expr, env, left, depth);
    if RwExpr(e.expr, env, left).Err? { return; }
    var l1 := RwExpr(e.expr, env, left).left;
    ExprPaid(e.low, env, l1, depth);
    if RwExpr(e.low, env, l1).Err? { return; }
    var l2 := RwExpr(e.low, env, l1).left;
    ExprPaid(e.high, env, l2, depth);
  }
}
