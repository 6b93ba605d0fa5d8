/** Folding keeps what a query means. */
module Folding {
  import opened Basics
  import opened Ast
  import opened Subquery
  import opened CteScope
  import opened Meaning

  // ------------------------------------------------------------- scopes side by side

  /** `more` has every binding of `less`. */
  ghost predicate Extends(less: Scope, more: Scope) {
    less.Keys <= more.Keys && forall k :: k in less.Keys ==> more[k] == less[k]
  }

  /** The names only the larger scope binds. */
  ghost function Extra(less: Scope, more: Scope): set<string> { more.Keys - less.Keys }

  /** The same binding added to both. */
  lemma {:induction false} ExtendBoth(less: Scope, more: Scope, k: string, b: Binding)
    requires Extends(less, more)
    ensures Extends(less[k := b], more[k := b]) && Extra(less[k := b], more[k := b]) == Extra(less, more) - {k}
    ensures less[k := b].Keys == less.Keys + {k}
  {
  }

  lemma {:induction false} ExtendSelf(scope: Scope)
    ensures Extends(scope, scope) && Extra(scope, scope) == {}
    ensures Extends(map[], scope) && Extra(map[], scope) == scope.Keys
  {
  }

  // ---------------------------------------------- names not read make no difference

  lemma {:induction false} SameQuery(q: Query, s: Semantics, less: Scope, more: Scope)
    requires Extends(less, more) && !ReadsQuery(q, Extra(less, more))
    ensures MeansQuery(q, s, more) == MeansQuery(q, s, less)
    decreases q, 1
  {
    SameCtes(q.with, s, less, more);
    var less', more' := Bind(q.with, s, less), Bind(q.with, s, more);
    SameSet(q.body, s, less', more');
    SameOrders(q.orderBy, s, less', more');
    SameOpt(q.limit, s, less', more');
    SameOpt(q.offset, s, less', more');
    if q.limitBy.Some? {
      SameExpr(q.limitBy.value.n, s, less', more');
      SameExprs(q.limitBy.value.keys, s, less', more');
    }
  }

  lemma {:induction false} SameCtes(cs: List<Cte>, s: Semantics, less: Scope, more: Scope)
    requires Extends(less, more) && !ReadsCtes(cs, Extra(less, more))
    ensures Extends(Bind(cs, s, less), Bind(cs, s, more))
    ensures Extra(Bind(cs, s, less), Bind(cs, s, more)) == Extra(less, more) - CteNames(cs)
    decreases cs, 0
  {
    match cs
    case Nil =>
    case Cons(c, rest) =>
      SameQuery(c.query, s, less, more);
      var b := Binding(c.name, MeansQuery(c.query, s, less));
      ExtendBoth(less, more, Lower(c.name), b);
      SameCtes(rest, s, less[Lower(c.name) := b], more[Lower(c.name) := b]);
      assert Extra(less, more) - {Lower(c.name)} - CteNames(rest) == Extra(less, more) - CteNames(cs);
  }

  lemma {:induction false} SameSet(e: SetExpr, s: Semantics, less: Scope, more: Scope)
    requires Extends(less, more) && !ReadsSet(e, Extra(less, more))
    ensures MeansSet(e, s, more) == MeansSet(e, s, less)
    decreases e, 0
  {
    match e
    case Plain(sel) =>
      SameItems(sel.projection, s, less, more);
      if sel.from.Some? { SameTable(sel.from.value, s, less, more); }
      SameOpt(sel.prewhere, s, less, more);
      SameOpt(sel.selection, s, less, more);
      SameOpt(sel.having, s, less, more);
      SameExprs(sel.groupBy, s, less, more);
    case Nested(q) => SameQuery(q, s, less, more);
    case SetOperation(_, _, l, r) =>
      SameSet(l, s, less, more);
      SameSet(r, s, less, more);
    case Values(rows) => SameRows(rows, s, less, more);
  }

  lemma {:induction false} SameTable(t: TableRef, s: Semantics, less: Scope, more: Scope)
    requires Extends(less, more) && !ReadsTable(t, Extra(less, more))
    ensures MeansTable(t, s, more) == MeansTable(t, s, less)
    decreases t, 0
  {
    match t
    case Table(n, _, _) =>
    case Derived(q, _) => SameQuery(q, s, less, more);
    case Join(l, r, _, c) =>
      SameTable(l, s, less, more);
      SameTable(r, s, less, more);
      if c.On? { SameExpr(c.expr, s, less, more); }
  }

  lemma {:induction false} SameItems(items: List<SelectItem>, s: Semantics, less: Scope, more: Scope)
    requires Extends(less, more) && !ReadsItems(items, Extra(less, more))
    ensures MeansItems(items, s, more) == MeansItems(items, s, less)
    decreases items, 0
  {
    if items.Cons? {
      if items.head.Item? { SameExpr(items.head.expr, s, less, more); }
      SameItems(items.tail, s, less, more);
    }
  }

  lemma {:induction false} SameOrders(os: List<OrderBy>, s: Semantics, less: Scope, more: Scope)
    requires Extends(less, more) && !ReadsOrders(os, Extra(less, more))
    ensures MeansOrders(os, s, more) == MeansOrders(os, s, less)
    decreases os, 0
  {
    if os.Cons? {
      SameExpr(os.head.expr, s, less, more);
      SameOrders(os.tail, s, less, more);
    }
  }

  lemma {:induction false} SameExprs(es: List<Expr>, s: Semantics, less: Scope, more: Scope)
    requires Extends(less, more) && !ReadsExprs(es, Extra(less, more))
    ensures MeansExprs(es, s, more) == MeansExprs(es, s, less)
    decreases es, 0
  {
    if es.Cons? {
      SameExpr(es.head, s, less, more);
      SameExprs(es.tail, s, less, more);
    }
  }

  lemma {:induction false} SameRows(rows: List<List<Expr>>, s: Semantics, less: Scope, more: Scope)
    requires Extends(less, more) && !ReadsRows(rows, Extra(less, more))
    ensures MeansRows(rows, s, more) == MeansRows(rows, s, less)
    decreases rows, 0
  {
    if rows.Cons? {
      SameExprs(rows.head, s, less, more);
      SameRows(rows.tail, s, less, more);
    }
  }

  lemma {:induction false} SameWhens(ws: List<When>, s: Semantics, less: Scope, more: Scope)
    requires Extends(less, more) && !ReadsWhens(ws, Extra(less, more))
    ensures MeansWhens(ws, s, more) == MeansWhens(ws, s, less)
    decreases ws, 0
  {
    if ws.Cons? {
      SameExpr(ws.head.cond, s, less, more);
      SameExpr(ws.head.result, s, less, more);
      SameWhens(ws.tail, s, less, more);
    }
  }

  lemma {:induction false} SameOpt(e: Option<Expr>, s: Semantics, less: Scope, more: Scope)
    requires Extends(less, more) && !ReadsOpt(e, Extra(less, more))
    ensures MeansOpt(e, s, more) == MeansOpt(e, s, less)
    decreases e, 0
  {
    if e.Some? { SameExpr(e.value, s, less, more); }
  }

  lemma {:induction false} SameWindow(w: Window, s: Semantics, less: Scope, more: Scope)
    requires Extends(less, more) && !ReadsWindow(w, Extra(less, more))
    ensures MeansWindow(w, s, more) == MeansWindow(w, s, less)
    decreases w, 0
  {
    SameExprs(w.partitionBy, s, less, more);
    SameOrders(w.orderBy, s, less, more);
  }

  lemma {:induction false} SameExpr(e: Expr, s: Semantics, less: Scope, more: Scope)
    requires Extends(less, more) && !ReadsExpr(e, Extra(less, more))
    ensures MeansExpr(e, s, more) == MeansExpr(e, s, less)
    decreases e, 1
  {
    match e
    case Scalar(q) => SameQuery(q, s, less, more);
    case Exists(q, _) => SameQuery(q, s, less, more);
    case InSubquery(x, q, _) =>
      SameExpr(x, s, less, more);
      SameQuery(q, s, less, more);
    case UnaryOp(_, x) => SameExpr(x, s, less, more);
    case Cast(x, _) => SameExpr(x, s, less, more);
    case IsNull(x, _) => SameExpr(x, s, less, more);
    case Interval(x, _) => SameExpr(x, s, less, more);
    case BinaryOp(_, _, _) => SamePair(e, s, less, more);
    case Function(_, _, _, _) => SamePair(e, s, less, more);
    case InList(_, _, _) => SamePair(e, s, less, more);
    case Like(_, _, _, _) => SamePair(e, s, less, more);
    case Tuple(items) => SameExprs(items, s, less, more);
    case _ => SameLong(e, s, less, more);
  }

  predicate Pair(e: Expr) { e.BinaryOp? || e.Function? || e.InList? || e.Like? }

  lemma {:induction false} SamePair(e: Expr, s: Semantics, less: Scope, more: Scope)
    requires Pair(e) && Extends(less, more) && !ReadsExpr(e, Extra(less, more))
    ensures MeansExpr(e, s, more) == MeansExpr(e, s, less)
    decreases e, 0
  {
    match e
    case BinaryOp(l, _, r) =>
      SameExpr(l, s, less, more);
      SameExpr(r, s, less, more);
    case Function(_, args, params, _) =>
      SameExprs(args, s, less, more);
      SameExprs(params, s, less, more);
    case InList(x, list, _) =>
      SameExpr(x, s, less, more);
      SameExprs(list, s, less, more);
    case Like(x, p, _, _) =>
      SameExpr(x, s, less, more);
      SameExpr(p, s, less, more);
  }

  predicate Long(e: Expr) { e.WindowCall? || e.Case? || e.Between? || e.Literal? || e.Column? || e.Wildcard? }

  lemma {:induction false} SameLong(e: Expr, s: Semantics, less: Scope, more: Scope)
    requires Long(e) && Extends(less, more) && !ReadsExpr(e, Extra(less, more))
    ensures MeansExpr(e, s, more) == MeansExpr(e, s, less)
    decreases e, 0
  {
    match e
    case WindowCall(_, args, params, _, spec) =>
      SameExprs(args, s, less, more);
      SameExprs(params, s, less, more);
      SameWindow(spec, s, less, more);
    case Case(op, ws, els) =>
      SameOpt(op, s, less, more);
      SameWhens(ws, s, less, more);
      SameOpt(els, s, less, more);
    case Between(x, lo, hi, _) =>
      SameExpr(x, s, less, more);
      SameExpr(lo, s, less, more);
      SameExpr(hi, s, less, more);
    case _ =>
  }

  // ------------------------------------------------ a database that means what it says

  /** The values an answer stands for, unless it was cut off at two. */
  predicate Whole(v: Eval, scalar: bool) { v.Rows? && !(scalar && v.values.Cons? && v.values.tail.Cons?) }

  /** Running `q` on its own, outside every scope, gives `vs`, whatever row it is
  asked for. */
  ghost predicate Answers(q: Query, s: Semantics, vs: List<Value>) {
    forall o: Row :: Firsts(RelAt(MeansQuery(q, s, map[]), o).rows) == vs
  }

  /** `q` means the relation `n` names. */
  ghost predicate Defines(q: Query, s: Semantics, n: Name) {
    forall final: bool :: MeansQuery(q, s, map[]) == ConstRel(s.base(n, final))
  }

  /** A view is what its body says, a virtual table what it is derived as, and a
  subquery that runs means what running it gives. */
  ghost predicate Sound(env: Env, s: Semantics) {
    && (forall n {:trigger ViewOf(n, env)} :: ViewOf(n, env).Some? ==> Defines(ViewOf(n, env).value, s, n))
    && (forall n {:trigger env.derive(n)} :: IsVirtual(n, env) && env.derive(n).Some? ==> Defines(env.derive(n).value, s, n))
    && (forall q, scalar {:trigger env.eval(q, scalar)} ::
          Whole(env.eval(q, scalar), scalar) ==> Answers(q, s, env.eval(q, scalar).values))
  }

  /** Stored bodies name every relation in full, their own CTEs aside. */
  ghost predicate Standing(q: Query) { forall scope: set<string> :: !ReadsQuery(q, scope) }

  /** Every stored body is, and none has a CTE its own rewrite would miss. */
  ghost predicate Stored(env: Env) {
    && (forall n {:trigger ViewOf(n, env)} :: ViewOf(n, env).Some? ==>
          Standing(ViewOf(n, env).value) && !Captured(ViewOf(n, env).value, {}, env))
    && (forall n {:trigger env.derive(n)} :: env.derive(n).Some? ==> Standing(env.derive(n).value))
  }

  // -------------------------------------------------------------- one fold at a time

  /** A subquery that runs, and reads nothing the CTEs around it bind, means its
  answer in scope too. */
  lemma {:induction false} RunMeans(q: Query, env: Env, s: Semantics, scalar: bool, scope: Scope)
    requires Sound(env, s) && Whole(env.eval(q, scalar), scalar) && !Misread(q, scalar, scope.Keys, env)
    ensures forall o: Row :: Firsts(RelAt(MeansQuery(q, s, scope), o).rows) == env.eval(q, scalar).values
  {
    ExtendSelf(scope);
    SameQuery(q, s, map[], scope);
    assert Answers(q, s, env.eval(q, scalar).values);
  }

  lemma {:induction false} LiteralsAt(vs: List<Value>, s: Semantics, scope: Scope, c: Context)
    ensures ValuesAt(MeansExprs(Literals(vs), s, scope), c) == vs
    decreases vs
  {
    if vs.Cons? { LiteralsAt(vs.tail, s, scope, c); }
  }

  lemma {:induction false} FirstsCons(rows: List<List<Value>>)
    ensures Firsts(rows).Cons? <==> rows.Cons?
  {
  }

  lemma {:induction false} ScalarFolds(r: Rel, vs: List<Value>)
    requires forall o: Row :: Firsts(RelAt(r, o).rows) == vs
    ensures ScalarCol(r) == Const(One(vs))
  {
  }

  lemma {:induction false} ExistsFolds(r: Rel, vs: List<Value>, negated: bool)
    requires forall o: Row :: Firsts(RelAt(r, o).rows) == vs
    ensures ExistsCol(r, negated) == Const(Bool(vs.Cons? != negated))
  {
    forall c: Context ensures RelAt(r, c.row).rows.Cons? <==> vs.Cons? { FirstsCons(RelAt(r, c.row).rows); }
  }

  lemma {:induction false} InFolds(s: Semantics, a: Col, r: Rel, vs: List<Value>, negated: bool, scope: Scope)
    requires forall o: Row :: Firsts(RelAt(r, o).rows) == vs
    ensures InRelCol(s, a, r, negated) == InListCol(s, a, MeansExprs(Literals(vs), s, scope), negated)
  {
    forall c: Context ensures ValuesAt(MeansExprs(Literals(vs), s, scope), c) == vs { LiteralsAt(vs, s, scope, c); }
  }

  lemma {:induction false} NamedConst(s: Semantics, q: Query, n: Name, final: bool, alias: Option<string>)
    requires Defines(q, s, n)
    ensures NamedRel(s, MeansQuery(q, s, map[]), alias) == NamedRel(s, ConstRel(s.base(n, final)), alias)
  {
  }

  // ------------------------------------------------------------------- the rewrite

  /** A rewrite that succeeds means what the query did, in any scope that binds
  more names than the query can read, if no CTE-bound reference is taken for
  another relation. */
  lemma {:induction false} QueryMeans(q: Query, env: Env, s: Semantics, left: nat, less: Scope, more: Scope)
    requires Sound(env, s) && Stored(env) && Extends(less, more) && !ReadsQuery(q, Extra(less, more))
    requires RwQuery(q, env, left).Ok? && !Captured(q, less.Keys, env)
    ensures MeansQuery(RwQuery(q, env, left).value, s, more) == MeansQuery(q, s, less)
    decreases left, q, 2
  {
    CtesMean(q.with, env, s, left, less, more);
    var l1 := RwCtes(q.with, env, left).left;
    var less', more' := Bind(q.with, s, less), Bind(RwCtes(q.with, env, left).value, s, more);
    SetMeans(q.body, env, s, l1, less', more');
    EndMeans(q, env, s, RwSet(q.body, env, l1).left, less', more');
    PartsMean(q, RwQuery(q, env, left).value, s, less, more);
  }

  /** A query means what its parts do. */
  lemma {:induction false} PartsMean(q: Query, q': Query, s: Semantics, less: Scope, more: Scope)
    requires var less', more' := Bind(q.with, s, less), Bind(q'.with, s, more);
      && MeansSet(q'.body, s, more') == MeansSet(q.body, s, less')
      && MeansOrders(q'.orderBy, s, more') == MeansOrders(q.orderBy, s, less')
      && MeansOpt(q'.limit, s, more') == MeansOpt(q.limit, s, less')
      && MeansOpt(q'.offset, s, more') == MeansOpt(q.offset, s, less')
      && (q.limitBy.Some? <==> q'.limitBy.Some?)
      && (q.limitBy.Some? ==>
            && MeansExpr(q'.limitBy.value.n, s, more') == MeansExpr(q.limitBy.value.n, s, less')
            && MeansExprs(q'.limitBy.value.keys, s, more') == MeansExprs(q.limitBy.value.keys, s, less'))
    ensures MeansQuery(q', s, more) == MeansQuery(q, s, less)
  {
  }

  /** What follows a query's body, in the scope of its CTEs. */
  predicate ReadsEnd(q: Query, inner: set<string>) {
    || ReadsOrders(q.orderBy, inner) || ReadsOpt(q.limit, inner) || ReadsOpt(q.offset, inner)
    || (q.limitBy.Some? && (ReadsExpr(q.limitBy.value.n, inner) || ReadsExprs(q.limitBy.value.keys, inner)))
  }

  predicate CapturedEnd(q: Query, inner: set<string>, env: Env) {
    || CapturedOrders(q.orderBy, inner, env) || CapturedOpt(q.limit, inner, env) || CapturedOpt(q.offset, inner, env)
    || (q.limitBy.Some? && (CapturedExpr(q.limitBy.value.n, inner, env) || CapturedExprs(q.limitBy.value.keys, inner, env)))
  }

  lemma {:induction false} EndMeans(q: Query, env: Env, s: Semantics, left: nat, less: Scope, more: Scope)
    requires Sound(env, s) && Stored(env) && Extends(less, more) && !ReadsEnd(q, Extra(less, more)) && !CapturedEnd(q, less.Keys, env)
    requires RwOrders(q.orderBy, env, left).Ok?
    requires RwOpt(q.limit, env, RwOrders(q.orderBy, env, left).left).Ok?
    requires RwOpt(q.offset, env, RwOpt(q.limit, env, RwOrders(q.orderBy, env, left).left).left).Ok?
    requires var l5 := RwOpt(q.offset, env, RwOpt(q.limit, env, RwOrders(q.orderBy, env, left).left).left).left;
      q.limitBy.Some? ==>
        RwExpr(q.limitBy.value.n, env, l5).Ok? && RwExprs(q.limitBy.value.keys, env, RwExpr(q.limitBy.value.n, env, l5).left).Ok?
    ensures var l3 := RwOrders(q.orderBy, env, left).left;
      var l4 := RwOpt(q.limit, env, l3).left;
      var l5 := RwOpt(q.offset, env, l4).left;
      && MeansOrders(RwOrders(q.orderBy, env, left).value, s, more) == MeansOrders(q.orderBy, s, less)
      && MeansOpt(RwOpt(q.limit, env, l3).value, s, more) == MeansOpt(q.limit, s, less)
      && MeansOpt(RwOpt(q.offset, env, l4).value, s, more) == MeansOpt(q.offset, s, less)
      && (q.limitBy.Some? ==> var n := RwExpr(q.limitBy.value.n, env, l5);
            && MeansExpr(n.value, s, more) == MeansExpr(q.limitBy.value.n, s, less)
            && MeansExprs(RwExprs(q.limitBy.value.keys, env, n.left).value, s, more) == MeansExprs(q.limitBy.value.keys, s, less))
    decreases left, q, 1
  {
    OrdersMean(q.orderBy, env, s, left, less, more);
    var l3 := RwOrders(q.orderBy, env, left).left;
    OptMeans(q.limit, env, s, l3, less, more);
    var l4 := RwOpt(q.limit, env, l3).left;
    OptMeans(q.offset, env, s, l4, less, more);
    var l5 := RwOpt(q.offset, env, l4).left;
    if q.limitBy.Some? {
      ExprMeans(q.limitBy.value.n, env, s, l5, less, more);
      ExprsMean(q.limitBy.value.keys, env, s, RwExpr(q.limitBy.value.n, env, l5).left, less, more);
    }
  }

  lemma {:induction false} NamesAdd(keys: set<string>, extra: set<string>, k: string, rest: set<string>)
    ensures keys + {k} + rest == keys + ({k} + rest) && extra - {k} - rest == extra - ({k} + rest)
  {
  }

  lemma {:induction false} CtesMean(cs: List<Cte>, env: Env, s: Semantics, left: nat, less: Scope, more: Scope)
    requires Sound(env, s) && Stored(env) && Extends(less, more) && !ReadsCtes(cs, Extra(less, more))
    requires RwCtes(cs, env, left).Ok? && !CapturedCtes(cs, less.Keys, env)
    ensures var less', more' := Bind(cs, s, less), Bind(RwCtes(cs, env, left).value, s, more);
      Extends(less', more') && Extra(less', more') == Extra(less, more) - CteNames(cs) && less'.Keys == less.Keys + CteNames(cs)
    decreases left, cs, 0
  {
    match cs
    case Nil =>
    case Cons(c, rest) =>
      QueryMeans(c.query, env, s, left, less, more);
      var k, b := Lower(c.name), Binding(c.name, MeansQuery(c.query, s, less));
      ExtendBoth(less, more, k, b);
      CtesMean(rest, env, s, RwQuery(c.query, env, left).left, less[k := b], more[k := b]);
      NamesAdd(less.Keys, Extra(less, more), k, CteNames(rest));
  }

  lemma {:induction false} SetMeans(e: SetExpr, env: Env, s: Semantics, left: nat, less: Scope, more: Scope)
    requires Sound(env, s) && Stored(env) && Extends(less, more) && !ReadsSet(e, Extra(less, more))
    requires RwSet(e, env, left).Ok? && !CapturedSet(e, less.Keys, env)
    ensures MeansSet(RwSet(e, env, left).value, s, more) == MeansSet(e, s, less)
    decreases left, e, 1
  {
    match e
    case Plain(sel) => SelectMeans(e, env, s, left, less, more);
    case Nested(q) => QueryMeans(q, env, s, left, less, more);
    case SetOperation(_, _, l, r) =>
      SetMeans(l, env, s, left, less, more);
      SetMeans(r, env, s, RwSet(l, env, left).left, less, more);
    case Values(rows) => RowsMean(rows, env, s, left, less, more);
  }

  lemma {:induction false} SelectMeans(e: SetExpr, env: Env, s: Semantics, left: nat, less: Scope, more: Scope)
    requires e.Plain? && Sound(env, s) && Stored(env) && Extends(less, more) && !ReadsSet(e, Extra(less, more))
    requires RwSet(e, env, left).Ok? && !CapturedSet(e, less.Keys, env)
    ensures MeansSet(RwSet(e, env, left).value, s, more) == MeansSet(e, s, less)
    decreases left, e, 0
  {
    var sel := e.select;
    ItemsMean(sel.projection, env, s, left, less, more);
    var l1 := RwItems(sel.projection, env, left).left;
    if sel.from.Some? { TableMeans(sel.from.value, env, s, l1, less, more); }
    var l2 := RwFrom(sel.from, env, l1).left;
    OptMeans(sel.prewhere, env, s, l2, less, more);
    var l3 := RwOpt(sel.prewhere, env, l2).left;
    OptMeans(sel.selection, env, s, l3, less, more);
    var l4 := RwOpt(sel.selection, env, l3).left;
    OptMeans(sel.having, env, s, l4, less, more);
    ExprsMean(sel.groupBy, env, s, RwOpt(sel.having, env, l4).left, less, more);
  }

  lemma {:induction false} TableMeans(t: TableRef, env: Env, s: Semantics, left: nat, less: Scope, more: Scope)
    requires Sound(env, s) && Stored(env) && Extends(less, more) && !ReadsTable(t, Extra(less, more))
    requires RwTable(t, env, left).Ok? && !CapturedTable(t, less.Keys, env)
    ensures MeansTable(RwTable(t, env, left).value, s, more) == MeansTable(t, s, less)
    decreases left, t, 2
  {
    match t
    case Table(_, _, _) => NameMeans(t, env, s, left, less, more);
    case Derived(q, _) => QueryMeans(q, env, s, left, less, more);
    case Join(l, r, _, c) =>
      TableMeans(l, env, s, left, less, more);
      var l1 := RwTable(l, env, left).left;
      TableMeans(r, env, s, l1, less, more);
      if c.On? { ExprMeans(c.expr, env, s, RwTable(r, env, l1).left, less, more); }
  }

  /** A view, a virtual table or a relation that stays as it is. */
  lemma {:induction false} NameMeans(t: TableRef, env: Env, s: Semantics, left: nat, less: Scope, more: Scope)
    requires t.Table? && Sound(env, s) && Stored(env) && Extends(less, more) && !ReadsTable(t, Extra(less, more))
    requires RwTable(t, env, left).Ok? && !CapturedTable(t, less.Keys, env)
    ensures MeansTable(RwTable(t, env, left).value, s, more) == MeansTable(t, s, less)
    decreases left, t, 1
  {
    ExtendSelf(more);
    if IsVirtual(t.name, env) {
      SameQuery(env.derive(t.name).value, s, map[], more);
      Derives(t, env.derive(t.name).value, s, less, more, MeansQuery(env.derive(t.name).value, s, more));
    } else if ViewOf(t.name, env).Some? {
      ViewMeans(t, env, s, left, less, more);
    }
  }

  /** The rewritten body of a view stands for the view. */
  lemma {:induction false} ViewMeans(t: TableRef, env: Env, s: Semantics, left: nat, less: Scope, more: Scope)
    requires t.Table? && Sound(env, s) && Stored(env) && !Bound(t.name, less.Keys)
    requires !IsVirtual(t.name, env) && ViewOf(t.name, env).Some? && RwTable(t, env, left).Ok?
    ensures MeansTable(RwTable(t, env, left).value, s, more) == MeansTable(t, s, less)
    decreases left, t, 0
  {
    var none: Scope := map[];
    var q := ViewOf(t.name, env).value;
    ExtendSelf(more);
    assert none.Keys == {};
    QueryMeans(q, env, s, left - 1, none, more);
    Derives(t, q, s, less, more, MeansQuery(RwQuery(q, env, left - 1).value, s, more));
  }

  /** A derived table that means the relation named, under the name's alias. */
  lemma {:induction false} Derives(t: TableRef, q: Query, s: Semantics, less: Scope, more: Scope, rel: Rel)
    requires t.Table? && Defines(q, s, t.name) && !Bound(t.name, less.Keys) && rel == MeansQuery(q, s, map[])
    ensures NamedRel(s, rel, Alias(t.alias, t.name)) == MeansTable(t, s, less)
  {
    NamedConst(s, q, t.name, t.final, Alias(t.alias, t.name));
  }

  lemma {:induction false} ItemsMean(items: List<SelectItem>, env: Env, s: Semantics, left: nat, less: Scope, more: Scope)
    requires Sound(env, s) && Stored(env) && Extends(less, more) && !ReadsItems(items, Extra(less, more))
    requires RwItems(items, env, left).Ok? && !CapturedItems(items, less.Keys, env)
    ensures MeansItems(RwItems(items, env, left).value, s, more) == MeansItems(items, s, less)
    decreases left, items, 0
  {
    if items.Cons? {
      if items.head.Item? {
        ExprMeans(items.head.expr, env, s, left, less, more);
        ItemsMean(items.tail, env, s, RwExpr(items.head.expr, env, left).left, less, more);
      } else {
        ItemsMean(items.tail, env, s, left, less, more);
      }
    }
  }

  lemma {:induction false} OrdersMean(os: List<OrderBy>, env: Env, s: Semantics, left: nat, less: Scope, more: Scope)
    requires Sound(env, s) && Stored(env) && Extends(less, more) && !ReadsOrders(os, Extra(less, more))
    requires RwOrders(os, env, left).Ok? && !CapturedOrders(os, less.Keys, env)
    ensures MeansOrders(RwOrders(os, env, left).value, s, more) == MeansOrders(os, s, less)
    decreases left, os, 0
  {
    if os.Cons? {
      ExprMeans(os.head.expr, env, s, left, less, more);
      OrdersMean(os.tail, env, s, RwExpr(os.head.expr, env, left).left, less, more);
    }
  }

  lemma {:induction false} ExprsMean(es: List<Expr>, env: Env, s: Semantics, left: nat, less: Scope, more: Scope)
    requires Sound(env, s) && Stored(env) && Extends(less, more) && !ReadsExprs(es, Extra(less, more))
    requires RwExprs(es, env, left).Ok? && !CapturedExprs(es, less.Keys, env)
    ensures MeansExprs(RwExprs(es, env, left).value, s, more) == MeansExprs(es, s, less)
    decreases left, es, 0
  {
    if es.Cons? {
      ExprMeans(es.head, env, s, left, less, more);
      ExprsMean(es.tail, env, s, RwExpr(es.head, env, left).left, less, more);
    }
  }

  lemma {:induction false} RowsMean(rows: List<List<Expr>>, env: Env, s: Semantics, left: nat, less: Scope, more: Scope)
    requires Sound(env, s) && Stored(env) && Extends(less, more) && !ReadsRows(rows, Extra(less, more))
    requires RwRows(rows, env, left).Ok? && !CapturedRows(rows, less.Keys, env)
    ensures MeansRows(RwRows(rows, env, left).value, s, more) == MeansRows(rows, s, less)
    decreases left, rows, 0
  {
    if rows.Cons? {
      ExprsMean(rows.head, env, s, left, less, more);
      RowsMean(rows.tail, env, s, RwExprs(rows.head, env, left).left, less, more);
    }
  }

  lemma {:induction false} WhensMean(ws: List<When>, env: Env, s: Semantics, left: nat, less: Scope, more: Scope)
    requires Sound(env, s) && Stored(env) && Extends(less, more) && !ReadsWhens(ws, Extra(less, more))
    requires RwWhens(ws, env, left).Ok? && !CapturedWhens(ws, less.Keys, env)
    ensures MeansWhens(RwWhens(ws, env, left).value, s, more) == MeansWhens(ws, s, less)
    decreases left, ws, 0
  {
    if ws.Cons? {
      ExprMeans(ws.head.cond, env, s, left, less, more);
      var l1 := RwExpr(ws.head.cond, env, left).left;
      ExprMeans(ws.head.result, env, s, l1, less, more);
      WhensMean(ws.tail, env, s, RwExpr(ws.head.result, env, l1).left, less, more);
    }
  }

  lemma {:induction false} OptMeans(e: Option<Expr>, env: Env, s: Semantics, left: nat, less: Scope, more: Scope)
    requires Sound(env, s) && Stored(env) && Extends(less, more) && !ReadsOpt(e, Extra(less, more))
    requires RwOpt(e, env, left).Ok? && !CapturedOpt(e, less.Keys, env)
    ensures MeansOpt(RwOpt(e, env, left).value, s, more) == MeansOpt(e, s, less)
    decreases left, e, 0
  {
    if e.Some? { ExprMeans(e.value, env, s, left, less, more); }
  }

  lemma {:induction false} WindowMeans(w: Window, env: Env, s: Semantics, left: nat, less: Scope, more: Scope)
    requires Sound(env, s) && Stored(env) && Extends(less, more) && !ReadsWindow(w, Extra(less, more))
    requires RwWindow(w, env, left).Ok? && !CapturedWindow(w, less.Keys, env)
    ensures MeansWindow(RwWindow(w, env, left).value, s, more) == MeansWindow(w, s, less)
    decreases left, w, 0
  {
    ExprsMean(w.partitionBy, env, s, left, less, more);
    OrdersMean(w.orderBy, env, s, RwExprs(w.partitionBy, env, left).left, less, more);
  }

  lemma {:induction false} ExprMeans(e: Expr, env: Env, s: Semantics, left: nat, less: Scope, more: Scope)
    requires Sound(env, s) && Stored(env) && Extends(less, more) && !ReadsExpr(e, Extra(less, more))
    requires RwExpr(e, env, left).Ok? && !CapturedExpr(e, less.Keys, env)
    ensures MeansExpr(RwExpr(e, env, left).value, s, more) == MeansExpr(e, s, less)
    decreases left, e, 2
  {
    match e
    case Scalar(_) => FoldMeans(e, env, s, left, less, more);
    case Exists(_, _) => FoldMeans(e, env, s, left, less, more);
    case InSubquery(_, _, _) => InMeans(e, env, s, left, less, more);
    case UnaryOp(_, _) => UnaryMeans(e, env, s, left, less, more);
    case Cast(_, _) => UnaryMeans(e, env, s, left, less, more);
    case IsNull(_, _) => UnaryMeans(e, env, s, left, less, more);
    case Interval(_, _) => UnaryMeans(e, env, s, left, less, more);
    case BinaryOp(_, _, _) => BinaryMeans(e, env, s, left, less, more);
    case Function(_, _, _, _) => FunctionMeans(e, env, s, left, less, more);
    case InList(_, _, _) => ListMeans(e, env, s, left, less, more);
    case Like(_, _, _, _) => LikeMeans(e, env, s, left, less, more);
    case Tuple(_) => UnaryMeans(e, env, s, left, less, more);
    case WindowCall(_, _, _, _, _) => CallMeans(e, env, s, left, less, more);
    case Case(_, _, _) => CaseMeans(e, env, s, left, less, more);
    case Between(_, _, _, _) => BetweenMeans(e, env, s, left, less, more);
    case _ =>
  }

  lemma {:induction false} UnaryMeans(e: Expr, env: Env, s: Semantics, left: nat, less: Scope, more: Scope)
    requires e.UnaryOp? || e.Cast? || e.IsNull? || e.Interval? || e.Tuple?
    requires Sound(env, s) && Stored(env) && Extends(less, more) && !ReadsExpr(e, Extra(less, more))
    requires RwExpr(e, env, left).Ok? && !CapturedExpr(e, less.Keys, env)
    ensures MeansExpr(RwExpr(e, env, left).value, s, more) == MeansExpr(e, s, less)
    decreases left, e, 0
  {
    if e.Tuple? { ExprsMean(e.items, env, s, left, less, more); } else { ExprMeans(e.expr, env, s, left, less, more); }
  }

  lemma {:induction false} BinaryMeans(e: Expr, env: Env, s: Semantics, left: nat, less: Scope, more: Scope)
    requires e.BinaryOp? && Sound(env, s) && Stored(env) && Extends(less, more) && !ReadsExpr(e, Extra(less, more))
    requires RwExpr(e, env, left).Ok? && !CapturedExpr(e, less.Keys, env)
    ensures MeansExpr(RwExpr(e, env, left).value, s, more) == MeansExpr(e, s, less)
    decreases left, e, 0
  {
    ExprMeans(e.left, env, s, left, less, more);
    ExprMeans(e.right, env, s, RwExpr(e.left, env, left).left, less, more);
  }

  lemma {:induction false} LikeMeans(e: Expr, env: Env, s: Semantics, left: nat, less: Scope, more: Scope)
    requires e.Like? && Sound(env, s) && Stored(env) && Extends(less, more) && !ReadsExpr(e, Extra(less, more))
    requires RwExpr(e, env, left).Ok? && !CapturedExpr(e, less.Keys, env)
    ensures MeansExpr(RwExpr(e, env, left).value, s, more) == MeansExpr(e, s, less)
    decreases left, e, 0
  {
    ExprMeans(e.expr, env, s, left, less, more);
    ExprMeans(e.pattern, env, s, RwExpr(e.expr, env, left).left, less, more);
  }

  lemma {:induction false} FunctionMeans(e: Expr, env: Env, s: Semantics, left: nat, less: Scope, more: Scope)
    requires e.Function? && Sound(env, s) && Stored(env) && Extends(less, more) && !ReadsExpr(e, Extra(less, more))
    requires RwExpr(e, env, left).Ok? && !CapturedExpr(e, less.Keys, env)
    ensures MeansExpr(RwExpr(e, env, left).value, s, more) == MeansExpr(e, s, less)
    decreases left, e, 0
  {
    ExprsMean(e.args, env, s, left, less, more);
    ExprsMean(e.params, env, s, RwExprs(e.args, env, left).left, less, more);
  }

  lemma {:induction false} ListMeans(e: Expr, env: Env, s: Semantics, left: nat, less: Scope, more: Scope)
    requires e.InList? && Sound(env, s) && Stored(env) && Extends(less, more) && !ReadsExpr(e, Extra(less, more))
    requires RwExpr(e, env, left).Ok? && !CapturedExpr(e, less.Keys, env)
    ensures MeansExpr(RwExpr(e, env, left).value, s, more) == MeansExpr(e, s, less)
    decreases left, e, 0
  {
    ExprMeans(e.expr, env, s, left, less, more);
    ExprsMean(e.list, env, s, RwExpr(e.expr, env, left).left, less, more);
  }

  /** A scalar subquery and EXISTS: folded, or left where they are. */
  lemma {:induction false} FoldMeans(e: Expr, env: Env, s: Semantics, left: nat, less: Scope, more: Scope)
    requires e.Scalar? || e.Exists?
    requires Sound(env, s) && Extends(less, more) && !ReadsExpr(e, Extra(less, more))
    requires RwExpr(e, env, left).Ok? && !CapturedExpr(e, less.Keys, env)
    ensures MeansExpr(RwExpr(e, env, left).value, s, more) == MeansExpr(e, s, less)
    decreases left, e, 0
  {
    var q, scalar := e.subquery, e.Scalar?;
    if env.eval(q, scalar).Rows? {
      RunMeans(q, env, s, scalar, less);
      var vs := env.eval(q, scalar).values;
      if scalar { ScalarFolds(MeansQuery(q, s, less), vs); } else { ExistsFolds(MeansQuery(q, s, less), vs, e.negated); }
    } else {
      SameExpr(e, s, less, more);
    }
  }

  lemma {:induction false} InMeans(e: Expr, env: Env, s: Semantics, left: nat, less: Scope, more: Scope)
    requires e.InSubquery? && Sound(env, s) && Stored(env) && Extends(less, more) && !ReadsExpr(e, Extra(less, more))
    requires RwExpr(e, env, left).Ok? && !CapturedExpr(e, less.Keys, env)
    ensures MeansExpr(RwExpr(e, env, left).value, s, more) == MeansExpr(e, s, less)
    decreases left, e, 0
  {
    ExprMeans(e.expr, env, s, left, less, more);
    var x := RwExpr(e.expr, env, left).value;
    if env.eval(e.subquery, false).Rows? {
      RunMeans(e.subquery, env, s, false, less);
      InFolded(e, x, env.eval(e.subquery, false).values, s, less, more);
    } else {
      SameQuery(e.subquery, s, less, more);
      InLeft(e, x, s, less, more);
    }
  }

  /** The operand rewritten, the subquery run. */
  lemma {:induction false} InFolded(e: Expr, x: Expr, vs: List<Value>, s: Semantics, less: Scope, more: Scope)
    requires e.InSubquery? && MeansExpr(x, s, more) == MeansExpr(e.expr, s, less)
    requires forall o: Row :: Firsts(RelAt(MeansQuery(e.subquery, s, less), o).rows) == vs
    ensures MeansExpr(InList(x, Literals(vs), e.negated), s, more) == MeansExpr(e, s, less)
  {
    InFolds(s, MeansExpr(e.expr, s, less), MeansQuery(e.subquery, s, less), vs, e.negated, more);
  }

  /** The operand rewritten, the subquery left where it is. */
  lemma {:induction false} InLeft(e: Expr, x: Expr, s: Semantics, less: Scope, more: Scope)
    requires e.InSubquery? && MeansExpr(x, s, more) == MeansExpr(e.expr, s, less)
    requires MeansQuery(e.subquery, s, more) == MeansQuery(e.subquery, s, less)
    ensures MeansExpr(InSubquery(x, e.subquery, e.negated), s, more) == MeansExpr(e, s, less)
  {
  }

  lemma {:induction false} CallMeans(e: Expr, env: Env, s: Semantics, left: nat, less: Scope, more: Scope)
    requires e.WindowCall? && Sound(env, s) && Stored(env) && Extends(less, more) && !ReadsExpr(e, Extra(less, more))
    requires RwExpr(e, env, left).Ok? && !CapturedExpr(e, less.Keys, env)
    ensures MeansExpr(RwExpr(e, env, left).value, s, more) == MeansExpr(e, s, less)
    decreases left, e, 0
  {
    ExprsMean(e.args, env, s, left, less, more);
    var l1 := RwExprs(e.args, env, left).left;
    ExprsMean(e.params, env, s, l1, less, more);
    WindowMeans(e.spec, env, s, RwExprs(e.params, env, l1).left, less, more);
  }

  lemma {:induction false} CaseMeans(e: Expr, env: Env, s: Semantics, left: nat, less: Scope, more: Scope)
    requires e.Case? && Sound(env, s) && Stored(env) && Extends(less, more) && !ReadsExpr(e, Extra(less, more))
    requires RwExpr(e, env, left).Ok? && !CapturedExpr(e, less.Keys, env)
    ensures MeansExpr(RwExpr(e, env, left).value, s, more) == MeansExpr(e, s, less)
    decreases left, e, 0
  {
    OptMeans(e.operand, env, s, left, less, more);
    var l1 := RwOpt(e.operand, env, left).left;
    WhensMean(e.whenThen, env, s, l1, less, more);
    OptMeans(e.elseResult, env, s, RwWhens(e.whenThen, env, l1).left, less, more);
  }

  lemma {:induction false} BetweenMeans(e: Expr, env: Env, s: Semantics, left: nat, less: Scope, more: Scope)
    requires e.Between? && Sound(env, s) && Stored(env) && Extends(less, more) && !ReadsExpr(e, Extra(less, more))
    requires RwExpr(e, env, left).Ok? && !CapturedExpr(e, less.Keys, env)
    ensures MeansExpr(RwExpr(e, env, left).value, s, more) == MeansExpr(e, s, less)
    decreases left, e, 0
  {
    ExprMeans(e.expr, env, s, left, less, more);
    var l1 := RwExpr(e.expr, env, left).left;
    ExprMeans(e.low, env, s, l1, less, more);
    ExprMeans(e.high, env, s, RwExpr(e.low, env, l1).left, less, more);
  }

  /** What the planner hands on means what it was given. */
  lemma {:induction false} PlanMeans(q: Query, env: Env, s: Semantics)
    requires Sound(env, s) && Stored(env) && Resolve(q, env).Some? && !Captured(q, {}, env)
    ensures MeansQuery(Resolve(q, env).value, s, map[]) == MeansQuery(q, s, map[])
  {
    ShortcutSound(q, env);
    var none: Scope := map[];
    ExtendSelf(none);
    QueryMeans(q, env, s, 64, none, none);
  }

  // --------------------------------------------------------------------- a witness

  ghost function ItemValues(items: List<ItemCol>, o: Row): List<Value> {
    match items
    case Nil => Nil
    case Cons(i, rest) =>
      Cons(if i.Computed? then At(i.col, Context(o, Nil)) else NullValue, ItemValues(rest, o))
  }

  /** A SELECT without FROM is one row of its items, one with FROM its relation;
  every base relation is one row holding 7, VALUES is empty. */
  ghost function Sevens(): Semantics {
    Semantics(
      (n, c) => NullValue, c => NullValue, (op, v) => v, (a, op, b) => NullValue, (v, ty) => v, (v, unit) => v,
      (v, lo, hi) => NullValue, (v, p, ci) => NullValue, vs => NullValue, (op, ws, els) => NullValue,
      (f, args, params, distinct, c) => NullValue, (f, args, params, distinct, w, c) => NullValue,
      (n, final) => Relation([], Cons(Cons(Number(7), Nil), Nil)), (r, alias) => r, (l, r, op, on, o) => l,
      (sel: SelectCols, o) =>
        if sel.from.Some? then RelAt(sel.from.value, o) else Relation([], Cons(ItemValues(sel.items, o), Nil)),
      (op, all, l, r) => l, (rows, o) => Relation([], Nil), (r, end, o) => r)
  }

  /** `SELECT * FROM v`, on its own. */
  function FromBase(): Query { Query(Nil, Plain(FromV()), Nil, None, None, None) }

  /** No views; only that query runs on its own. */
  function OneRuns(): Env {
    Env(map[], "d", {"d.v"}, n => None, (q, scalar) => if q == FromBase() then Rows(Cons(Number(7), Nil)) else Correlated)
  }

  lemma {:induction false} FromBaseMeans(o: Row)
    ensures RelAt(MeansQuery(FromBase(), Sevens(), map[]), o) == Relation([], Cons(Cons(Number(7), Nil), Nil))
  {
    var none: Scope := map[];
    assert Bind(FromBase().with, Sevens(), none) == none;
    assert !Bound(["v"], none.Keys);
    var t := MeansTable(Table(["v"], None, false), Sevens(), none);
    assert RelAt(t, o) == Relation([], Cons(Cons(Number(7), Nil), Nil));
    var r := MeansSet(FromBase().body, Sevens(), none);
    assert RelAt(r, o) == RelAt(t, o);
  }

  lemma {:induction false} SevensSound()
    ensures Sound(OneRuns(), Sevens()) && Stored(OneRuns())
  {
    assert Answers(FromBase(), Sevens(), Cons(Number(7), Nil)) by {
      forall o: Row ensures Firsts(RelAt(MeansQuery(FromBase(), Sevens(), map[]), o).rows) == Cons(Number(7), Nil) {
        FromBaseMeans(o);
        assert Firsts(Cons(Cons(Number(7), Nil), Nil)) == Cons(Number(7), Firsts(Nil));
      }
    }
    forall n ensures ViewOf(n, OneRuns()).None? {}
  }

  /** One row of one value, as `Sevens` reads a SELECT without FROM. */
  lemma {:induction false} OneItem(e: Expr, with: List<Cte>, o: Row)
    ensures var none: Scope := map[];
      var items := Cons(Item(e, None), Nil);
      RelAt(MeansQuery(WithItems(with, items), Sevens(), none), o)
      == Relation([], Cons(Cons(At(MeansExpr(e, Sevens(), Bind(with, Sevens(), none)), Context(o, Nil)), Nil), Nil))
  {
    var none: Scope := map[];
    var inner := Bind(with, Sevens(), none);
    var items := Cons(Item(e, None), Nil);
    var cols := MeansItems(items, Sevens(), inner);
    assert cols == Cons(Computed(MeansExpr(e, Sevens(), inner), None), MeansItems(Nil, Sevens(), inner));
    assert ItemValues(cols, o) == Cons(At(MeansExpr(e, Sevens(), inner), Context(o, Nil)), ItemValues(Nil, o));
    var r := MeansSet(WithItems(with, items).body, Sevens(), inner);
    assert MeansFrom(None, Sevens(), inner) == None;
    assert r == SelectRel(Sevens(), SelectCols(false, cols, None, None, None, Nil, false, None)) by {
      assert MeansExprs(Nil, Sevens(), inner) == Nil && MeansOpt(None, Sevens(), inner) == None;
    }
    assert RelAt(r, o) == Relation([], Cons(ItemValues(cols, o), Nil));
  }

  function WithItems(with: List<Cte>, items: List<SelectItem>): Query {
    Query(with, Plain(OneScalar().(projection := items)), Nil, None, None, None)
  }

  /** The scalar subquery reads the CTE `v`, which is empty. */
  lemma {:induction false} CteMeansNull(o: Row)
    ensures var scope := Bind(WithV(OneScalar()).with, Sevens(), map[]);
      At(MeansExpr(Scalar(FromBase()), Sevens(), scope), Context(o, Nil)) == NullValue
  {
    var none: Scope := map[];
    var v := MeansQuery(NoRows(), Sevens(), none);
    var b := Binding("v", v);
    assert Lower("v") == "v";
    var scope := none["v" := b];
    assert Bind(WithV(OneScalar()).with, Sevens(), none) == Bind(Nil, Sevens(), scope) == scope;
    assert RelAt(v, o) == Relation([], Nil);
    assert Bound(["v"], scope.Keys);
    assert Bind(FromBase().with, Sevens(), scope) == scope;
    var t := MeansTable(Table(["v"], None, false), Sevens(), scope);
    assert RelAt(t, o) == Relation([], Nil);
    var r := MeansSet(FromBase().body, Sevens(), scope);
    assert RelAt(r, o) == RelAt(t, o);
    assert RelAt(MeansQuery(FromBase(), Sevens(), scope), o) == Relation([], Nil);
  }

  lemma {:induction false} MeansNull(o: Row)
    ensures RelAt(MeansQuery(WithV(OneScalar()), Sevens(), map[]), o).rows == Cons(Cons(NullValue, Nil), Nil)
  {
    CteMeansNull(o);
    OneItem(Scalar(FromBase()), WithV(OneScalar()).with, o);
    assert WithV(OneScalar()) == WithItems(WithV(OneScalar()).with, OneScalar().projection);
  }

  lemma {:induction false} MeansSeven(with: List<Cte>, o: Row)
    ensures var lit := Cons(Item(Literal(Number(7)), None), Nil);
      RelAt(MeansQuery(WithItems(with, lit), Sevens(), map[]), o).rows == Cons(Cons(Number(7), Nil), Nil)
  {
    OneItem(Literal(Number(7)), with, o);
  }

  /** The condition is not idle: where a subquery misreads a CTE the query means
  one thing and its rewrite another, in a database that means what it says. */
  lemma {:induction false} MisreadMeansOther(o: Row)
    ensures Sound(OneRuns(), Sevens()) && Stored(OneRuns()) && Captured(WithV(OneScalar()), {}, OneRuns())
    ensures RelAt(MeansQuery(WithV(OneScalar()), Sevens(), map[]), o).rows == Cons(Cons(NullValue, Nil), Nil)
    ensures RwQuery(WithV(OneScalar()), OneRuns(), 64).Ok?
    ensures var q' := RwQuery(WithV(OneScalar()), OneRuns(), 64).value;
      RelAt(MeansQuery(q', Sevens(), map[]), o).rows == Cons(Cons(Number(7), Nil), Nil)
  {
    SevensSound();
    MeansNull(o);
    MeansSeven(WithV(OneScalar()).with, o);
    MisreadRewrites();
    MisreadCaptured();
  }

  lemma {:induction false} MisreadRewrites()
    ensures RwQuery(WithV(OneScalar()), OneRuns(), 64)
            == Ok(WithItems(WithV(OneScalar()).with, Cons(Item(Literal(Number(7)), None), Nil)), 63)
  {
    var q, env := WithV(OneScalar()), OneRuns();
    assert RwQuery(NoRows(), env, 64) == Ok(NoRows(), 64);
    assert RwCtes(q.with, env, 64) == Ok(q.with, 64);
    assert RwExpr(Scalar(FromBase()), env, 64) == Ok(Literal(Number(7)), 63);
    assert RwItems(OneScalar().projection, env, 64) == Ok(Cons(Item(Literal(Number(7)), None), Nil), 63);
    assert RwSet(q.body, env, 64) == Ok(Plain(OneScalar().(projection := Cons(Item(Literal(Number(7)), None), Nil))), 63);
  }

  lemma {:induction false} MisreadCaptured()
    ensures Captured(WithV(OneScalar()), {}, OneRuns())
  {
    var q := WithV(OneScalar());
    var inner := {} + CteNames(q.with);
    assert Lower("v") == "v" && "v" in inner;
    assert ReadsTable(Table(["v"], None, false), inner - CteNames(FromBase().with));
    assert ReadsQuery(FromBase(), inner);
    assert CapturedExpr(Scalar(FromBase()), inner, OneRuns());
    assert CapturedItems(OneScalar().projection, inner, OneRuns());
  }
}
