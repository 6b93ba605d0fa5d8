/** What every interleaving of connections keeps: isolation of an open
transaction, authorship of whatever is published, readers that never see a
private view, and folds that never share a transaction. */
module Isolation {
  import opened Basics
  import opened Session

  // ---------------------------------------------------------------------- tables

  lemma {:induction false} NamedAppend(tables: seq<Enlisted>, e: Enlisted)
    ensures Named(tables + [e]) == Named(tables) + {e.path}
  {
    var more := tables + [e];
    forall p ensures p in Named(more) <==> p in Named(tables) || p == e.path {
      if p in Named(tables) {
        var i :| 0 <= i < |tables| && tables[i].path == p;
        assert more[i].path == p;
      }
      assert more[|tables|].path == e.path;
    }
  }

  lemma {:induction false} NamedSetFold(tables: seq<Enlisted>, path: Path)
    ensures Named(SetFold(tables, path)) == Named(tables)
  {
    var t' := SetFold(tables, path);
    forall p ensures p in Named(t') <==> p in Named(tables) {
      if p in Named(tables) { var i :| 0 <= i < |tables| && tables[i].path == p; assert t'[i].path == p; }
      if p in Named(t') { var i :| 0 <= i < |t'| && t'[i].path == p; assert tables[i].path == p; }
    }
  }

  lemma {:induction false} FlushPrivate(t: Table, c: Conn)
    requires Private(t, c)
    ensures Private(Flush(t), c) && Flush(t).parts == t.parts && Flush(t).delta == []
    ensures Flush(t).view == Some(t.view.value + t.delta)
  {
    assert t.view.value + t.delta + [] == t.view.value + t.delta;
  }

  lemma {:induction false} FlushCommitted(t: Table)
    ensures Committed(Flush(t)) == Committed(t)
  {
    assert t.parts + t.delta + [] == t.parts + t.delta;
  }

  lemma {:induction false} BufferPrivate(t: Table, c: Conn, batch: seq<int>)
    requires Private(t, c)
    ensures Private(Buffer(t, Signed(c, batch)), c)
  {
    var ws := Signed(c, batch);
    assert t.view.value + (t.delta + ws) == t.view.value + t.delta + ws;
  }

  lemma {:induction false} RollbackCommitted(t: Table)
    requires t.view.Some?
    ensures Committed(RollbackTable(t)) == Committed(t)
  {
    assert t.parts + [] == t.parts;
  }

  lemma {:induction false} BeginCommitted(t: Table, c: Conn)
    requires t.view.None?
    ensures Committed(BeginTable(t)) == Committed(t) && Private(BeginTable(t), c)
  {
    assert BeginTable(t).view.value + [] == BeginTable(t).view.value;
  }

  // ------------------------------------------------------------- what keeps the invariant

  lemma {:induction false} DiscardKeeps(s: State)
    requires Inv(s)
    ensures Inv(Discard(s)) && Discard(s).txn.None? && Discard(s).owner == s.owner
    ensures CommittedAll(Discard(s).tables) == CommittedAll(s.tables)
  {
    forall p | p in s.tables ensures Committed(Discard(s).tables[p]) == Committed(s.tables[p]) {
      if s.tables[p].view.Some? { RollbackCommitted(s.tables[p]); }
    }
  }

  lemma {:induction false} PoisonKeeps(s: State)
    requires Inv(s)
    ensures Inv(Poison(s)) && Poison(s).tables == s.tables
  {
  }

  lemma {:induction false} FlushAllKeeps(s: State)
    requires Inv(s)
    ensures Inv(s.(tables := FlushAll(s.tables)))
    ensures CommittedAll(FlushAll(s.tables)) == CommittedAll(s.tables)
  {
    forall p | p in s.tables
      ensures Committed(Flush(s.tables[p])) == Committed(s.tables[p])
      ensures s.txn.Some? && p in Named(s.txn.value.tables) ==> Private(Flush(s.tables[p]), s.txn.value.owner)
    {
      FlushCommitted(s.tables[p]);
      if s.txn.Some? && p in Named(s.txn.value.tables) { FlushPrivate(s.tables[p], s.txn.value.owner); }
    }
  }

  lemma {:induction false} EnlistKeeps(s: State, path: Path, opens: bool)
    requires Inv(s) && s.txn.Some? && path in s.tables
    ensures var (s1, ok) := Enlist(s, path, opens);
      && Inv(s1) && s1.txn.Some? && s1.txn.value.owner == s.txn.value.owner && s1.owner == s.owner
      && s1.tables.Keys == s.tables.Keys
      && CommittedAll(s1.tables) == CommittedAll(s.tables)
      && (ok ==> path in Named(s1.txn.value.tables))
  {
    var x := s.txn.value;
    if path !in Named(x.tables) && s.tables[path].view.None? {
      BeginCommitted(s.tables[path], x.owner);
      CommittedSame(s.tables, path, BeginTable(s.tables[path]));
      AttachedOk(s.tables, x, path, BeginTable(s.tables[path]));
    }
  }

  lemma {:induction false} CommittedSame(c: Catalog, path: Path, t: Table)
    requires path in c && Committed(t) == Committed(c[path])
    ensures CommittedAll(c[path := t]) == CommittedAll(c)
  {
  }

  /** A table with a private view, on the roster or not. */
  lemma {:induction false} AttachedOk(c: Catalog, x: Txn, path: Path, t: Table)
    requires TxnOk(c, x) && path in c && path !in Named(x.tables) && Private(t, x.owner)
    ensures TxnOk(c[path := t], x)
    ensures path in Named(x.tables + [Enlisted(path, false)])
    ensures !AnyFold(x.tables) ==> TxnOk(c[path := t], x.(tables := x.tables + [Enlisted(path, false)]))
  {
    NamedAppend(x.tables, Enlisted(path, false));
    assert forall i :: 0 <= i < |x.tables| ==> x.tables[i].path in Named(x.tables);
  }

  lemma {:induction false} FirstTwoDiffer(tables: seq<Enlisted>)
    requires NoDup(tables) && |tables| >= 2
    ensures tables[0].path != tables[1].path
  {
  }

  lemma {:induction false} AloneIfAllEqual(tables: seq<Enlisted>, path: Path)
    requires NoDup(tables) && path in Named(tables)
    requires !exists i :: 0 <= i < |tables| && tables[i].path != path
    ensures |tables| == 1
  {
    if |tables| >= 2 {
      FirstTwoDiffer(tables);
      assert false;
    }
  }

  lemma {:induction false} MarkFoldKeeps(s: State, path: Path)
    requires Inv(s) && s.txn.Some? && path in Named(s.txn.value.tables)
    ensures var (s1, ok) := MarkFold(s, path);
      Inv(s1) && s1.tables == s.tables && s1.txn.Some? && s1.txn.value.owner == s.txn.value.owner && s1.owner == s.owner
  {
    var x := s.txn.value;
    NamedSetFold(x.tables, path);
    var (s1, ok) := MarkFold(s, path);
    if ok {
      AloneIfAllEqual(x.tables, path);
    }
  }

  lemma {:induction false} WriteInTxnKeeps(s: State, e: Effect)
    requires Inv(s) && s.txn.Some? && e.path in s.tables && s.txn.value.owner == s.owner
    ensures var (s1, ok) := WriteInTxn(s, e);
      && Inv(s1) && s1.txn.Some? && s1.txn.value.owner == s.owner && s1.owner == s.owner
      && CommittedAll(s1.tables) == CommittedAll(s.tables)
      && (!ok ==> s1.txn.value.poisoned)
  {
    EnlistKeeps(s, e.path, e.opens);
    var (s1, ok1) := Enlist(s, e.path, e.opens);
    PoisonKeeps(s1);
    if ok1 {
      var s2 := s1.(tables := s1.tables[e.path := Buffer(s1.tables[e.path], Signed(s.owner, e.batch))]);
      BufferPrivate(s1.tables[e.path], s.owner, e.batch);
      assert Inv(s2);
      assert CommittedAll(s2.tables) == CommittedAll(s1.tables);
      PoisonKeeps(s2);
      if e.dark {
        MarkFoldKeeps(s2, e.path);
      }
    }
  }

  // ------------------------------------------------------------ what is published

  /** Each table's committed mutations are kept, in order, and whatever follows
  them was written by `c`. */
  predicate Grows(before: Catalog, after: Catalog, c: Conn) {
    before.Keys == after.Keys
    && forall p :: p in before.Keys ==> Extends(Committed(before[p]), Committed(after[p]), c)
  }

  lemma {:induction false} GrowsSame(before: Catalog, after: Catalog, c: Conn)
    requires CommittedAll(before) == CommittedAll(after)
    ensures Grows(before, after, c)
  {
    assert CommittedAll(before).Keys == before.Keys && CommittedAll(after).Keys == after.Keys;
    forall p | p in before.Keys ensures Committed(before[p]) == Committed(after[p]) {
      assert CommittedAll(before)[p] == CommittedAll(after)[p];
    }
  }

  lemma {:induction false} GrowsAfterSame(before: Catalog, mid: Catalog, after: Catalog, c: Conn)
    requires CommittedAll(before) == CommittedAll(mid) && Grows(mid, after, c)
    ensures Grows(before, after, c)
  {
    assert CommittedAll(before).Keys == before.Keys && CommittedAll(mid).Keys == mid.Keys;
    forall p | p in before.Keys ensures Committed(before[p]) == Committed(mid[p]) {
      assert CommittedAll(before)[p] == CommittedAll(mid)[p];
    }
  }

  /** The private contents an enlisted table's owner sees. */
  function Pending(t: Table): seq<Write> { if t.view.Some? then t.view.value + t.delta else t.parts + t.delta }

  /** A COMMIT publishes all of the transaction or nothing of it, and only for
  the connection that opened it and only if no statement in it failed. */
  lemma {:induction false} CommitPublishes(s: State, durable: bool)
    requires Inv(s)
    ensures var (s1, ok) := Commit(s, durable);
      && Inv(s1) && s1.owner == s.owner
      && ok == (s.txn.Some? && s.txn.value.owner == s.owner && !s.txn.value.poisoned && durable)
      && (!ok ==> CommittedAll(s1.tables) == CommittedAll(s.tables))
      && (ok ==> s1.txn.None? && s1.tables.Keys == s.tables.Keys
                 && forall p :: p in s.tables.Keys ==>
                   Committed(s1.tables[p]) ==
                     if p in Named(s.txn.value.tables) then Pending(s.tables[p]) else Committed(s.tables[p]))
      && Grows(s.tables, s1.tables, s.owner)
      && (Foreign(s) ==> s1 == s)
  {
    var (s1, ok) := Commit(s, durable);
    DiscardKeeps(s);
    if ok {
      var x := s.txn.value;
      forall p | p in s.tables.Keys
        ensures Committed(s1.tables[p]) == if p in Named(x.tables) then Pending(s.tables[p]) else Committed(s.tables[p])
        ensures Extends(Committed(s.tables[p]), Committed(s1.tables[p]), s.owner)
      {
        if p in Named(x.tables) {
          FlushPrivate(s.tables[p], x.owner);
          var v := s.tables[p].view.value + s.tables[p].delta;
          assert v + [] == v;
        }
      }
    } else {
      GrowsSame(s.tables, s1.tables, s.owner);
    }
  }

  lemma {:induction false} MutateKeeps(s: State, e: Effect)
    requires Inv(s)
    ensures var s1 := Mutate(s, e).0;
      && Inv(s1) && s1.owner == s.owner
      && Grows(s.tables, s1.tables, s.owner)
      && (s.txn.Some? ==> CommittedAll(s1.tables) == CommittedAll(s.tables) && s1.txn.Some?)
      && (s.txn.None? ==> s1.txn.None?)
  {
    var s1 := Mutate(s, e).0;
    PoisonKeeps(s);
    if Foreign(s) || (s.txn.Some? && s.txn.value.poisoned) || e.path !in s.tables {
      GrowsSame(s.tables, s1.tables, s.owner);
    } else if s.txn.Some? {
      WriteInTxnKeeps(s, e);
      GrowsSame(s.tables, s1.tables, s.owner);
    } else if !e.dark && |e.batch| <= 1 {
      PlainInsertGrows(s, e);
    } else {
      var s0 := Begin(s).0;
      WriteInTxnKeeps(s0, e);
      var (s2, ok) := WriteInTxn(s0, e);
      CommitPublishes(s2, e.durable);
      DiscardKeeps(s2);
      GrowsSame(s2.tables, Discard(s2).tables, s.owner);
      GrowsAfterSame(s.tables, s2.tables, s1.tables, s.owner);
    }
  }

  lemma {:induction false} PlainInsertGrows(s: State, e: Effect)
    requires Inv(s) && s.txn.None? && e.path in s.tables && !e.dark && |e.batch| <= 1
    ensures var s1 := Mutate(s, e).0; Inv(s1) && s1.owner == s.owner && Grows(s.tables, s1.tables, s.owner) && s1.txn.None?
  {
    var t := s.tables[e.path];
    var ws := Signed(s.owner, e.batch);
    assert t.parts + (t.delta + ws) == t.parts + t.delta + ws;
  }

  // ------------------------------------------------------------------- every step

  lemma {:induction false} AcquireKeeps(d: Db, c: Conn)
    requires Inv(d.s)
    ensures Inv(Acquire(d, c)) && CommittedAll(Acquire(d, c).tables) == CommittedAll(d.s.tables)
    ensures Acquire(d, c).owner == c
  {
    DiscardKeeps(d.s);
  }

  lemma {:induction false} StmtKeeps(s: State, stmt: Stmt)
    requires Inv(s)
    ensures var s1 := RunStmt(s, stmt).0;
      && Inv(s1) && s1.owner == s.owner && Grows(s.tables, s1.tables, s.owner)
      && (s.txn.Some? && s1.txn.Some? ==> CommittedAll(s1.tables) == CommittedAll(s.tables))
      && (s.txn.None? && s1.txn.Some? ==> CommittedAll(s1.tables) == CommittedAll(s.tables))
  {
    var s1 := RunStmt(s, stmt).0;
    match stmt
    case DoCommit(durable) => CommitPublishes(s, durable);
    case DoMutate(e) => MutateKeeps(s, e);
    case DoRead =>
      FlushAllKeeps(s);
      GrowsSame(s.tables, s1.tables, s.owner);
    case _ =>
      PoisonKeeps(s);
      DiscardKeeps(s);
      GrowsSame(s.tables, s1.tables, s.owner);
  }

  /** The connection an event acts for, if it publishes anything at all. */
  predicate ByOne(d: Db, ev: Event) {
    if ev.Run? then Grows(d.s.tables, Step(d, ev).s.tables, ev.c)
    else CommittedAll(Step(d, ev).s.tables) == CommittedAll(d.s.tables)
  }

  lemma {:induction false} StepKeeps(d: Db, ev: Event)
    requires Inv(d.s) && Enabled(d, ev)
    ensures Inv(Step(d, ev).s) && ByOne(d, ev)
    ensures Step(d, ev).s.txn.Some? ==> CommittedAll(Step(d, ev).s.tables) == CommittedAll(d.s.tables)
  {
    match ev
    case Connect =>
    case Run(c, stmt) =>
      AcquireKeeps(d, c);
      StmtKeeps(Acquire(d, c), stmt);
      GrowsAfterSame(d.s.tables, Acquire(d, c).tables, Step(d, ev).s.tables, c);
    case Drop(c, prompt) => DiscardKeeps(d.s);
    case Unwind(c) =>
      AcquireKeeps(d, c);
      DiscardKeeps(Acquire(d, c));
    case Retry => FlushAllKeeps(d.s);
  }

  // -------------------------------------------------------------------- ownership

  /** A statement against another connection's open transaction changes nothing. */
  lemma {:induction false} ForeignChangesNothing(s: State, stmt: Stmt)
    requires Foreign(s)
    ensures RunStmt(s, stmt) == (s, false)
  {
  }

  /** The step does nothing to transaction `x` and publishes nothing. */
  predicate LeavesAlone(before: Db, after: Db, x: Txn) {
    after.s.txn == Some(x) && CommittedAll(after.s.tables) == CommittedAll(before.s.tables)
  }

  /** The step ends transaction `x` and publishes nothing its owner wrote: no
  row at all, or, `x` being an orphan, rows of the connection that swept it. */
  predicate EndsUnpublished(before: Db, ev: Event, after: Db, x: Txn) {
    && (after.s.txn.Some? ==> ev.Run? && after.s.txn.value.owner == ev.c != x.owner)
    && (|| CommittedAll(after.s.tables) == CommittedAll(before.s.tables)
        || (ev.Run? && ev.c != x.owner && x.owner !in before.live && Grows(before.s.tables, after.s.tables, ev.c)))
  }

  lemma {:induction false} PoisonedStmt(s: State, stmt: Stmt)
    requires Inv(s) && s.txn.Some? && s.txn.value.poisoned
    ensures var s1 := RunStmt(s, stmt).0;
      CommittedAll(s1.tables) == CommittedAll(s.tables) && (s1.txn == s.txn || s1.txn.None?)
  {
    DiscardKeeps(s);
    PoisonKeeps(s);
    if stmt.DoCommit? { CommitPublishes(s, stmt.durable); }
  }

  /** Once poisoned, a transaction stays exactly as it is until a step ends it,
  and that step publishes nothing its owner wrote. */
  lemma {:induction false} PoisonedNeverPublishes(d: Db, ev: Event)
    requires Inv(d.s) && Enabled(d, ev)
    requires d.s.txn.Some? && d.s.txn.value.poisoned
    ensures LeavesAlone(d, Step(d, ev), d.s.txn.value) || EndsUnpublished(d, ev, Step(d, ev), d.s.txn.value)
  {
    StepKeeps(d, ev);
    match ev
    case Run(c, stmt) =>
      AcquireKeeps(d, c);
      var s := Acquire(d, c);
      if s.txn.Some? {
        PoisonedStmt(s, stmt);
      } else {
        SweptStmt(s, stmt);
      }
    case Unwind(c) =>
      AcquireKeeps(d, c);
      DiscardKeeps(Acquire(d, c));
    case Drop(_, _) => DiscardKeeps(d.s);
    case Retry => FlushAllKeeps(d.s);
    case Connect =>
  }

  /** With no transaction open, a statement opens its own connection's or none. */
  lemma {:induction false} SweptStmt(s: State, stmt: Stmt)
    requires Inv(s) && s.txn.None?
    ensures var s1 := RunStmt(s, stmt).0; s1.txn.Some? ==> s1.txn.value.owner == s.owner
  {
    if stmt.DoMutate? { MutateKeeps(s, stmt.effect); }
  }

  /** What is in a transaction's private view was written by its owner, and it
  is the owner's identity that the COMMIT publishing it must present. */
  lemma {:induction false} CommitterWroteIt(d: Db, c: Conn, durable: bool)
    requires Inv(d.s) && c in d.live
    ensures var s := Acquire(d, c); var (s1, ok) := Commit(s, durable);
      && (ok ==> d.s.txn.Some? && d.s.txn.value.owner == c && !d.s.txn.value.poisoned)
      && Grows(d.s.tables, s1.tables, c)
  {
    AcquireKeeps(d, c);
    CommitPublishes(Acquire(d, c), durable);
    GrowsAfterSame(d.s.tables, Acquire(d, c).tables, Commit(Acquire(d, c), durable).0.tables, c);
  }

  /** A transaction whose connection is gone blocks nobody: the next connection
  to take the writer finds none open, and its BEGIN succeeds. */
  lemma {:induction false} OrphanIsSwept(d: Db, c: Conn)
    requires Inv(d.s) && c in d.live && d.s.txn.Some? && d.s.txn.value.owner !in d.live
    ensures Acquire(d, c).txn.None? && Begin(Acquire(d, c)).1
    ensures CommittedAll(Acquire(d, c).tables) == CommittedAll(d.s.tables)
  {
    DiscardKeeps(d.s);
  }

  // ---------------------------------------------------------------------- readers

  lemma {:induction false} GateExact(c: Catalog)
    ensures Gate(c).Some? ==> Gate(c).value == CommittedAll(c)
  {
    if Gate(c).Some? {
      forall p | p in c.Keys ensures Committed(c[p]) == c[p].parts {
        assert c[p].delta == [] && c[p].view.None?;
        assert c[p].parts + [] == c[p].parts;
      }
    }
  }

  /** A reader's answer, on either try, is exactly the committed rows, buffered
  ones included; it is refused exactly when a table is inside a transaction. */
  lemma {:induction false} ReaderSeesCommitted(s: State)
    requires Inv(s)
    ensures var first := SharedQuery(s);
      && (first.None? <==> !AnyInTxn(s.tables) && exists p :: p in s.tables.Keys && s.tables[p].delta != [])
      && (first.Some? ==> (first.value.None? <==> AnyInTxn(s.tables)))
      && (first.Some? && first.value.Some? ==> first.value.value == CommittedAll(s.tables))
    ensures var (s1, second) := ExclusiveQuery(s);
      && CommittedAll(s1.tables) == CommittedAll(s.tables) && Inv(s1)
      && (second.None? <==> AnyInTxn(s.tables))
      && (second.Some? ==> second.value == CommittedAll(s.tables))
  {
    GateExact(s.tables);
    FlushAllKeeps(s);
    var (s1, second) := ExclusiveQuery(s);
    GateExact(s1.tables);
    FlushAllEmpties(s.tables);
  }

  lemma {:induction false} FlushAllEmpties(c: Catalog)
    ensures !AnyPending(FlushAll(c)) && (AnyInTxn(FlushAll(c)) <==> AnyInTxn(c))
  {
    if AnyInTxn(c) {
      var p :| p in c.Keys && c[p].view.Some?;
      assert FlushAll(c)[p].view.Some?;
    }
  }

  // ------------------------------------------------------------------------ runs

  predicate IsStep(before: Db, ev: Event, after: Db) { Enabled(before, ev) && after == Step(before, ev) }

  predicate IsRun(ds: seq<Db>, evs: seq<Event>) {
    && |ds| == |evs| + 1
    && Inv(ds[0].s)
    && forall i {:trigger evs[i]} :: 0 <= i < |evs| ==> IsStep(ds[i], evs[i], ds[i + 1])
  }

  lemma {:induction false} RunNext(ds: seq<Db>, evs: seq<Event>, ev: Event)
    requires IsRun(ds, evs) && Enabled(ds[|evs|], ev)
    ensures IsRun(ds + [Step(ds[|evs|], ev)], evs + [ev])
  {
    var ds', evs' := ds + [Step(ds[|evs|], ev)], evs + [ev];
    forall i | 0 <= i < |evs'| ensures IsStep(ds'[i], evs'[i], ds'[i + 1]) {
      if i < |evs| { assert IsStep(ds[i], evs[i], ds[i + 1]); }
    }
  }

  lemma {:induction false} RunInv(ds: seq<Db>, evs: seq<Event>, k: nat)
    requires IsRun(ds, evs) && k < |ds|
    ensures Inv(ds[k].s)
  {
    if k > 0 {
      RunInv(ds, evs, k - 1);
      assert IsStep(ds[k - 1], evs[k - 1], ds[k]);
      StepKeeps(ds[k - 1], evs[k - 1]);
    }
  }

  /** What every connection may rely on seeing. */
  function Public(d: Db): map<Path, seq<Write>> { CommittedAll(d.s.tables) }

  lemma {:induction false} RunStep(ds: seq<Db>, evs: seq<Event>, k: nat)
    requires IsRun(ds, evs) && k < |evs|
    ensures ds[k + 1].s.txn.Some? ==> Public(ds[k + 1]) == Public(ds[k])
    ensures Published(ds[k], evs[k], ds[k + 1])
  {
    RunInv(ds, evs, k);
    assert IsStep(ds[k], evs[k], ds[k + 1]);
    StepKeeps(ds[k], evs[k]);
    if !evs[k].Run? { GrowsSame(ds[k].s.tables, ds[k + 1].s.tables, 0); }
  }

  /** One step publishes writes of the connection that ran it, at the end of
  each table, and a step no connection runs publishes nothing. */
  predicate Published(before: Db, ev: Event, after: Db) {
    && before.s.tables.Keys == after.s.tables.Keys
    && forall p {:trigger Committed(after.s.tables[p])} :: p in before.s.tables.Keys ==>
      if ev.Run? then Extends(Committed(before.s.tables[p]), Committed(after.s.tables[p]), ev.c)
      else Committed(before.s.tables[p]) == Committed(after.s.tables[p])
  }

  /** While transactions are open, from the state before the BEGIN to the state
  before the COMMIT, nothing any connection does changes what is committed. */
  lemma {:induction false} OpenTransactionIsIsolated(ds: seq<Db>, evs: seq<Event>, i: nat, j: nat)
    requires IsRun(ds, evs) && i <= j < |ds|
    requires forall k :: i < k <= j ==> ds[k].s.txn.Some?
    ensures Public(ds[j]) == Public(ds[i])
  {
    if i < j {
      OpenTransactionIsIsolated(ds, evs, i, j - 1);
      RunStep(ds, evs, j - 1);
    }
  }

  /** Over any interleaving: from the moment a transaction is poisoned it stays
  as it is, with what is committed standing still, until some step `m` ends it
  or the run does; and that step publishes nothing its owner wrote. */
  lemma {:induction false} PoisonedUntilEnd(ds: seq<Db>, evs: seq<Event>, i: nat, j: nat) returns (m: nat)
    requires IsRun(ds, evs) && i <= j < |ds| && ds[i].s.txn.Some? && ds[i].s.txn.value.poisoned
    ensures i <= m <= j
    ensures forall k :: i <= k <= m ==> ds[k].s.txn == ds[i].s.txn && Public(ds[k]) == Public(ds[i])
    ensures m < j ==> EndsUnpublished(ds[m], evs[m], ds[m + 1], ds[i].s.txn.value)
  {
    if i == j {
      m := i;
    } else {
      m := PoisonedUntilEnd(ds, evs, i, j - 1);
      if m == j - 1 {
        RunInv(ds, evs, m);
        assert IsStep(ds[m], evs[m], ds[j]);
        PoisonedNeverPublishes(ds[m], evs[m]);
        if LeavesAlone(ds[m], ds[j], ds[i].s.txn.value) { m := j; }
      }
    }
  }

  /** At any point of any interleaving, a reader that answers, on its first try
  or its second, answers exactly what is committed. */
  lemma {:induction false} ReaderInEveryRun(ds: seq<Db>, evs: seq<Event>, k: nat)
    requires IsRun(ds, evs) && k < |ds|
    ensures var first := SharedQuery(ds[k].s); first.Some? && first.value.Some? ==> first.value.value == Public(ds[k])
    ensures var second := ExclusiveQuery(ds[k].s).1; second.Some? ==> second.value == Public(ds[k])
    ensures Public(Step(ds[k], Retry)) == Public(ds[k]) && !AnyPending(Step(ds[k], Retry).s.tables)
  {
    RunInv(ds, evs, k);
    FlushAllEmpties(ds[k].s.tables);
    ReaderSeesCommitted(ds[k].s);
  }

  /** In every reachable state the enlisted paths are distinct, and a table
  marked `fold` is alone in its transaction. */
  lemma {:induction false} FoldsAlone(ds: seq<Db>, evs: seq<Event>, k: nat)
    requires IsRun(ds, evs) && k < |ds| && ds[k].s.txn.Some?
    ensures NoDup(ds[k].s.txn.value.tables)
    ensures AnyFold(ds[k].s.txn.value.tables) ==> |ds[k].s.txn.value.tables| == 1
  {
    RunInv(ds, evs, k);
  }

  /** Who ran the event. */
  predicate RanBy(ev: Event, c: Conn) { ev.Run? && ev.c == c }

  /** A table's committed mutations. */
  function History(d: Db, p: Path): seq<Write> { if p in d.s.tables then Committed(d.s.tables[p]) else [] }

  /** `after` is `before` and then writes of the connection that ran `ev`. */
  predicate Authored(before: seq<Write>, ev: Event, after: seq<Write>) {
    && before <= after
    && forall n {:trigger after[n]} :: |before| <= n < |after| ==> RanBy(ev, after[n].author)
  }

  lemma {:induction false} HistoryStep(ds: seq<Db>, evs: seq<Event>, k: nat, p: Path)
    requires IsRun(ds, evs) && k < |evs|
    ensures Authored(History(ds[k], p), evs[k], History(ds[k + 1], p))
  {
    RunStep(ds, evs, k);
  }

  lemma {:induction false} AuthorOf(hs: seq<seq<Write>>, evs: seq<Event>, k: nat, n: nat) returns (at: nat)
    requires |hs| == |evs| + 1 && k < |hs| && |hs[0]| <= n < |hs[k]|
    requires forall i {:trigger evs[i]} :: 0 <= i < |evs| ==> Authored(hs[i], evs[i], hs[i + 1])
    ensures at < k && RanBy(evs[at], hs[k][n].author)
  {
    assert Authored(hs[k - 1], evs[k - 1], hs[k]);
    if n < |hs[k - 1]| {
      at := AuthorOf(hs, evs, k - 1, n);
    } else {
      at := k - 1;
    }
  }

  /** Every committed mutation not there at the start was published by a
  statement of the connection that wrote it. */
  lemma {:induction false} PublishedByAuthor(ds: seq<Db>, evs: seq<Event>, k: nat, p: Path, n: nat) returns (at: nat)
    requires IsRun(ds, evs) && k < |ds| && |History(ds[0], p)| <= n < |History(ds[k], p)|
    ensures at < k && RanBy(evs[at], History(ds[k], p)[n].author)
  {
    var hs := seq(|ds|, i requires 0 <= i < |ds| => History(ds[i], p));
    forall i | 0 <= i < |evs| ensures Authored(hs[i], evs[i], hs[i + 1]) {
      HistoryStep(ds, evs, i, p);
    }
    at := AuthorOf(hs, evs, k, n);
  }

  // ---------------------------------------------------------------- a leaked view

  /** A table with a private view no transaction's roster names. */
  predicate Leaked(s: State, path: Path) {
    path in s.tables && s.tables[path].view.Some? && (s.txn.Some? ==> path !in Named(s.txn.value.tables))
  }

  /** Enlisting a table leaks its view exactly when the view is attached and the
  log then does not open. */
  lemma {:induction false} EnlistLeaksIff(s: State, path: Path, opens: bool)
    requires s.txn.Some? && path in s.tables && !Leaked(s, path)
    ensures Leaked(Enlist(s, path, opens).0, path) <==>
      !opens && path !in Named(s.txn.value.tables) && !AnyFold(s.txn.value.tables)
  {
    NamedAppend(s.txn.value.tables, Enlisted(path, false));
  }

  /** A database of one empty table and one connection. */
  function OneTable(): Db { Db(State(map["t" := Table([], None, [])], None, 0), {1}, 2) }

  /** BEGIN, a write whose table's log does not open, ROLLBACK: no transaction is
  open, and the view is still attached. */
  lemma {:induction false} LeakReached() returns (ds: seq<Db>, evs: seq<Event>)
    ensures IsRun(ds, evs) && ds[0] == OneTable() && ds[|evs|].s.txn.None? && Leaked(ds[|evs|].s, "t")
  {
    var e := Effect("t", [7], false, false, true, false);
    var d1 := Step(OneTable(), Run(1, DoBegin));
    var d2 := Step(d1, Run(1, DoMutate(e)));
    var d3 := Step(d2, Run(1, DoRollback));
    ds, evs := [OneTable(), d1, d2, d3], [Run(1, DoBegin), Run(1, DoMutate(e)), Run(1, DoRollback)];
    assert d1.s == State(map["t" := Table([], None, [])], Some(Txn(1, [], false)), 1);
    assert BeginTable(Table([], None, [])) == Table([], Some([]), []);
    assert Named([]) == {};
    assert d2.s.txn == Some(Txn(1, [], true)) && d2.s.tables["t"].view == Some([]);
    assert d3.s.tables["t"].view.Some?;
  }

  /** An insert into a leaked table is accepted and commits nothing. */
  lemma {:induction false} LeakSwallowsInserts(s: State, e: Effect)
    requires Leaked(s, e.path) && s.txn.None? && !e.dark && |e.batch| <= 1 && !e.fails
    ensures var (s1, ok) := Mutate(s, e); ok && CommittedAll(s1.tables) == CommittedAll(s.tables)
  {
    var s1 := Mutate(s, e).0;
    forall p | p in s.tables ensures Committed(s1.tables[p]) == Committed(s.tables[p]) {}
  }

  /** The leak is still there, and the table's committed contents are what they
  were. */
  predicate Stuck(s: State, s': State, path: Path) {
    path in s.tables && Leaked(s', path) && Committed(s'.tables[path]) == Committed(s.tables[path])
  }

  /** Over any interleaving, from the moment a table's view leaks nothing is ever
  committed to the table again, and every reader is refused. */
  lemma {:induction false} LeakNeverCommits(ds: seq<Db>, evs: seq<Event>, i: nat, k: nat, path: Path)
    requires IsRun(ds, evs) && i <= k < |ds| && Leaked(ds[i].s, path)
    ensures Leaked(ds[k].s, path) && History(ds[k], path) == History(ds[i], path)
    ensures SharedQuery(ds[k].s) == Some(None) && ExclusiveQuery(ds[k].s).1 == None
    decreases k - i
  {
    if i < k {
      LeakNeverCommits(ds, evs, i, k - 1, path);
      LeakIsPermanent(ds[k - 1], evs[k - 1], path);
    }
    LeakRefusesReaders(ds[k].s, path);
  }

  lemma {:induction false} LeakRefusesReaders(s: State, path: Path)
    requires Leaked(s, path)
    ensures SharedQuery(s) == Some(None) && ExclusiveQuery(s).1 == None
  {
    FlushAllEmpties(s.tables);
    assert AnyInTxn(s.tables);
  }

  /** A view attached by a failed enlistment outlives every later step, ROLLBACK
  included, and no step commits anything to its table. */
  lemma {:induction false} LeakIsPermanent(d: Db, ev: Event, path: Path)
    requires Enabled(d, ev) && Leaked(d.s, path)
    ensures Stuck(d.s, Step(d, ev).s, path)
  {
    match ev
    case Connect =>
    case Drop(c, prompt) =>
    case Retry =>
    case Unwind(c) => LeakSurvivesAcquire(d, c, path);
    case Run(c, stmt) =>
      LeakSurvivesAcquire(d, c, path);
      var s := Acquire(d, c);
      if stmt.DoMutate? {
        LeakSurvivesMutate(s, stmt.effect, path);
      }
  }

  lemma {:induction false} LeakSurvivesAcquire(d: Db, c: Conn, path: Path)
    requires Leaked(d.s, path)
    ensures Stuck(d.s, Acquire(d, c), path)
  {
  }

  lemma {:induction false} LeakSurvivesEnlist(s: State, other: Path, opens: bool, path: Path)
    requires Leaked(s, path) && s.txn.Some? && other in s.tables
    ensures Stuck(s, Enlist(s, other, opens).0, path) && Enlist(s, other, opens).0.txn.Some?
    ensures Enlist(s, other, opens).0.tables.Keys == s.tables.Keys
  {
    NamedAppend(s.txn.value.tables, Enlisted(other, false));
  }

  lemma {:induction false} LeakSurvivesWrite(s: State, e: Effect, path: Path)
    requires Leaked(s, path) && s.txn.Some? && e.path in s.tables
    ensures Stuck(s, WriteInTxn(s, e).0, path) && WriteInTxn(s, e).0.txn.Some?
  {
    LeakSurvivesEnlist(s, e.path, e.opens, path);
    var s1 := Enlist(s, e.path, e.opens).0;
    NamedSetFold(s1.txn.value.tables, e.path);
  }

  lemma {:induction false} LeakSurvivesMutate(s: State, e: Effect, path: Path)
    requires Leaked(s, path)
    ensures Stuck(s, Mutate(s, e).0, path)
  {
    if e.path in s.tables {
      if s.txn.Some? {
        LeakSurvivesWrite(s, e, path);
      } else {
        LeakSurvivesWrite(Begin(s).0, e, path);
      }
    }
  }
}
