/** What an accepted statement writes: its own rows, in order, under its author,
in its table, and nothing else anywhere. */
module Accepted {
  import opened Basics
  import opened Session
  import opened Isolation

  /** `ws` are exactly the rows of `batch`, in order, written by `c`. */
  predicate Stamped(ws: seq<Write>, c: Conn, batch: seq<int>) {
    |ws| == |batch| && forall i :: 0 <= i < |ws| ==> ws[i].author == c && ws[i].what == batch[i]
  }

  /** `after` is `before` and then exactly that batch. */
  predicate Adds(before: seq<Write>, after: seq<Write>, c: Conn, batch: seq<int>) {
    before <= after && Stamped(after[|before|..], c, batch)
  }

  lemma {:induction false} AddsSigned(before: seq<Write>, c: Conn, batch: seq<int>)
    ensures Adds(before, before + Signed(c, batch), c, batch)
  {
    assert (before + Signed(c, batch))[|before|..] == Signed(c, batch);
  }

  lemma {:induction false} AddsNothing(before: seq<Write>, c: Conn)
    ensures Adds(before, before, c, [])
  {
  }

  lemma {:induction false} AddsMore(a: seq<Write>, b: seq<Write>, d: seq<Write>, c: Conn, x: seq<int>, y: seq<int>)
    requires Adds(a, b, c, x) && Adds(b, d, c, y)
    ensures Adds(a, d, c, x + y)
  {
    forall i | 0 <= i < |d[|a|..]| ensures d[|a|..][i].author == c && d[|a|..][i].what == (x + y)[i] {
      if i < |x| { assert d[|a|..][i] == b[|a|..][i]; } else { assert d[|a|..][i] == d[|b|..][i - |x|]; }
    }
  }

  /** What the owner of the open transaction sees of table `p`. */
  function Seen(s: State, p: Path): seq<Write>
    requires p in s.tables
  {
    if s.txn.Some? && p in Named(s.txn.value.tables) then Pending(s.tables[p]) else Committed(s.tables[p])
  }

  predicate OthersStand(s: State, s1: State, path: Path) {
    s1.tables.Keys == s.tables.Keys && forall p :: p in s.tables.Keys && p != path ==> Seen(s1, p) == Seen(s, p)
  }

  /** The statement's batch and nothing else has come to be seen. */
  predicate Wrote(s: State, s1: State, e: Effect) {
    e.path in s.tables && OthersStand(s, s1, e.path) && Adds(Seen(s, e.path), Seen(s1, e.path), s.owner, e.batch)
  }

  // ---------------------------------------------------------------- one statement

  /** Enlisting a table changes what nobody sees. */
  lemma {:induction false} EnlistSees(s: State, path: Path, opens: bool)
    requires Inv(s) && s.txn.Some? && path in s.tables && Enlist(s, path, opens).1
    ensures var s1 := Enlist(s, path, opens).0;
      s1.txn.Some? && path in Named(s1.txn.value.tables) && OthersStand(s, s1, path) && Seen(s1, path) == Seen(s, path)
  {
    NamedAppend(s.txn.value.tables, Enlisted(path, false));
    BeginSees(s.tables[path]);
  }

  lemma {:induction false} BeginSees(t: Table)
    ensures t.view.None? ==> Pending(BeginTable(t)) == Committed(t)
  {
    assert t.parts + t.delta + [] == t.parts + t.delta;
  }

  lemma {:induction false} FoldSees(s: State, path: Path)
    requires s.txn.Some? && MarkFold(s, path).1
    ensures var s1 := MarkFold(s, path).0;
      s1.tables == s.tables && s1.txn.Some? && forall p :: p in s.tables.Keys ==> Seen(s1, p) == Seen(s, p)
  {
    NamedSetFold(s.txn.value.tables, path);
  }

  /** An accepted write inside a transaction. */
  lemma {:induction false} WriteAdds(s: State, e: Effect)
    requires Inv(s) && s.txn.Some? && e.path in s.tables && WriteInTxn(s, e).1
    ensures Wrote(s, WriteInTxn(s, e).0, e)
  {
    EnlistSees(s, e.path, e.opens);
    EnlistKeeps(s, e.path, e.opens);
    var s1 := Enlist(s, e.path, e.opens).0;
    var ws := Signed(s.owner, e.batch);
    var s2 := s1.(tables := s1.tables[e.path := Buffer(s1.tables[e.path], ws)]);
    var t := s1.tables[e.path];
    assert t.view.value + (t.delta + ws) == t.view.value + t.delta + ws;
    AddsSigned(Seen(s, e.path), s.owner, e.batch);
    assert Wrote(s, s2, e);
    if e.dark { FoldSees(s2, e.path); }
  }

  /** Inside a transaction an accepted statement adds exactly its batch to what
  the transaction sees of its table, and no other table changes. */
  lemma {:induction false} InsideAdds(s: State, e: Effect)
    requires Inv(s) && s.txn.Some? && Mutate(s, e).1
    ensures Wrote(s, Mutate(s, e).0, e)
  {
    WriteAdds(s, e);
  }

  /** Outside one, on a table whose view has not leaked, it adds exactly its batch
  to what is committed. */
  lemma {:induction false} OutsideAdds(s: State, e: Effect)
    requires Inv(s) && s.txn.None? && Mutate(s, e).1 && (e.path in s.tables ==> s.tables[e.path].view.None?)
    ensures Wrote(s, Mutate(s, e).0, e)
  {
    if !e.dark && |e.batch| <= 1 {
      PlainAdds(s, e);
    } else {
      WrappedAdds(s, e);
    }
  }

  lemma {:induction false} PlainAdds(s: State, e: Effect)
    requires s.txn.None? && Mutate(s, e).1 && !e.dark && |e.batch| <= 1 && e.path in s.tables && s.tables[e.path].view.None?
    ensures Wrote(s, Mutate(s, e).0, e)
  {
    var t, ws := s.tables[e.path], Signed(s.owner, e.batch);
    assert t.parts + (t.delta + ws) == t.parts + t.delta + ws;
    AddsSigned(Committed(t), s.owner, e.batch);
  }

  lemma {:induction false} WrappedAdds(s: State, e: Effect)
    requires Inv(s) && s.txn.None? && Mutate(s, e).1 && (e.dark || |e.batch| > 1)
    ensures Wrote(s, Mutate(s, e).0, e)
  {
    var s0 := Begin(s).0;
    assert Named(s0.txn.value.tables) == {};
    assert forall p :: p in s.tables.Keys ==> Seen(s0, p) == Seen(s, p);
    WriteAdds(s0, e);
    WriteInTxnKeeps(s0, e);
    var s2 := WriteInTxn(s0, e).0;
    CommitSees(s2, e.durable);
  }

  /** A COMMIT that succeeds commits what the transaction saw. */
  lemma {:induction false} CommitSees(s: State, durable: bool)
    requires Inv(s) && Commit(s, durable).1
    ensures var s1 := Commit(s, durable).0;
      s1.txn.None? && s1.tables.Keys == s.tables.Keys && forall p :: p in s.tables.Keys ==> Seen(s1, p) == Seen(s, p)
  {
    CommitPublishes(s, durable);
  }

  // ------------------------------------------------------------- when it is accepted

  /** Nothing stands in the way of enlisting the table. */
  predicate MayEnlist(s: State, x: Txn, e: Effect) {
    e.path in Named(x.tables)
    || (!AnyFold(x.tables) && e.path in s.tables && s.tables[e.path].view.None? && e.opens)
  }

  /** In its own healthy transaction a statement is accepted exactly when its
  table is or can be enlisted, it does not fail, and, hiding rows no record can
  name, it has the transaction to itself. */
  lemma {:induction false} InsideIff(s: State, e: Effect)
    requires Inv(s) && s.txn.Some? && !Foreign(s) && !s.txn.value.poisoned
    ensures Mutate(s, e).1 <==>
      && e.path in s.tables && MayEnlist(s, s.txn.value, e) && !e.fails
      && (e.dark ==> Named(s.txn.value.tables) <= {e.path})
  {
    if e.path in s.tables {
      var x := s.txn.value;
      NamedAppend(x.tables, Enlisted(e.path, false));
      var s1 := Enlist(s, e.path, e.opens).0;
      if Enlist(s, e.path, e.opens).1 { AloneIff(s1.txn.value.tables, e.path); }
    }
  }

  lemma {:induction false} AloneIff(tables: seq<Enlisted>, path: Path)
    ensures (exists i :: 0 <= i < |tables| && tables[i].path != path) <==> !(Named(tables) <= {path})
  {
    if i :| 0 <= i < |tables| && tables[i].path != path { assert tables[i].path in Named(tables); }
  }

  /** Outside a transaction: exactly when the table is there and the statement
  does not fail, and, wrapped in a transaction of its own, the table enlists and
  the COMMIT reaches the disk. */
  lemma {:induction false} OutsideIff(s: State, e: Effect)
    requires Inv(s) && s.txn.None?
    ensures Mutate(s, e).1 <==>
      && e.path in s.tables && !e.fails
      && (e.dark || |e.batch| > 1 ==> s.tables[e.path].view.None? && e.opens && e.durable)
  {
    if e.path in s.tables && (e.dark || |e.batch| > 1) {
      var s0 := Begin(s).0;
      assert s0.txn.value.tables == [] && Named([]) == {} && !AnyFold([]);
      NamedAppend([], Enlisted(e.path, false));
      WriteInTxnKeeps(s0, e);
      if Enlist(s0, e.path, e.opens).1 {
        var s1 := Enlist(s0, e.path, e.opens).0;
        AloneIff(s1.txn.value.tables, e.path);
      }
    }
  }

  // --------------------------------------------------------- BEGIN, ROLLBACK, failure

  /** BEGIN succeeds exactly when no transaction is open.  Nested in its own it
  spoils that one, whose COMMIT can then only fail; in another's it does nothing. */
  lemma {:induction false} BeginIff(s: State, durable: bool)
    requires Inv(s)
    ensures var (s1, ok) := Begin(s);
      && s1.tables == s.tables && s1.owner == s.owner && (ok <==> s.txn.None?)
      && (ok ==> s1.txn == Some(Txn(s.owner, [], false)))
      && (!ok && s.txn.value.owner == s.owner ==> !Commit(s1, durable).1)
      && (!ok && s.txn.value.owner != s.owner ==> s1 == s)
  {
  }

  /** A failed statement spoils its connection's transaction, whose COMMIT can
  then only fail, and writes nothing. */
  lemma {:induction false} FailureSpoils(s: State, durable: bool)
    requires Inv(s)
    ensures var (s1, ok) := RunStmt(s, DoFail);
      && !ok && s1.tables == s.tables && (s.txn.None? || s.txn.value.owner != s.owner ==> s1 == s)
      && (s.txn.Some? ==> !Commit(s1, durable).1)
  {
  }

  /** ROLLBACK succeeds exactly for its own transaction, ends it, leaves no trace
  of it in any table it enlisted and touches no other. */
  lemma {:induction false} RollbackForgets(s: State)
    requires Inv(s)
    ensures var (s1, ok) := Rollback(s);
      && (ok <==> s.txn.Some? && s.txn.value.owner == s.owner) && (!ok ==> s1 == s)
      && (ok ==> s1.txn.None? && s1.tables.Keys == s.tables.Keys
                 && forall p :: p in s.tables.Keys ==>
                   if p in Named(s.txn.value.tables) then s1.tables[p] == Table(s.tables[p].parts, None, [])
                   else s1.tables[p] == s.tables[p])
  {
  }

  /** Having hidden rows no record can name, a statement leaves its table marked:
  no other table gets into the transaction any more. */
  lemma {:induction false} DarkShutsOthersOut(s: State, e: Effect, other: Effect)
    requires Inv(s) && s.txn.Some? && e.dark && Mutate(s, e).1 && other.path != e.path
    ensures var s1 := Mutate(s, e).0;
      && s1.txn.Some? && AnyFold(s1.txn.value.tables) && Named(s1.txn.value.tables) == {e.path}
      && !Mutate(s1, other).1
  {
    var s1, x := Mutate(s, e).0, s.txn.value;
    NamedAppend(x.tables, Enlisted(e.path, false));
    var roster := Enlist(s, e.path, e.opens).0.txn.value.tables;
    NamedSetFold(roster, e.path);
    AloneIff(roster, e.path);
    assert e.path in Named(roster);
    var i :| 0 <= i < |roster| && roster[i].path == e.path;
    assert SetFold(roster, e.path)[i].fold;
  }

  /** A read through the writer is refused exactly in another's transaction or a
  failed one; it changes nothing anyone sees and leaves no row buffered. */
  lemma {:induction false} ReadSettles(s: State)
    requires Inv(s)
    ensures var (s1, ok) := ReadHere(s);
      && (ok <==> s.txn.None? || (s.txn.value.owner == s.owner && !s.txn.value.poisoned))
      && s1.txn == s.txn && s1.tables.Keys == s.tables.Keys && (ok ==> !AnyPending(s1.tables))
      && forall p :: p in s.tables.Keys ==> Seen(s1, p) == Seen(s, p)
  {
    FlushAllEmpties(s.tables);
    forall p | p in s.tables.Keys ensures Seen(ReadHere(s).0, p) == Seen(s, p) { FlushSees(s, p); }
  }

  // ------------------------------------------------------------------- connections

  /** Every identity handed out is below the next one. */
  predicate Minted(d: Db) {
    (forall c :: c in d.live ==> c < d.minted) && (d.s.txn.Some? ==> d.s.txn.value.owner < d.minted)
  }

  /** A new connection is nobody who was there before: it is live nowhere earlier
  and owns no transaction. */
  lemma {:induction false} ConnectIsNew(d: Db, ev: Event)
    requires Enabled(d, ev) && Minted(d) && Inv(d.s)
    ensures Minted(Step(d, ev)) && d.minted <= Step(d, ev).minted
    ensures ev.Connect? ==> Step(d, ev).live == d.live + {d.minted} && Step(d, ev).minted > d.minted
    ensures ev.Connect? ==> d.minted !in d.live && Step(d, ev).s == d.s
  {
    if ev.Run? && ev.stmt.DoMutate? {
      AcquireKeeps(d, ev.c);
      OwnerStays(Acquire(d, ev.c), ev.stmt.effect);
    }
  }

  lemma {:induction false} OwnerStays(s: State, e: Effect)
    requires Inv(s)
    ensures var s1 := Mutate(s, e).0; s1.txn.Some? ==> s.txn.Some? && s1.txn.value.owner == s.txn.value.owner
  {
    MutateKeeps(s, e);
    if s.txn.Some? && e.path in s.tables && !Foreign(s) { WriteInTxnKeeps(s, e); }
  }

  /** A connection that goes, at once or by the death of its thread, takes its
  transaction with it, and nothing of it is published; nobody else's ends. */
  lemma {:induction false} GoneTakesItsTransaction(d: Db, c: Conn)
    requires Inv(d.s) && c in d.live && d.s.txn.Some?
    ensures var d1 := Step(d, Drop(c, true));
      c !in d1.live && d1.live == d.live - {c} && Public(d1) == Public(d)
      && if d.s.txn.value.owner == c then d1.s.txn.None? else d1.s.txn == d.s.txn
    ensures var d1 := Step(d, Drop(c, false)); c !in d1.live && d1.s == d.s
    ensures var d1 := Step(d, Unwind(c));
      Public(d1) == Public(d)
      && if d.s.txn.value.owner == c || d.s.txn.value.owner !in d.live then d1.s.txn.None? else d1.s.txn == d.s.txn
  {
    DiscardKeeps(d.s);
    AcquireKeeps(d, c);
    DiscardKeeps(Acquire(d, c));
  }

  // -------------------------------------------------------------------- whole runs

  /** A row-changing statement `c` ran on table `p`. */
  predicate WritesTo(ev: Event, c: Conn, p: Path) {
    ev.Run? && ev.c == c && ev.stmt.DoMutate? && ev.stmt.effect.path == p
  }

  function BatchOf(ev: Event, c: Conn, p: Path): seq<int> {
    if WritesTo(ev, c, p) then ev.stmt.effect.batch else []
  }

  /** All of its batches between steps `i` and `j`. */
  function Batches(evs: seq<Event>, i: nat, j: nat, c: Conn, p: Path): seq<int>
    requires i <= j <= |evs|
    decreases j
  {
    if i == j then []
    else Batches(evs, i, j - 1, c, p) + BatchOf(evs[j - 1], c, p)
  }

  /** `c`'s transaction is open, and not poisoned. */
  predicate OpenFor(d: Db, c: Conn) { d.s.txn.Some? && d.s.txn.value.owner == c && !d.s.txn.value.poisoned }

  /** The step was, if a row-changing statement of `c`, accepted, and changed
  what `c` sees by exactly its batch. */
  predicate SeesStep(d: Db, ev: Event, d1: Db, c: Conn, p: Path)
    requires p in d.s.tables
  {
    && p in d1.s.tables
    && if WritesTo(ev, c, p)
       then RunStmt(Acquire(d, c), ev.stmt).1 && Adds(Seen(d.s, p), Seen(d1.s, p), c, ev.stmt.effect.batch)
       else Seen(d1.s, p) == Seen(d.s, p)
  }

  lemma {:induction false} FlushSees(s: State, p: Path)
    requires Inv(s) && p in s.tables
    ensures Seen(s.(tables := FlushAll(s.tables)), p) == Seen(s, p)
  {
    var t := s.tables[p];
    FlushCommitted(t);
    if t.view.Some? { assert t.view.value + t.delta + [] == t.view.value + t.delta; }
  }

  /** As long as its transaction stays open and healthy, only its own statements
  change what a connection sees. */
  lemma {:induction false} StepSees(d: Db, ev: Event, c: Conn, p: Path)
    requires Inv(d.s) && Enabled(d, ev) && OpenFor(d, c) && OpenFor(Step(d, ev), c) && p in d.s.tables
    ensures SeesStep(d, ev, Step(d, ev), c, p)
  {
    match ev
    case Connect =>
    case Drop(_, _) =>
    case Unwind(_) =>
    case Retry => FlushSees(d.s, p);
    case Run(who, stmt) => if who == c { OwnSees(d, stmt, c, p); }
  }

  lemma {:induction false} OwnSees(d: Db, stmt: Stmt, c: Conn, p: Path)
    requires Inv(d.s) && c in d.live && OpenFor(d, c) && OpenFor(Step(d, Run(c, stmt)), c) && p in d.s.tables
    ensures SeesStep(d, Run(c, stmt), Step(d, Run(c, stmt)), c, p)
  {
    var s := Acquire(d, c);
    assert s.tables == d.s.tables && s.txn == d.s.txn;
    match stmt
    case DoMutate(e) =>
      if !Mutate(s, e).1 { RefusedPoisons(s, e); }
      InsideAdds(s, e);
    case DoRead => FlushSees(s, p);
    case _ =>
  }

  lemma {:induction false} RefusedPoisons(s: State, e: Effect)
    requires Inv(s) && s.txn.Some? && !Foreign(s) && !s.txn.value.poisoned && !Mutate(s, e).1
    ensures Mutate(s, e).0.txn.Some? && Mutate(s, e).0.txn.value.poisoned
  {
    if e.path in s.tables { WriteInTxnKeeps(s, e); }
  }

  /** `c`'s transaction is open from state `i` to state `j`. */
  predicate OpenThrough(ds: seq<Db>, i: nat, j: nat, c: Conn)
    requires i <= j < |ds|
  {
    forall k {:trigger ds[k]} :: i <= k <= j ==> ds[k].s.txn.Some? && ds[k].s.txn.value.owner == c
  }

  /** Healthy at its end, it was healthy throughout. */
  lemma {:induction false} HealthyBefore(ds: seq<Db>, evs: seq<Event>, i: nat, j: nat, c: Conn)
    requires IsRun(ds, evs) && i <= j < |ds| && OpenThrough(ds, i, j, c) && !ds[j].s.txn.value.poisoned
    ensures OpenFor(ds[i], c)
    decreases j - i
  {
    if i < j {
      HealthyBefore(ds, evs, i + 1, j, c);
      RunInv(ds, evs, i);
      assert IsStep(ds[i], evs[i], ds[i + 1]);
      if ds[i].s.txn.value.poisoned { PoisonedNeverPublishes(ds[i], evs[i]); }
    }
  }

  /** Its last step. */
  lemma {:induction false} RunSees(ds: seq<Db>, evs: seq<Event>, k: nat, c: Conn, p: Path)
    requires IsRun(ds, evs) && k < |evs| && p in ds[k].s.tables
    requires OpenThrough(ds, k, k + 1, c) && !ds[k + 1].s.txn.value.poisoned
    ensures SeesStep(ds[k], evs[k], ds[k + 1], c, p)
  {
    HealthyBefore(ds, evs, k, k + 1, c);
    RunInv(ds, evs, k);
    assert IsStep(ds[k], evs[k], ds[k + 1]);
    StepSees(ds[k], evs[k], c, p);
  }

  lemma {:induction false} StepAdds(a: seq<Write>, d: Db, ev: Event, d1: Db, c: Conn, p: Path, x: seq<int>)
    requires p in d.s.tables && SeesStep(d, ev, d1, c, p) && Adds(a, Seen(d.s, p), c, x)
    ensures Adds(a, Seen(d1.s, p), c, x + BatchOf(ev, c, p))
  {
    if !WritesTo(ev, c, p) { AddsNothing(Seen(d.s, p), c); }
    AddsMore(a, Seen(d.s, p), Seen(d1.s, p), c, x, BatchOf(ev, c, p));
  }

  lemma {:induction false} Shorter(ds: seq<Db>, i: nat, k: nat, j: nat, c: Conn)
    requires i <= k <= j < |ds| && OpenThrough(ds, i, j, c)
    ensures OpenThrough(ds, i, k, c) && OpenThrough(ds, k, j, c)
  {
  }

  /** Over any interleaving, a connection whose transaction stays open and ends
  healthy sees what it saw and then its own statements' batches. */
  lemma {:induction false} SeesItsStatements(ds: seq<Db>, evs: seq<Event>, i: nat, j: nat, c: Conn, p: Path)
    requires IsRun(ds, evs) && i <= j < |ds| && OpenThrough(ds, i, j, c) && !ds[j].s.txn.value.poisoned
    requires p in ds[i].s.tables
    ensures p in ds[j].s.tables && Adds(Seen(ds[i].s, p), Seen(ds[j].s, p), c, Batches(evs, i, j, c, p))
    decreases j
  {
    if i == j {
      AddsNothing(Seen(ds[i].s, p), c);
    } else {
      Shorter(ds, i, j - 1, j, c);
      HealthyBefore(ds, evs, j - 1, j, c);
      SeesItsStatements(ds, evs, i, j - 1, c, p);
      RunSees(ds, evs, j - 1, c, p);
      StepAdds(Seen(ds[i].s, p), ds[j - 1], evs[j - 1], ds[j], c, p, Batches(evs, i, j - 1, c, p));
    }
  }

  lemma {:induction false} AllAccepted(ds: seq<Db>, evs: seq<Event>, i: nat, k: nat, j: nat, c: Conn, p: Path)
    requires IsRun(ds, evs) && i <= k < j < |ds| && OpenThrough(ds, i, j, c) && !ds[j].s.txn.value.poisoned
    requires p in ds[i].s.tables && WritesTo(evs[k], c, p)
    ensures RunStmt(Acquire(ds[k], c), evs[k].stmt).1
  {
    Shorter(ds, i, k, j, c);
    Shorter(ds, k, k + 1, j, c);
    HealthyBefore(ds, evs, k, j, c);
    HealthyBefore(ds, evs, k + 1, j, c);
    SeesItsStatements(ds, evs, i, k, c, p);
    RunSees(ds, evs, k, c, p);
  }

  /** Over any interleaving: a COMMIT that succeeds adds to every table exactly
  the batches of the statements its connection ran on it since its BEGIN, in
  order, and every one of them had been accepted. */
  lemma {:induction false} CommitIsItsStatements(ds: seq<Db>, evs: seq<Event>, i: nat, j: nat, c: Conn, durable: bool, p: Path)
    requires IsRun(ds, evs) && i <= j < |evs| && OpenThrough(ds, i, j, c)
    requires ds[i].s.txn == Some(Txn(c, [], false)) && p in ds[i].s.tables
    requires evs[j] == Run(c, DoCommit(durable)) && RunStmt(Acquire(ds[j], c), DoCommit(durable)).1
    ensures Adds(History(ds[i], p), History(ds[j + 1], p), c, Batches(evs, i, j, c, p))
    ensures forall k :: i <= k < j && WritesTo(evs[k], c, p) ==> RunStmt(Acquire(ds[k], c), evs[k].stmt).1
  {
    RunInv(ds, evs, j);
    assert IsStep(ds[j], evs[j], ds[j + 1]);
    var s := Acquire(ds[j], c);
    assert s.tables == ds[j].s.tables && s.txn == ds[j].s.txn;
    CommitPublishes(s, durable);
    SeesItsStatements(ds, evs, i, j, c, p);
    forall k | i <= k < j && WritesTo(evs[k], c, p) ensures RunStmt(Acquire(ds[k], c), evs[k].stmt).1 {
      AllAccepted(ds, evs, i, k, j, c, p);
    }
    CommitSees(s, durable);
    assert Named(ds[i].s.txn.value.tables) == {};
  }
}
