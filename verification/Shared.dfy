/** The session behind a shared handle, as the object whose fields the
statements update: each method is proved to take exactly the step the session
model defines, loops over the enlisted tables included, and the calls made so
far are an interleaving the isolation theorems speak of. */
module Shared {
  import opened Basics
  import opened S = Session
  import Isolation
  import Accepted

  lemma {:induction false} MutateSays(s: State, e: Effect)
    requires Inv(s)
    ensures S.Mutate(s, e).1 && !(s.txn.None? && e.path in s.tables && s.tables[e.path].view.Some?) ==>
      Accepted.Wrote(s, S.Mutate(s, e).0, e)
  {
    if S.Mutate(s, e).1 && !(s.txn.None? && e.path in s.tables && s.tables[e.path].view.Some?) {
      if s.txn.Some? { Accepted.InsideAdds(s, e); } else { Accepted.OutsideAdds(s, e); }
    }
  }

  // ------------------------------------------------------- loops over the roster

  lemma {:induction false} NamedPrefix(tables: seq<Enlisted>, i: nat)
    requires i < |tables|
    ensures Named(tables[..i + 1]) == Named(tables[..i]) + {tables[i].path}
  {
    assert tables[..i + 1] == tables[..i] + [tables[i]];
    Isolation.NamedAppend(tables[..i], tables[i]);
  }

  /** One more turn of a loop that applies `f` to each enlisted table; a second
  visit to the same table would change nothing. */
  lemma {:induction false} TouchNext(c: Catalog, tables: seq<Enlisted>, i: nat, f: Table -> Table)
    requires i < |tables| && forall t :: f(f(t)) == f(t)
    ensures var done := Touch(c, Named(tables[..i]), f); var p := tables[i].path;
      && done.Keys == c.Keys
      && Touch(c, Named(tables[..i + 1]), f) == if p in c then done[p := f(done[p])] else done
  {
    NamedPrefix(tables, i);
  }

  lemma {:induction false} TouchNone(c: Catalog, tables: seq<Enlisted>, f: Table -> Table)
    ensures Touch(c, Named(tables[..0]), f) == c
  {
  }

  lemma {:induction false} FlushTwice()
    ensures forall t: Table :: Flush(Flush(t)) == Flush(t)
  {
    forall t: Table ensures Flush(Flush(t)) == Flush(t) {
      assert t.view.Some? ==> t.view.value + t.delta + [] == t.view.value + t.delta;
      assert t.parts + t.delta + [] == t.parts + t.delta;
    }
  }

  class Database {
    var tables: Catalog
    var txn: Option<Txn>
    var owner: Conn
    var live: set<Conn>
    var minted: nat
    ghost var past: seq<Db>
    ghost var calls: seq<Event>

    function Now(): State reads this { State(tables, txn, owner) }
    function World(): Db reads this { Db(Now(), live, minted) }

    /** The calls so far are a run that ends in the present state. */
    ghost predicate Valid()
      reads this
    {
      Isolation.IsRun(past, calls) && past[|calls|] == World()
    }

    constructor (tables: Catalog)
      ensures Valid() && calls == [] && World() == Db(State(tables, None, 0), {1}, 2)
    {
      this.tables, txn, owner, live, minted := tables, None, 0, {1}, 2;
      past, calls := [Db(State(tables, None, 0), {1}, 2)], [];
    }

    lemma Holds()
      requires Valid()
      ensures Inv(Now())
    {
      Isolation.RunInv(past, calls, |calls|);
    }

    /** Record that the state just left took event `ev`. */
    ghost method Record(before: Db, ev: Event)
      requires Isolation.IsRun(past, calls) && past[|calls|] == before
      requires Enabled(before, ev) && World() == Step(before, ev)
      modifies this`past, this`calls
      ensures Valid() && past == old(past) + [World()] && calls == old(calls) + [ev]
    {
      Isolation.RunNext(past, calls, ev);
      past := past + [World()];
      calls := calls + [ev];
    }

    // ------------------------------------------------------------- connections

    method Connect() returns (c: Conn)
      requires Valid()
      modifies this
      ensures Valid() && calls == old(calls) + [Event.Connect]
      ensures World() == Step(old(World()), Event.Connect) && c == old(minted)
    {
      ghost var before := World();
      c := minted;
      live, minted := live + {c}, minted + 1;
      Record(before, Event.Connect);
    }

    /** One statement by connection `c`: take the writer, then run it. */
    method Execute(c: Conn, stmt: Stmt) returns (ok: bool)
      requires Valid() && c in live
      modifies this
      ensures Valid() && calls == old(calls) + [Run(c, stmt)]
      ensures World() == Step(old(World()), Run(c, stmt)) && ok == RunStmt(Acquire(old(World()), c), stmt).1
    {
      Holds();
      ghost var before := World();
      Isolation.AcquireKeeps(before, c);
      TakeWriter(c);
      match stmt {
        case DoBegin => ok := Begin();
        case DoCommit(durable) => ok := Commit(durable);
        case DoRollback => ok := Rollback();
        case DoMutate(e) => ok := Mutate(e);
        case DoRead => ok := Read();
        case DoFail =>
          SpoilOwn();
          ok := false;
      }
      Record(before, Run(c, stmt));
    }

    /** A thread dies holding the writer. */
    method Die(c: Conn)
      requires Valid() && c in live
      modifies this
      ensures Valid() && calls == old(calls) + [Unwind(c)] && World() == Step(old(World()), Unwind(c))
    {
      ghost var before := World();
      TakeWriter(c);
      var _ := Rollback();
      Record(before, Unwind(c));
    }

    method TakeWriter(c: Conn)
      modifies this`tables, this`txn, this`owner
      ensures Now() == Acquire(old(World()), c)
    {
      if txn.Some? && txn.value.owner != c && txn.value.owner !in live {
        Reap();
      }
      if owner != c { owner := c; }
    }

    method Close(c: Conn, prompt: bool)
      requires Valid() && c in live
      modifies this
      ensures Valid() && calls == old(calls) + [Drop(c, prompt)] && World() == Step(old(World()), Drop(c, prompt))
    {
      ghost var before := World();
      if prompt && txn.Some? && txn.value.owner == c {
        Reap();
      }
      live := live - {c};
      Record(before, Drop(c, prompt));
    }

    // ------------------------------------------------------ transaction control

    method Begin() returns (ok: bool)
      modifies this`txn
      ensures (Now(), ok) == S.Begin(old(Now()))
    {
      if txn.Some? {
        if txn.value.owner == owner { txn := Some(txn.value.(poisoned := true)); }
        return false;
      }
      txn := Some(Txn(owner, [], false));
      return true;
    }

    /** Roll back every enlisted table and forget the transaction. */
    method Reap()
      modifies this`tables, this`txn
      ensures Now() == Discard(old(Now()))
    {
      if txn.None? { return; }
      var roster := txn.value.tables;
      ghost var before := tables;
      txn := None;
      TouchNone(before, roster, RollbackTable);
      for i := 0 to |roster|
        invariant txn == None && tables == Touch(before, Named(roster[..i]), RollbackTable)
      {
        TouchNext(before, roster, i, RollbackTable);
        var p := roster[i].path;
        if p in tables { tables := tables[p := RollbackTable(tables[p])]; }
      }
      assert roster[..|roster|] == roster;
    }

    method Rollback() returns (ok: bool)
      modifies this`tables, this`txn
      ensures (Now(), ok) == S.Rollback(old(Now()))
    {
      if txn.None? || txn.value.owner != owner { return false; }
      Reap();
      return true;
    }

    /** Flush every overlay, make the logs durable (`durable` is how that went),
    then publish every table; on any failure roll the whole thing back. */
    method Commit(durable: bool) returns (ok: bool)
      modifies this`tables, this`txn
      ensures (Now(), ok) == S.Commit(old(Now()), durable)
    {
      if txn.None? || txn.value.owner != owner { return false; }
      if txn.value.poisoned || !durable {
        Reap();
        return false;
      }
      var roster := txn.value.tables;
      FlushOverlays(roster);
      ghost var flushed := tables;
      TouchNone(flushed, roster, CommitTable);
      for i := 0 to |roster|
        invariant tables == Touch(flushed, Named(roster[..i]), CommitTable)
      {
        TouchNext(flushed, roster, i, CommitTable);
        var p := roster[i].path;
        if p in tables { tables := tables[p := CommitTable(tables[p])]; }
      }
      assert roster[..|roster|] == roster;
      txn := None;
      return true;
    }

    method FlushOverlays(roster: seq<Enlisted>)
      modifies this`tables
      ensures tables == FlushThese(old(tables), Named(roster))
    {
      FlushTwice();
      TouchNone(tables, roster, Flush);
      for i := 0 to |roster|
        invariant tables == Touch(old(tables), Named(roster[..i]), Flush)
      {
        TouchNext(old(tables), roster, i, Flush);
        var p := roster[i].path;
        if p in tables { tables := tables[p := Flush(tables[p])]; }
      }
      assert roster[..|roster|] == roster;
    }

    // --------------------------------------------------------------- statements

    method Enlist(path: Path, opens: bool) returns (ok: bool)
      requires txn.Some? && path in tables
      modifies this`tables, this`txn
      ensures (Now(), ok) == S.Enlist(old(Now()), path, opens)
    {
      var roster := txn.value.tables;
      for i := 0 to |roster|
        invariant Now() == old(Now()) && path !in Named(roster[..i])
      {
        NamedPrefix(roster, i);
        if roster[i].path == path {
          assert path in Named(roster);
          return true;
        }
      }
      assert roster[..|roster|] == roster;
      for i := 0 to |roster|
        invariant Now() == old(Now()) && !AnyFold(roster[..i])
      {
        if roster[i].fold { return false; }
      }
      if tables[path].view.Some? { return false; }
      tables := tables[path := BeginTable(tables[path])];
      if !opens { return false; }
      txn := Some(txn.value.(tables := roster + [Enlisted(path, false)]));
      return true;
    }

    /** A statement failed: the open transaction is spoiled if it is ours. */
    method SpoilOwn()
      modifies this`txn
      ensures Now() == Poison(old(Now()))
    {
      if txn.Some? && txn.value.owner == owner { txn := Some(txn.value.(poisoned := true)); }
    }

    /** Enlist, write, and mark the fold if rows were hidden that no record
    names. */
    method WriteInTxn(e: Effect) returns (ok: bool)
      requires txn.Some? && e.path in tables && Inv(Now())
      modifies this`tables, this`txn
      ensures (Now(), ok) == S.WriteInTxn(old(Now()), e)
    {
      Isolation.EnlistKeeps(Now(), e.path, e.opens);
      ok := Enlist(e.path, e.opens);
      if !ok {
        SpoilOwn();
        return false;
      }
      tables := tables[e.path := Buffer(tables[e.path], Signed(owner, e.batch))];
      if e.fails {
        SpoilOwn();
        return false;
      }
      if e.dark {
        ok := MarkFold(e.path);
        if !ok { SpoilOwn(); }
      }
    }

    /** A statement that changes rows, in the open transaction or in one it opens.
    Accepted, it has added exactly its batch to what its connection sees of its
    table -- outside a transaction, to what is committed -- and nothing else. */
    method Mutate(e: Effect) returns (ok: bool)
      requires Inv(Now())
      modifies this`tables, this`txn
      ensures (Now(), ok) == S.Mutate(old(Now()), e)
      ensures ok && !old(LeaksOutside(e)) ==> Accepted.Wrote(old(Now()), Now(), e)
    {
      MutateSays(Now(), e);
      if txn.Some? && (txn.value.owner != owner || txn.value.poisoned) { return false; }
      if e.path !in tables {
        SpoilOwn();
        return false;
      }
      if txn.Some? {
        ok := WriteInTxn(e);
        return;
      }
      if !e.dark && |e.batch| <= 1 {
        if e.fails { return false; }
        tables := tables[e.path := Buffer(tables[e.path], Signed(owner, e.batch))];
        return true;
      }
      var _ := Begin();
      ok := WriteInTxn(e);
      if ok {
        ok := Commit(e.durable);
      } else {
        Reap();
      }
    }

    /** A read through the writer. */
    method Read() returns (ok: bool)
      modifies this`tables
      ensures (Now(), ok) == ReadHere(old(Now()))
    {
      if txn.Some? && (txn.value.owner != owner || txn.value.poisoned) { return false; }
      tables := FlushAll(tables);
      return true;
    }

    method MarkFold(path: Path) returns (ok: bool)
      requires txn.Some? && path in Named(txn.value.tables)
      requires NoDup(txn.value.tables)
      modifies this`txn
      ensures (Now(), ok) == S.MarkFold(old(Now()), path)
    {
      var roster := txn.value.tables;
      for i := 0 to |roster|
        invariant forall j :: 0 <= j < i ==> roster[j].path == path
      {
        if roster[i].path != path { return false; }
      }
      Isolation.AloneIfAllEqual(roster, path);
      var last := |roster| - 1;
      txn := Some(txn.value.(tables := roster[last := roster[last].(fold := true)]));
      assert txn.value.tables == SetFold(roster, path);
      return true;
    }

    /** No transaction is open and the table's view has leaked. */
    predicate LeaksOutside(e: Effect)
      reads this
    {
      txn.None? && e.path in tables && tables[e.path].view.Some?
    }

    // ------------------------------------------------------------------ readers

    /** A reader's first try, under the shared lock: an answer, a refusal, or
    `None` to try again under the writer's. */
    method ReadShared() returns (r: Option<Option<map<Path, seq<Write>>>>)
      requires Valid()
      ensures r == SharedQuery(Now())
      ensures r.Some? ==> (r.value.None? <==> AnyInTxn(tables))
      ensures r.Some? && r.value.Some? ==> r.value.value == CommittedAll(tables)
    {
      Holds();
      Isolation.ReaderSeesCommitted(Now());
      if !AnyPending(tables) || AnyInTxn(tables) { return Some(Gate(tables)); }
      return None;
    }

    /** A reader's second try; other connections may have run since its first. */
    method ReadExclusive() returns (rows: Option<map<Path, seq<Write>>>)
      requires Valid()
      modifies this
      ensures Valid() && calls == old(calls) + [Retry] && CommittedAll(tables) == old(CommittedAll(tables))
      ensures rows.None? <==> old(AnyInTxn(tables))
      ensures rows.Some? ==> rows.value == CommittedAll(tables)
    {
      Holds();
      ghost var before := World();
      Isolation.ReaderSeesCommitted(Now());
      tables := FlushAll(tables);
      rows := Gate(tables);
      Record(before, Retry);
    }
  }
}
