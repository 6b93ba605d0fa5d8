/** One shared session, many connections: who may write into a transaction, who
may end it, and what a reader may see. */
module Session {
  import opened Basics

  type Path = string
  type Conn = nat

  /** One accepted mutation and the connection that ran it. */
  datatype Write = Write(author: Conn, what: int)

  /** A table as the sequence of mutations it has absorbed: the published parts,
  the open transaction's private view of them, and the write buffer. */
  datatype Table = Table(parts: seq<Write>, view: Option<seq<Write>>, delta: seq<Write>)

  datatype Enlisted = Enlisted(path: Path, fold: bool)
  datatype Txn = Txn(owner: Conn, tables: seq<Enlisted>, poisoned: bool)

  type Catalog = map<Path, Table>

  /** The session's fields: `owner` is the connection holding the writer. */
  datatype State = State(tables: Catalog, txn: Option<Txn>, owner: Conn)

  // -------------------------------------------------------------------- tables

  /** Drain the buffer into the private view if there is one, else publish. */
  function Flush(t: Table): Table {
    match t.view
    case Some(v) => t.(view := Some(v + t.delta), delta := [])
    case None => t.(parts := t.parts + t.delta, delta := [])
  }

  function BeginTable(t: Table): Table { var f := Flush(t); f.(view := Some(f.parts)) }
  function CommitTable(t: Table): Table { if t.view.Some? then t.(parts := t.view.value, view := None) else t }
  function RollbackTable(t: Table): Table { if t.view.Some? then t.(view := None, delta := []) else t }
  function Buffer(t: Table, ws: seq<Write>): Table { t.(delta := t.delta + ws) }

  /** A statement's rows, stamped with the connection that ran it. */
  function Signed(c: Conn, batch: seq<int>): seq<Write> {
    seq(|batch|, i requires 0 <= i < |batch| => Write(c, batch[i]))
  }

  /** What is committed: a buffered write is, unless a transaction is open on
  the table and the buffer is the transaction's. */
  function Committed(t: Table): seq<Write> { if t.view.Some? then t.parts else t.parts + t.delta }

  function CommittedAll(c: Catalog): map<Path, seq<Write>> { map p | p in c.Keys :: Committed(c[p]) }

  function FlushAll(c: Catalog): Catalog { map p | p in c.Keys :: Flush(c[p]) }

  function Named(tables: seq<Enlisted>): set<Path> { set i | 0 <= i < |tables| :: tables[i].path }

  /** Apply `f` to the tables named, leave the others. */
  function Touch(c: Catalog, ps: set<Path>, f: Table -> Table): Catalog {
    map p | p in c.Keys :: if p in ps then f(c[p]) else c[p]
  }

  function FlushThese(c: Catalog, ps: set<Path>): Catalog { Touch(c, ps, Flush) }
  function CommitThese(c: Catalog, ps: set<Path>): Catalog { Touch(c, ps, CommitTable) }
  function RollbackThese(c: Catalog, ps: set<Path>): Catalog { Touch(c, ps, RollbackTable) }

  // -------------------------------------------------------- the session's methods

  predicate Foreign(s: State) { s.txn.Some? && s.txn.value.owner != s.owner }

  /** A failed statement spoils its own connection's transaction, never another's. */
  function Poison(s: State): State {
    if s.txn.Some? && !Foreign(s) then s.(txn := Some(s.txn.value.(poisoned := true))) else s
  }

  function Discard(s: State): State {
    if s.txn.None? then s
    else s.(tables := RollbackThese(s.tables, Named(s.txn.value.tables)), txn := None)
  }

  /** BEGIN: refused inside an open transaction, and poisons it if it is ours. */
  function Begin(s: State): (State, bool) {
    if s.txn.Some? then (Poison(s), false)
    else (s.(txn := Some(Txn(s.owner, [], false))), true)
  }

  /** COMMIT, with the outcome of its durable half given. */
  function Commit(s: State, durable: bool): (State, bool) {
    if s.txn.None? || Foreign(s) then (s, false)
    else if s.txn.value.poisoned || !durable then (Discard(s), false)
    else
      var ps := Named(s.txn.value.tables);
      (s.(tables := CommitThese(FlushThese(s.tables, ps), ps), txn := None), true)
  }

  function Rollback(s: State): (State, bool) {
    if s.txn.None? || Foreign(s) then (s, false) else (Discard(s), true)
  }

  predicate AnyFold(tables: seq<Enlisted>) { exists i :: 0 <= i < |tables| && tables[i].fold }

  /** The first write to a table enlists it.  Its private view is attached before
  its log is opened, and only a table whose log `opens` reaches the roster. */
  function Enlist(s: State, path: Path, opens: bool): (State, bool)
    requires s.txn.Some? && path in s.tables
  {
    var x := s.txn.value;
    if path in Named(x.tables) then (s, true)
    else if AnyFold(x.tables) || s.tables[path].view.Some? then (s, false)
    else
      var s1 := s.(tables := s.tables[path := BeginTable(s.tables[path])]);
      if opens then (s1.(txn := Some(x.(tables := x.tables + [Enlisted(path, false)]))), true) else (s1, false)
  }

  function SetFold(tables: seq<Enlisted>, path: Path): seq<Enlisted> {
    seq(|tables|, i requires 0 <= i < |tables| =>
      if tables[i].path == path then tables[i].(fold := true) else tables[i])
  }

  /** The statement hid rows no log record can name: the table must fold, which
  is refused as long as any other table is enlisted. */
  function MarkFold(s: State, path: Path): (State, bool)
    requires s.txn.Some?
  {
    var x := s.txn.value;
    if exists i :: 0 <= i < |x.tables| && x.tables[i].path != path then (s, false)
    else (s.(txn := Some(x.(tables := SetFold(x.tables, path)))), true)
  }

  /** What a statement that changes rows turns out to do: the rows it writes,
  whether it hid rows no record can name, whether it fails after writing,
  whether its COMMIT reaches the disk, and whether its table's log opens. */
  datatype Effect = Effect(path: Path, batch: seq<int>, dark: bool, fails: bool, durable: bool, opens: bool)

  /** A mutation inside an open transaction this connection may write to; any
  failure poisons it. */
  function WriteInTxn(s: State, e: Effect): (State, bool)
    requires s.txn.Some? && e.path in s.tables
  {
    var (s1, enlisted) := Enlist(s, e.path, e.opens);
    if !enlisted then (Poison(s1), false)
    else
      var s2 := s1.(tables := s1.tables[e.path := Buffer(s1.tables[e.path], Signed(s.owner, e.batch))]);
      if e.fails then (Poison(s2), false)
      else if !e.dark then (s2, true)
      else
        var (s3, alone) := MarkFold(s2, e.path);
        if alone then (s3, true) else (Poison(s2), false)
  }

  /** INSERT, DELETE or UPDATE.  Outside a transaction an insert of one block
  goes straight to the buffer or fails whole; anything else is wrapped in a
  transaction of its own. */
  function Mutate(s: State, e: Effect): (State, bool) {
    if Foreign(s) || (s.txn.Some? && s.txn.value.poisoned) then (s, false)
    else if e.path !in s.tables then (Poison(s), false)
    else if s.txn.Some? then WriteInTxn(s, e)
    else if !e.dark && |e.batch| <= 1 then
      if e.fails then (s, false)
      else (s.(tables := s.tables[e.path := Buffer(s.tables[e.path], Signed(s.owner, e.batch))]), true)
    else
      var (s1, ok) := WriteInTxn(Begin(s).0, e);
      if ok then Commit(s1, e.durable) else (Discard(s1), false)
  }

  /** A read through the writer: flush, answer, change nothing. */
  function ReadHere(s: State): (State, bool) {
    if Foreign(s) || (s.txn.Some? && s.txn.value.poisoned) then (s, false)
    else (s.(tables := FlushAll(s.tables)), true)
  }

  // ------------------------------------------------------------ connections, readers

  /** `live` are the connections whose handle still exists; identities are
  minted in order and never reused. */
  datatype Db = Db(s: State, live: set<Conn>, minted: nat)

  /** Taking the writer: sweep an orphan, then stamp this connection. */
  function Acquire(d: Db, c: Conn): State {
    var s := d.s;
    var swept := if s.txn.Some? && s.txn.value.owner != c && s.txn.value.owner !in d.live then Discard(s) else s;
    swept.(owner := c)
  }

  predicate AnyInTxn(c: Catalog) { exists p :: p in c.Keys && c[p].view.Some? }
  predicate AnyPending(c: Catalog) { exists p :: p in c.Keys && c[p].delta != [] }

  /** The gate every row-reading statement of a `Reader` passes: refuse while a
  transaction is open on any table or rows are still buffered, else read the
  published parts. */
  function Gate(c: Catalog): Option<map<Path, seq<Write>>> {
    if AnyInTxn(c) || AnyPending(c) then None else Some(map p | p in c.Keys :: c[p].parts)
  }

  /** First try, under the shared lock; `None` outside means "take the writer
  lock and try again". */
  function SharedQuery(s: State): Option<Option<map<Path, seq<Write>>>> {
    if !AnyPending(s.tables) || AnyInTxn(s.tables) then Some(Gate(s.tables)) else None
  }

  /** Second try, under the exclusive lock; other connections may have run in
  between, so the flush is unconditional and the gate decides afterwards. */
  function ExclusiveQuery(s: State): (State, Option<map<Path, seq<Write>>>) {
    var s1 := s.(tables := FlushAll(s.tables));
    (s1, Gate(s1.tables))
  }

  datatype Stmt =
    | DoBegin
    | DoCommit(durable: bool)
    | DoRollback
    | DoMutate(effect: Effect)
    | DoRead
    | DoFail // a statement that fails before it changes anything

  datatype Event =
    | Connect
    | Run(c: Conn, stmt: Stmt)
    | Drop(c: Conn, prompt: bool) // `prompt`: the drop could take the writer lock
    | Unwind(c: Conn)             // a thread dies holding the writer
    | Retry                       // a reader's second try

  function RunStmt(s: State, stmt: Stmt): (State, bool) {
    match stmt
    case DoBegin => Begin(s)
    case DoCommit(durable) => Commit(s, durable)
    case DoRollback => Rollback(s)
    case DoMutate(e) => Mutate(s, e)
    case DoRead => ReadHere(s)
    case DoFail => (Poison(s), false)
  }

  predicate Enabled(d: Db, ev: Event) {
    match ev
    case Run(c, _) => c in d.live
    case Drop(c, _) => c in d.live
    case Unwind(c) => c in d.live
    case _ => true
  }

  function Step(d: Db, ev: Event): Db {
    match ev
    case Connect => d.(live := d.live + {d.minted}, minted := d.minted + 1)
    case Run(c, stmt) => d.(s := RunStmt(Acquire(d, c), stmt).0)
    case Drop(c, prompt) =>
      Db(if prompt && d.s.txn.Some? && d.s.txn.value.owner == c then Discard(d.s) else d.s, d.live - {c}, d.minted)
    case Unwind(c) => d.(s := Rollback(Acquire(d, c)).0)
    case Retry => d.(s := ExclusiveQuery(d.s).0)
  }

  // ------------------------------------------------------------------- invariant

  predicate NoDup(tables: seq<Enlisted>) {
    forall i, j :: 0 <= i < j < |tables| ==> tables[i].path != tables[j].path
  }

  /** `v` is `base` followed by writes of connection `c` only. */
  predicate Extends(base: seq<Write>, v: seq<Write>, c: Conn) {
    base <= v && forall i :: |base| <= i < |v| ==> v[i].author == c
  }

  /** An enlisted table's private state holds its committed part followed by
  the owner's own writes. */
  predicate Private(t: Table, c: Conn) { t.view.Some? && Extends(t.parts, t.view.value + t.delta, c) }

  predicate TxnOk(c: Catalog, x: Txn) {
    && NoDup(x.tables)
    && Named(x.tables) <= c.Keys
    && (AnyFold(x.tables) ==> |x.tables| == 1)
    && forall p :: p in Named(x.tables) ==> Private(c[p], x.owner)
  }

  predicate Inv(s: State) { s.txn.Some? ==> TxnOk(s.tables, s.txn.value) }
}
