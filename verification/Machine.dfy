/** The engine as a state machine over its I/O steps: autocommit inserts,
UNIQUE inserts, transactions with two-phase commit, folding a log into parts,
compaction, and crash and restart. */
module Machine {
  import opened Storage
  import opened Log
  import opened Disk

  /** One table a transaction has written to: its staging group, the log
  position it was enlisted at, the mutations staged since, the private view
  and whether COMMIT must write the parts out instead of a marker. */
  datatype Enlisted = Enlisted(group: nat, lsn: nat, staged: seq<Op>, view: Contents, fold: bool)

  /** `order` is the order of enlistment; the last table coordinates. */
  datatype Txn = Txn(order: seq<TableId>, info: map<TableId, Enlisted>, poisoned: bool)

  datatype MaybeTxn = NoTxn | Open(t: Txn)

  type Tables = map<TableId, Contents>

  /** Where the single writer is between two I/O operations. */
  datatype Pc =
    | Idle
    | Appended(at: TableId, next: Tables)      // commit point written, not yet synced
    | Synced(next: Tables)                     // durable, not yet published
    | UniqueStaged(ut: TableId, ug: nat, ulsn: nat, block: seq<Row>)
    | UniqueApplied(ut: TableId, ug: nat, ulsn: nat, block: seq<Row>)
    | Preparing(k: nat)                        // the first k prepares are appended
    | Barriers(done: set<TableId>)             // whose barrier has returned
    | Folding(ft: TableId)                     // about to roll the log
    | Rolled(ft: TableId)                      // rolled; the table file is still the old one

  /** `mem` is the committed in-memory contents; `acked` is what clients have
  been told is committed. */
  datatype Sys = Sys(disk: Disk, mem: Tables, acked: Tables, txn: MaybeTxn, pc: Pc)

  datatype Event =
    | LogInsert(t: TableId, block: seq<Row>)
    | Sync
    | Publish
    | UniqueStage(t: TableId, block: seq<Row>)
    | UniqueAccept
    | UniqueRefuse(erased: bool)
    | UniqueMark
    | Begin
    | Enlist(t: TableId)
    | Stage(t: TableId, op: Op)
    | Sweep(t: TableId, ids: set<Id>, dark: multiset<Row>)
    | Poison
    | Rollback(rewound: set<TableId>)
    | StartCommit
    | PrepareNext
    | Barrier(t: TableId)
    | Abort(rewound: set<TableId>)
    | DecideAll
    | Undo(rewound: set<TableId>)
    | StartFold(t: TableId)
    | RollLog
    | WriteTable(settled: Contents)
    | Compact(t: TableId, merged: Contents)
    | Restart(img: Disk)

  // ------------------------------------------------------------------ helpers

  function Coordinator(x: Txn): TableId
    requires x.order != []
  {
    x.order[|x.order| - 1]
  }

  /** The views a commit publishes over what is acknowledged. */
  function NextOf(acked: Tables, x: Txn): Tables {
    map t | t in acked.Keys :: if t in x.info then x.info[t].view else acked[t]
  }

  /** Rewind every log in `ts` to where its table was enlisted. */
  function RewindAll(d: Disk, x: Txn, ts: set<TableId>): Disk {
    map t | t in d.Keys :: if t in ts && t in x.info then Rewind(d, t, x.info[t].lsn)[t] else d[t]
  }

  /** A checkpoint or a merge regroups rows without changing which there are. */
  ghost predicate SameRows(a: Contents, b: Contents) { (a.Keyed? <==> b.Keyed?) && Logical(a) == Logical(b) }

  predicate KeysFresh(c: Contents, block: seq<Row>) {
    c.Keyed? ==>
      && (forall i :: 0 <= i < |block| ==> block[i].key !in c.rows)
      && (forall i, j :: 0 <= i < j < |block| ==> block[i].key != block[j].key)
  }

  predicate Quiescent(s: Sys) { s.pc.Idle? && s.txn.NoTxn? }

  /** An open transaction that may still take statements. */
  predicate Healthy(s: Sys) { s.pc.Idle? && s.txn.Open? && !s.txn.t.poisoned }

  // --------------------------------------------------------- autocommit inserts

  predicate CanLogInsert(s: Sys, t: TableId) { Quiescent(s) && t in s.disk && t in s.acked }

  function DoLogInsert(s: Sys, t: TableId, block: seq<Row>): Sys
    requires CanLogInsert(s, t)
  {
    s.(disk := Append(s.disk, t, Plain(Insert(block))),
       pc := Appended(t, s.acked[t := Apply(Insert(block), s.acked[t])]))
  }

  predicate CanSync(s: Sys) { s.pc.Appended? && s.pc.at in s.disk }

  function DoSync(s: Sys): Sys
    requires CanSync(s)
  {
    s.(disk := Fsync(s.disk, s.pc.at), pc := Synced(s.pc.next))
  }

  function DoPublish(s: Sys): Sys
    requires s.pc.Synced?
  {
    s.(mem := s.pc.next, acked := s.pc.next, txn := NoTxn, pc := Idle)
  }

  // ------------------------------------------------------------- UNIQUE inserts

  function DoUniqueStage(s: Sys, t: TableId, block: seq<Row>): Sys
    requires CanLogInsert(s, t)
  {
    var g, lsn := s.disk[t].wal.nextSeq, |s.disk[t].wal.recs|;
    s.(disk := Append(BeginGroup(s.disk, t), t, Staged(g, Insert(block))), pc := UniqueStaged(t, g, lsn, block))
  }

  /** The key check runs against memory and may refuse. */
  predicate CanUniqueAccept(s: Sys) {
    s.pc.UniqueStaged? && s.pc.ut in s.mem && KeysFresh(s.mem[s.pc.ut], s.pc.block)
  }

  function DoUniqueAccept(s: Sys): Sys
    requires CanUniqueAccept(s)
  {
    s.(mem := s.mem[s.pc.ut := Apply(Insert(s.pc.block), s.mem[s.pc.ut])],
       pc := UniqueApplied(s.pc.ut, s.pc.ug, s.pc.ulsn, s.pc.block))
  }

  predicate CanUniqueRefuse(s: Sys) { s.pc.UniqueStaged? && s.pc.ut in s.disk }

  /** A repeated key, or any other failure of the insert.  Erasing the refused
  record is best effort. */
  function DoUniqueRefuse(s: Sys, erased: bool): Sys
    requires CanUniqueRefuse(s)
  {
    s.(disk := if erased then Rewind(s.disk, s.pc.ut, s.pc.ulsn) else s.disk, pc := Idle)
  }

  predicate CanUniqueMark(s: Sys) { s.pc.UniqueApplied? && s.pc.ut in s.disk && s.pc.ut in s.acked }

  function DoUniqueMark(s: Sys): Sys
    requires CanUniqueMark(s)
  {
    s.(disk := Append(s.disk, s.pc.ut, Entry.Commit(s.pc.ug)),
       pc := Appended(s.pc.ut, s.acked[s.pc.ut := Apply(Insert(s.pc.block), s.acked[s.pc.ut])]))
  }

  // --------------------------------------------------------------- transactions

  function DoBegin(s: Sys): Sys
    requires Quiescent(s)
  {
    s.(txn := Open(Txn([], map[], false)))
  }

  predicate CanEnlist(s: Sys, t: TableId) {
    Healthy(s) && t in s.disk && t in s.mem && t !in s.txn.t.info
    && forall u :: u in s.txn.t.info.Keys ==> !s.txn.t.info[u].fold
  }

  function DoEnlist(s: Sys, t: TableId): Sys
    requires CanEnlist(s, t)
  {
    var x := s.txn.t;
    var e := Enlisted(s.disk[t].wal.nextSeq, |s.disk[t].wal.recs|, [], s.mem[t], false);
    s.(disk := BeginGroup(s.disk, t), txn := Open(x.(order := x.order + [t], info := x.info[t := e])))
  }

  predicate CanStage(s: Sys, t: TableId, op: Op) {
    Healthy(s) && t in s.disk && t in s.txn.t.info && Loggable(op, s.txn.t.info[t].view)
  }

  function DoStage(s: Sys, t: TableId, op: Op): Sys
    requires CanStage(s, t, op)
  {
    var x := s.txn.t;
    var e := x.info[t];
    s.(disk := Append(s.disk, t, Staged(e.group, op)),
       txn := Open(x.(info := x.info[t := e.(staged := e.staged + [op], view := Apply(op, e.view))])))
  }

  /** A sweep that hides some rows no record can name. */
  predicate CanSweep(s: Sys, t: TableId, ids: set<Id>, dark: multiset<Row>) {
    Healthy(s) && t in s.disk && t in s.txn.t.info && s.txn.t.info[t].view.Unkeyed?
    && ids <= s.txn.t.info[t].view.cited.Keys && dark <= s.txn.t.info[t].view.dark && dark != multiset{}
  }

  /** The rows with a durable identity are logged, the others hidden in memory
  only: the table must fold, alone in its transaction, or the statement fails
  and poisons it. */
  function DoSweep(s: Sys, t: TableId, ids: set<Id>, dark: multiset<Row>): Sys
    requires CanSweep(s, t, ids, dark)
  {
    var x := s.txn.t;
    var e := x.info[t];
    var view := Unkeyed(e.view.cited - ids, e.view.dark - dark);
    var alone := x.info.Keys == {t};
    var logged := if ids == {} then [] else [Mask(ids)];
    s.(disk := if ids == {} then s.disk else Append(s.disk, t, Staged(e.group, Mask(ids))),
       txn := Open(x.(info := x.info[t := e.(staged := e.staged + logged, view := view, fold := e.fold || alone)],
                      poisoned := !alone)))
  }

  function DoPoison(s: Sys): Sys
    requires s.pc.Idle? && s.txn.Open?
  {
    s.(txn := Open(s.txn.t.(poisoned := true)))
  }

  /** A log whose rewind failed keeps its dead bytes. */
  function DoRollback(s: Sys, rewound: set<TableId>): Sys
    requires s.pc.Idle? && s.txn.Open?
  {
    s.(disk := RewindAll(s.disk, s.txn.t, rewound), txn := NoTxn)
  }

  predicate CanStartCommit(s: Sys) {
    Healthy(s)
    && (forall t :: t in s.txn.t.info.Keys ==> t in s.disk)
    && (forall i :: 0 <= i < |s.txn.t.order| ==> s.txn.t.order[i] in s.txn.t.info)
  }

  function DoStartCommit(s: Sys): Sys
    requires CanStartCommit(s)
  {
    var x := s.txn.t;
    if x.order == [] then s.(txn := NoTxn)
    else
      var c := Coordinator(x);
      if x.info[c].fold then s.(mem := s.mem[c := x.info[c].view], txn := NoTxn, pc := Folding(c))
      else if |x.order| == 1 then
        s.(disk := Append(s.disk, c, Entry.Commit(x.info[c].group)), pc := Appended(c, NextOf(s.acked, x)))
      else s.(pc := Preparing(0))
  }

  predicate CanPrepare(s: Sys) {
    s.pc.Preparing? && s.txn.Open? && s.pc.k + 1 < |s.txn.t.order|
    && s.txn.t.order[s.pc.k] in s.disk && s.txn.t.order[s.pc.k] in s.txn.t.info
    && Coordinator(s.txn.t) in s.txn.t.info
  }

  function DoPrepare(s: Sys): Sys
    requires CanPrepare(s)
  {
    var x := s.txn.t;
    var t, c := x.order[s.pc.k], Coordinator(x);
    s.(disk := Append(s.disk, t, Prepare(x.info[t].group, c, x.info[c].group)),
       pc := if s.pc.k + 2 == |x.order| then Barriers({}) else Preparing(s.pc.k + 1))
  }

  /** Barriers return in any order. */
  predicate CanBarrier(s: Sys, t: TableId) {
    s.pc.Barriers? && s.txn.Open? && s.txn.t.order != [] && t in s.txn.t.order && t in s.disk
    && t != Coordinator(s.txn.t)
  }

  function DoBarrier(s: Sys, t: TableId): Sys
    requires CanBarrier(s, t)
  {
    s.(disk := Fsync(s.disk, t), pc := Barriers(s.pc.done + {t}))
  }

  /** A prepare or a barrier failed: no decision is written, and the logs in
  `rewound` are rewound; one whose rewind failed, or that a crash left no time
  for, keeps its dead bytes. */
  predicate CanAbort(s: Sys) { (s.pc.Preparing? || s.pc.Barriers?) && s.txn.Open? }

  function DoAbort(s: Sys, rewound: set<TableId>): Sys
    requires CanAbort(s)
  {
    s.(disk := RewindAll(s.disk, s.txn.t, rewound), txn := NoTxn, pc := Idle)
  }

  predicate CanDecide(s: Sys) {
    s.pc.Barriers? && s.txn.Open? && s.txn.t.order != []
    && Coordinator(s.txn.t) in s.disk && Coordinator(s.txn.t) in s.txn.t.info
    && forall i :: 0 <= i < |s.txn.t.order| - 1 ==> s.txn.t.order[i] in s.pc.done
  }

  /** What is still to be replayed of log `u` from before the transaction. */
  function Older(d: Disk, x: Txn, u: TableId): seq<Entry>
    requires u in d
  {
    var h := d[u];
    if u in x.info && h.mark <= x.info[u].lsn <= |h.wal.recs| then h.wal.recs[h.mark..x.info[u].lsn] else Uncovered(h)
  }

  /** Deciding `x` would release a record some earlier transaction staged. */
  predicate Revives(d: Disk, x: Txn)
    requires x.order != [] && Coordinator(x) in x.info
  {
    exists u :: u in d.Keys && RevivesIn(d, x, u)
  }

  predicate RevivesIn(d: Disk, x: Txn, u: TableId)
    requires x.order != [] && Coordinator(x) in x.info && u in d
  {
    var c := Coordinator(x);
    !SameFate(Decided(d), Decided(d) + {(c, x.info[c].group)}, Older(d, x, u))
  }

  function DoDecide(s: Sys): Sys
    requires CanDecide(s)
  {
    var c := Coordinator(s.txn.t);
    s.(disk := Append(s.disk, c, Decide(s.txn.t.info[c].group)), pc := Appended(c, NextOf(s.acked, s.txn.t)))
  }

  /** The final sync failed and the logs in `rewound` were rewound, the
  coordinator's with its commit point among them. */
  predicate CanUndo(s: Sys, rewound: set<TableId>) { s.pc.Appended? && s.txn.Open? && s.pc.at in rewound }

  function DoUndo(s: Sys, rewound: set<TableId>): Sys
    requires CanUndo(s, rewound)
  {
    s.(disk := RewindAll(s.disk, s.txn.t, rewound), txn := NoTxn, pc := Idle)
  }

  // -------------------------------------------------------------------- folding

  function DoStartFold(s: Sys, t: TableId): Sys
    requires Quiescent(s) && t in s.disk && t in s.mem
  {
    s.(pc := Folding(t))
  }

  predicate CanRoll(s: Sys) { s.pc.Folding? && s.pc.ft in s.disk }

  /** The roll of `t` publishes a successor without carrying its decisions. */
  predicate DropsDecisions(d: Disk, t: TableId)
    requires t in d
  {
    RollWal(d, t) != d[t].wal && !MayBeCited(d, t)
  }

  /** The decisions that are not log `t`'s. */
  function Without(dec: Decisions, t: TableId): Decisions { set p | p in dec && p.0 != t }

  /** Some log still has to replay a record only a decision of `t` releases. */
  predicate StillNeeded(d: Disk, t: TableId) { exists u :: u in d.Keys && NeededBy(d, t, u) }

  predicate NeededBy(d: Disk, t: TableId, u: TableId)
    requires u in d
  {
    !SameFate(Without(Decided(d), t), Decided(d), Uncovered(d[u]))
  }

  /** Rolling `t` would take a decision away from a record that needs it. */
  predicate Forgets(d: Disk, t: TableId)
    requires t in d
  {
    DropsDecisions(d, t) && StillNeeded(d, t)
  }

  function Roll(d: Disk, t: TableId): Disk
    requires t in d
  {
    SetWal(d, t, RollWal(d, t))
  }

  function DoRoll(s: Sys): Sys
    requires CanRoll(s)
  {
    s.(disk := Roll(s.disk, s.pc.ft), pc := Rolled(s.pc.ft))
  }

  /** The commit record: parts `c`, covering the log up to its active segment. */
  function CommitParts(d: Disk, t: TableId, c: Contents): Disk
    requires t in d
  {
    d[t := d[t].(parts := c, mark := d[t].wal.origin)]
  }

  /** Every row gets a durable identity; the rows are those memory holds. */
  ghost predicate CanWriteTable(s: Sys, c: Contents) {
    s.pc.Rolled? && s.pc.ft in s.disk && s.pc.ft in s.mem && SameRows(s.mem[s.pc.ft], c)
    && (c.Unkeyed? ==> c.dark == multiset{})
  }

  function DoWriteTable(s: Sys, c: Contents): Sys
    requires s.pc.Rolled? && s.pc.ft in s.disk
  {
    var t := s.pc.ft;
    s.(disk := CommitParts(s.disk, t, c), mem := s.mem[t := c], acked := s.acked[t := c], pc := Idle)
  }

  /** A merged part has no file, so its rows lose their durable identity. */
  ghost predicate CanCompact(s: Sys, t: TableId, c: Contents) {
    Quiescent(s) && t in s.mem && SameRows(s.mem[t], c)
    && (c.Unkeyed? ==> forall k :: k in c.cited ==> k in s.mem[t].cited && s.mem[t].cited[k] == c.cited[k])
  }

  function DoCompact(s: Sys, t: TableId, c: Contents): Sys {
    s.(mem := s.mem[t := c], acked := s.acked[t := c])
  }

  // ---------------------------------------------------------------- crash, open

  function DoRestart(img: Disk): Sys {
    var d := map t | t in img.Keys :: img[t].(wal := Reopen(img[t].wal));
    var back := map t | t in img.Keys :: Recovered(img, t);
    Sys(d, back, back, NoTxn, Idle)
  }

  // ------------------------------------------------------------------ the machine

  ghost predicate Enabled(s: Sys, ev: Event) {
    match ev
    case LogInsert(t, _) => CanLogInsert(s, t)
    case Sync => CanSync(s)
    case Publish => s.pc.Synced?
    case UniqueStage(t, _) => CanLogInsert(s, t)
    case UniqueAccept => CanUniqueAccept(s)
    case UniqueRefuse(_) => CanUniqueRefuse(s)
    case UniqueMark => CanUniqueMark(s)
    case Begin => Quiescent(s)
    case Enlist(t) => CanEnlist(s, t)
    case Stage(t, op) => CanStage(s, t, op)
    case Sweep(t, ids, dark) => CanSweep(s, t, ids, dark)
    case Poison => s.pc.Idle? && s.txn.Open?
    case Rollback(_) => s.pc.Idle? && s.txn.Open?
    case StartCommit => CanStartCommit(s)
    case PrepareNext => CanPrepare(s)
    case Barrier(t) => CanBarrier(s, t)
    case Abort(_) => CanAbort(s)
    case DecideAll => CanDecide(s) && !Revives(s.disk, s.txn.t)
    case Undo(rewound) => CanUndo(s, rewound)
    case StartFold(t) => Quiescent(s) && t in s.disk && t in s.mem
    case RollLog => CanRoll(s) && !Forgets(s.disk, s.pc.ft)
    case WriteTable(c) => CanWriteTable(s, c)
    case Compact(t, c) => CanCompact(s, t, c)
    case Restart(img) => CrashImage(s.disk, img)
  }

  ghost function Step(s: Sys, ev: Event): Sys
    requires Enabled(s, ev)
  {
    match ev
    case LogInsert(t, b) => DoLogInsert(s, t, b)
    case Sync => DoSync(s)
    case Publish => DoPublish(s)
    case UniqueStage(t, b) => DoUniqueStage(s, t, b)
    case UniqueAccept => DoUniqueAccept(s)
    case UniqueRefuse(erased) => DoUniqueRefuse(s, erased)
    case UniqueMark => DoUniqueMark(s)
    case Begin => DoBegin(s)
    case Enlist(t) => DoEnlist(s, t)
    case Stage(t, op) => DoStage(s, t, op)
    case Sweep(t, ids, dark) => DoSweep(s, t, ids, dark)
    case Poison => DoPoison(s)
    case Rollback(rewound) => DoRollback(s, rewound)
    case StartCommit => DoStartCommit(s)
    case PrepareNext => DoPrepare(s)
    case Barrier(t) => DoBarrier(s, t)
    case Abort(rewound) => DoAbort(s, rewound)
    case DecideAll => DoDecide(s)
    case Undo(rewound) => DoUndo(s, rewound)
    case StartFold(t) => DoStartFold(s, t)
    case RollLog => DoRoll(s)
    case WriteTable(c) => DoWriteTable(s, c)
    case Compact(t, c) => DoCompact(s, t, c)
    case Restart(img) => DoRestart(img)
  }
}
