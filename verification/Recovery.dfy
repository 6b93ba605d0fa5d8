/** What holds between the machine's steps, and what a crash there yields. */
module Recovery {
  import opened Storage
  import opened Log
  import opened Disk
  import opened Machine

  // ------------------------------------------------------------- quiet and not

  /** Nothing is in flight: whatever a crash loses, recovery yields `c`. */
  ghost predicate Quiet(d: Disk, c: Tables) {
    WfDisk(d) && Stable(d) && Agrees(c, d)
  }

  function DropLast(d: Disk, t: TableId): Disk
    requires t in d && |d[t].wal.recs| > 0
  {
    SetWal(d, t, d[t].wal.(recs := d[t].wal.recs[..|d[t].wal.recs| - 1]))
  }

  /** One record decides: without it recovery yields `prior`, with it `next`. */
  ghost predicate OnTheEdge(d: Disk, t: TableId, prior: Tables, next: Tables) {
    && t in d && |d[t].wal.recs| > d[t].wal.durable
    && Quiet(DropLast(d, t), prior)
    && Quiet(Fsync(d, t), next)
  }

  /** The log of `t` is rolled and its table file is not written yet. */
  ghost predicate MidFold(d: Disk, t: TableId, c: Tables) {
    && WfDisk(d) && Stable(d) && Agrees(c, d) && t in d
    && |d[t].wal.recs| == d[t].wal.origin + d[t].wal.carry
  }

  lemma {:induction false} CrashQuiet(d: Disk, c: Tables, img: Disk)
    requires Quiet(d, c) && CrashImage(d, img)
    ensures Agrees(c, img)
  {
    StableCrashAgrees(c, d, img);
  }

  /** A crash either loses a log's last, unsynced record or keeps it. */
  lemma {:induction false} LastRecordImage(d: Disk, t: TableId, img: Disk)
    requires CrashImage(d, img) && t in d && |d[t].wal.recs| > d[t].wal.durable
    ensures |img[t].wal.recs| < |d[t].wal.recs| ==> CrashImage(DropLast(d, t), img)
    ensures |img[t].wal.recs| == |d[t].wal.recs| ==> CrashImage(Fsync(d, t), img)
    ensures |img[t].wal.recs| <= |d[t].wal.recs|
  {
    var r, n := d[t].wal.recs, |img[t].wal.recs|;
    assert Survives(d[t], img[t]);
    if n < |r| {
      var d0 := DropLast(d, t);
      assert r[..|r| - 1][..n] == r[..n];
      forall u | u in d0.Keys ensures Survives(d0[u], img[u]) { assert Survives(d[u], img[u]); }
    } else {
      var d1 := Fsync(d, t);
      forall u | u in d1.Keys ensures Survives(d1[u], img[u]) { assert Survives(d[u], img[u]); }
    }
  }

  /** At a commit point a crash yields all of the old contents or all of the
  new ones. */
  lemma {:induction false} CrashOnTheEdge(d: Disk, t: TableId, prior: Tables, next: Tables, img: Disk)
    requires OnTheEdge(d, t, prior, next) && CrashImage(d, img)
    ensures Agrees(prior, img) || Agrees(next, img)
  {
    LastRecordImage(d, t, img);
    if |img[t].wal.recs| < |d[t].wal.recs| {
      CrashQuiet(DropLast(d, t), prior, img);
    } else {
      CrashQuiet(Fsync(d, t), next, img);
    }
  }

  // --------------------------------------------------------------- transactions

  predicate NoDup(order: seq<TableId>) {
    forall i, j :: 0 <= i < j < |order| ==> order[i] != order[j]
  }

  /** The log ends in exactly the group staged since `lsn`, then `tail`; the
  group's number occurs nowhere before. */
  predicate GroupAt(h: Home, g: nat, lsn: nat, staged: seq<Op>, tail: seq<Entry>) {
    var w := h.wal;
    && lsn <= |w.recs|
    && w.recs[lsn..] == Group(g, staged) + tail
    && w.origin + w.carry <= lsn && h.mark <= lsn
    && g < w.nextSeq
    && forall i :: 0 <= i < lsn && !w.recs[i].Plain? ==> w.recs[i].group != g
  }

  function TailOf(x: Txn, t: TableId, prepared: set<TableId>): seq<Entry>
    requires t in x.info
  {
    if t in prepared && x.order != [] && Coordinator(x) in x.info
    then [Prepare(x.info[t].group, Coordinator(x), x.info[Coordinator(x)].group)]
    else []
  }

  predicate CitesGroup(e: Entry, t: TableId, g: nat) { e.Prepare? && e.coord == t && e.cseq == g }

  /** No unsynced record from before the transaction cites group `g` of `t`. */
  predicate Uncited(d: Disk, x: Txn, t: TableId, g: nat) {
    forall u, i :: u in d.Keys && d[u].wal.durable <= i < |d[u].wal.recs| && (u in x.info ==> i < x.info[u].lsn)
      ==> !CitesGroup(d[u].wal.recs[i], t, g)
  }

  predicate EnlistedOk(d: Disk, x: Txn, t: TableId, prepared: set<TableId>)
    requires t in d && t in x.info
  {
    var e := x.info[t];
    && GroupAt(d[t], e.group, e.lsn, e.staged, TailOf(x, t, prepared))
    && Uncited(d, x, t, e.group)
    && (e.fold ==> x.info.Keys == {t})
  }

  ghost predicate Roster(d: Disk, x: Txn) {
    && NoDup(x.order)
    && (forall t :: t in x.info.Keys <==> t in x.order)
    && x.info.Keys <= d.Keys
  }

  ghost predicate TxnShape(d: Disk, x: Txn, prepared: set<TableId>) {
    Roster(d, x) && forall t {:trigger EnlistedOk(d, x, t, prepared)} :: t in x.info.Keys ==> EnlistedOk(d, x, t, prepared)
  }

  /** A table's private view is the recovered table plus what was staged. */
  ghost predicate ViewOk(d: Disk, x: Txn, t: TableId)
    requires t in d && t in x.info
  {
    !x.info[t].fold ==> Agree(x.info[t].view, ApplyAll(x.info[t].staged, Recovered(d, t)))
  }

  ghost predicate ViewsOk(d: Disk, x: Txn) {
    !x.poisoned ==> x.info.Keys <= d.Keys && forall t {:trigger ViewOk(d, x, t)} :: t in x.info.Keys ==> ViewOk(d, x, t)
  }

  ghost predicate Committing(d: Disk, x: Txn, prepared: set<TableId>) {
    && |x.order| >= 2 && !x.poisoned
    && TxnShape(d, x, prepared) && ViewsOk(d, x)
    && (forall t :: t in x.info.Keys ==> !x.info[t].fold)
  }

  function Firsts(x: Txn, k: nat): set<TableId>
    requires k <= |x.order|
  {
    set i | 0 <= i < k :: x.order[i]
  }

  function Participants(x: Txn): set<TableId>
    requires x.order != []
  {
    x.info.Keys - {Coordinator(x)}
  }

  predicate BarriersDone(d: Disk, done: set<TableId>) {
    forall t :: t in done ==> t in d && d[t].wal.durable == |d[t].wal.recs|
  }

  // ------------------------------------------------------------------ invariant

  ghost predicate InTxn(d: Disk, acked: Tables, x: Txn) {
    Quiet(d, acked) && TxnShape(d, x, {}) && ViewsOk(d, x)
  }

  /** The first `k` tables are prepared. */
  ghost predicate PreparedTo(d: Disk, acked: Tables, x: Txn, k: nat) {
    k + 1 < |x.order| && Quiet(d, acked) && Committing(d, x, Firsts(x, k))
  }

  /** Every participant is prepared, and those in `done` durably. */
  ghost predicate AllPrepared(d: Disk, acked: Tables, x: Txn, done: set<TableId>) {
    x.order != [] && Quiet(d, acked) && Committing(d, x, Participants(x)) && BarriersDone(d, done)
  }

  /** The commit point of a transaction: a lone table's marker, or the decision
  every prepare cites. */
  function CommitPoint(x: Txn): Entry
    requires x.order != [] && Coordinator(x) in x.info
  {
    var g := x.info[Coordinator(x)].group;
    if |x.order| == 1 then Entry.Commit(g) else Decide(g)
  }

  /** The coordinator's log ends in the transaction's commit point, which
  revived nothing. */
  ghost predicate Marked(d: Disk, x: Txn, t: TableId) {
    && x.order != [] && t == Coordinator(x) && t in x.info
    && t in d && |d[t].wal.recs| > 0 && TxnShape(DropLast(d, t), x, Participants(x))
    && d[t].wal.recs[|d[t].wal.recs| - 1] == CommitPoint(x)
    && (|x.order| >= 2 ==> !Revives(DropLast(d, t), x))
  }

  ghost predicate Inv(s: Sys) {
    && s.disk.Keys == s.mem.Keys == s.acked.Keys
    && match s.pc
       case Idle =>
         Quiet(s.disk, s.acked) && s.mem == s.acked && (s.txn.Open? ==> InTxn(s.disk, s.acked, s.txn.t))
       case Appended(t, next) =>
         OnTheEdge(s.disk, t, s.acked, next)
         && (s.txn.Open? ==> next == NextOf(s.acked, s.txn.t) && s.mem == s.acked && Marked(s.disk, s.txn.t, t))
       case Synced(next) => Quiet(s.disk, next) && (s.txn.Open? ==> next == NextOf(s.acked, s.txn.t))
       case UniqueStaged(t, g, lsn, block) =>
         Quiet(s.disk, s.acked) && s.mem == s.acked && s.txn.NoTxn?
         && t in s.disk && GroupAt(s.disk[t], g, lsn, [Insert(block)], [])
       case UniqueApplied(t, g, lsn, block) =>
         Quiet(s.disk, s.acked) && s.txn.NoTxn?
         && t in s.disk && GroupAt(s.disk[t], g, lsn, [Insert(block)], [])
         && s.mem == s.acked[t := Apply(Insert(block), s.acked[t])]
       case Preparing(k) => s.mem == s.acked && s.txn.Open? && PreparedTo(s.disk, s.acked, s.txn.t, k)
       case Barriers(done) => s.mem == s.acked && s.txn.Open? && AllPrepared(s.disk, s.acked, s.txn.t, done)
       case Folding(t) => Quiet(s.disk, s.acked) && s.txn.NoTxn? && t in s.disk && s.mem == s.acked[t := s.mem[t]]
       case Rolled(t) => MidFold(s.disk, t, s.acked) && s.txn.NoTxn? && s.mem == s.acked[t := s.mem[t]]
  }

  /** What recovering `img` may yield.  Between operations it is exactly what
  was acknowledged, which is what memory holds; while a commit point is in
  flight it is wholly the old contents or wholly the new ones, over every table
  at once; once that commit point is synced it is the new ones. */
  ghost predicate Outcome(s: Sys, img: Disk) {
    match s.pc
    case Idle => Agrees(s.acked, img) && s.mem == s.acked
    case Appended(_, next) => Agrees(s.acked, img) || Agrees(next, img)
    case Synced(next) => Agrees(next, img)
    case _ => Agrees(s.acked, img)
  }

  lemma {:induction false} CrashOutcome(s: Sys, img: Disk)
    requires Inv(s) && CrashImage(s.disk, img)
    ensures Outcome(s, img)
  {
    match s.pc
    case Appended(t, next) => CrashOnTheEdge(s.disk, t, s.acked, next, img);
    case Synced(next) => CrashQuiet(s.disk, next, img);
    case Rolled(_) => StableCrashAgrees(s.acked, s.disk, img);
    case _ => CrashQuiet(s.disk, s.acked, img);
  }
}
