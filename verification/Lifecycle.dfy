/** Folding, compaction and restart keep the invariant; and the theorems about
whole runs. */
module Lifecycle {
  import opened Storage
  import opened Log
  import opened Disk
  import opened Machine
  import opened Recovery
  import opened Appending
  import opened Trimming
  import opened Rolling
  import opened Preservation
  import opened TwoPhase
  import opened Commits

  // -------------------------------------------------------------------- folding

  lemma {:induction false} RollMidFold(d: Disk, acked: Tables, t: TableId)
    requires Quiet(d, acked) && t in d && !Forgets(d, t)
    ensures MidFold(Roll(d, t), t, acked)
  {
    var d' := Roll(d, t);
    RollWf(d, t);
    RollStable(d, t);
    RollAgrees(acked, d, t);
    assert WfHome(d[t]);
    RollWfHome(d, t);
  }

  lemma {:induction false} RollKeeps(s: Sys)
    requires Inv(s) && CanRoll(s) && !Forgets(s.disk, s.pc.ft)
    ensures Inv(DoRoll(s))
  {
    RollMidFold(s.disk, s.acked, s.pc.ft);
  }

  lemma {:induction false} WriteQuiet(d: Disk, acked: Tables, t: TableId, c: Contents)
    requires MidFold(d, t, acked)
    ensures Quiet(CommitParts(d, t, c), acked[t := c])
  {
    var d' := CommitParts(d, t, c);
    CommitWf(d, t, c);
    CommitStable(d, t, c);
    CommitAgrees(acked, d, t, c);
  }

  lemma {:induction false} WriteTableKeeps(s: Sys, c: Contents)
    requires Inv(s) && CanWriteTable(s, c)
    ensures Inv(DoWriteTable(s, c))
  {
    var t := s.pc.ft;
    WriteQuiet(s.disk, s.acked, t, c);
    assert s.mem[t := c] == s.acked[t := c];
  }

  lemma {:induction false} StartFoldKeeps(s: Sys, t: TableId)
    requires Inv(s) && Quiescent(s) && t in s.disk && t in s.mem
    ensures Inv(DoStartFold(s, t))
  {
    assert s.mem == s.acked[t := s.mem[t]];
  }

  lemma {:induction false} CompactQuiet(d: Disk, acked: Tables, t: TableId, c: Contents)
    requires Quiet(d, acked) && t in d
    requires SameRows(acked[t], c)
    requires c.Unkeyed? ==> forall k :: k in c.cited ==> k in acked[t].cited && acked[t].cited[k] == c.cited[k]
    ensures Quiet(d, acked[t := c])
  {
    forall u | u in d.Keys ensures Agree(acked[t := c][u], Recovered(d, u)) {}
  }

  lemma {:induction false} CompactKeeps(s: Sys, t: TableId, c: Contents)
    requires Inv(s) && CanCompact(s, t, c)
    ensures Inv(DoCompact(s, t, c))
  {
    CompactQuiet(s.disk, s.acked, t, c);
  }

  // -------------------------------------------------------------------- restart

  /** What a crash leaves of a well-formed log is well formed. */
  lemma {:induction false} ImageWf(d: Disk, img: Disk, t: TableId)
    requires WfDisk(d) && CrashImage(d, img) && t in d
    ensures WfHome(img[t])
    ensures forall i :: img[t].mark <= i < |img[t].wal.recs| && img[t].wal.recs[i].Prepare? ==> img[t].wal.recs[i].coord != t
  {
    assert WfHome(d[t]) && CitesOld(d, t) && Survives(d[t], img[t]);
    forall i | 0 <= i < |img[t].wal.recs| ensures img[t].wal.recs[i] == d[t].wal.recs[i] {}
  }

  /** A well-formed disk the image could have come from. */
  lemma {:induction false} Origin(s: Sys, img: Disk) returns (d: Disk)
    requires Inv(s) && CrashImage(s.disk, img)
    ensures WfDisk(d) && CrashImage(d, img)
  {
    d := s.disk;
    if s.pc.Appended? {
      var t := s.pc.at;
      LastRecordImage(s.disk, t, img);
      d := if |img[t].wal.recs| < |s.disk[t].wal.recs| then DropLast(s.disk, t) else Fsync(s.disk, t);
    }
  }

  lemma {:induction false} ReopenWf(h: Home)
    requires WfHome(h)
    ensures WfHome(h.(wal := Reopen(h.wal)))
  {
    var w := h.wal;
    forall i | 0 <= i < |w.recs| && !w.recs[i].Plain? ensures w.recs[i].group < Reopen(w).nextSeq {
      if i >= w.origin { assert w.recs[i] == Segment(w)[i - w.origin]; }
    }
  }

  function Reopened(img: Disk): Disk { map t | t in img.Keys :: img[t].(wal := Reopen(img[t].wal)) }

  lemma {:induction false} ReopenedWf(d: Disk, img: Disk)
    requires WfDisk(d) && CrashImage(d, img)
    ensures WfDisk(Reopened(img))
  {
    var d' := Reopened(img);
    forall t | t in d'.Keys ensures WfHome(d'[t]) && CitesOld(d', t) {
      ImageWf(d, img, t);
      ReopenWf(img[t]);
      assert WfHome(d[t]) && CitesOld(d, t) && Survives(d[t], img[t]);
    }
  }

  lemma {:induction false} ReopenedStable(d: Disk, img: Disk)
    requires CrashImage(d, img)
    ensures Stable(Reopened(img))
  {
    var d' := Reopened(img);
    forall t | t in d'.Keys ensures AllInert(Decided(d'), Unsynced(d'[t].wal)) {
      assert Survives(d[t], img[t]);
    }
  }

  lemma {:induction false} ReopenedAgrees(img: Disk, back: Tables)
    requires back == map t | t in img.Keys :: Recovered(img, t)
    ensures Agrees(back, Reopened(img))
  {
    var d' := Reopened(img);
    DecidedSame(img, d');
    forall t | t in d'.Keys ensures Agree(back[t], Recovered(d', t)) {
      RecoveredAlike(img, d', t);
      AgreeSelf(back[t]);
    }
  }

  lemma {:induction false} ReopenQuiet(d: Disk, img: Disk, back: Tables)
    requires WfDisk(d) && CrashImage(d, img)
    requires back == map t | t in img.Keys :: Recovered(img, t)
    ensures Quiet(Reopened(img), back)
  {
    ReopenedWf(d, img);
    ReopenedStable(d, img);
    ReopenedAgrees(img, back);
  }

  lemma {:induction false} RestartKeeps(s: Sys, img: Disk)
    requires Inv(s) && CrashImage(s.disk, img)
    ensures Inv(DoRestart(img))
  {
    var d := Origin(s, img);
    assert DoRestart(img).disk == Reopened(img);
    ReopenQuiet(d, img, DoRestart(img).acked);
  }

  // ----------------------------------------------------------------- whole runs

  /** Inserts outside any transaction. */
  predicate Autocommits(ev: Event) {
    ev.LogInsert? || ev.Sync? || ev.Publish? || ev.UniqueStage? || ev.UniqueAccept? || ev.UniqueRefuse? || ev.UniqueMark?
  }

  /** A transaction up to its end, short of COMMIT. */
  predicate Transacts(ev: Event) {
    ev.Begin? || ev.Enlist? || ev.Stage? || ev.Sweep? || ev.Poison? || ev.Rollback?
  }

  predicate CommitsOrAborts(ev: Event) {
    ev.StartCommit? || ev.PrepareNext? || ev.Barrier? || ev.Abort? || ev.DecideAll? || ev.Undo?
  }

  lemma {:induction false} AutocommitKeeps(s: Sys, ev: Event)
    requires Inv(s) && Enabled(s, ev) && Autocommits(ev)
    ensures Inv(Step(s, ev))
  {
    match ev
    case LogInsert(t, b) => LogInsertKeeps(s, t, b);
    case Sync => SyncKeeps(s);
    case Publish => PublishKeeps(s);
    case UniqueStage(t, b) => UniqueStageKeeps(s, t, b);
    case UniqueAccept => UniqueAcceptKeeps(s);
    case UniqueRefuse(erased) => UniqueRefuseKeeps(s, erased);
    case UniqueMark => UniqueMarkKeeps(s);
  }

  lemma {:induction false} TransactionKeeps(s: Sys, ev: Event)
    requires Inv(s) && Enabled(s, ev) && Transacts(ev)
    ensures Inv(Step(s, ev))
  {
    match ev
    case Begin => BeginTxnKeeps(s);
    case Enlist(t) => EnlistKeeps(s, t);
    case Stage(t, op) => StageKeeps(s, t, op);
    case Sweep(t, ids, dark) => SweepKeeps(s, t, ids, dark);
    case Poison => PoisonKeeps(s);
    case Rollback(rewound) => RollbackKeeps(s, rewound);
  }

  lemma {:induction false} CommitKeeps(s: Sys, ev: Event)
    requires Inv(s) && Enabled(s, ev) && CommitsOrAborts(ev)
    ensures Inv(Step(s, ev))
  {
    match ev
    case StartCommit => StartCommitKeeps(s);
    case PrepareNext => PrepareKeeps(s);
    case Barrier(t) => BarrierKeeps(s, t);
    case Abort(rewound) => AbortKeeps(s, rewound);
    case DecideAll => DecideKeeps(s);
    case Undo(rewound) => UndoKeeps(s, rewound);
  }

  lemma {:induction false} MaintenanceKeeps(s: Sys, ev: Event)
    requires Inv(s) && Enabled(s, ev) && !Autocommits(ev) && !Transacts(ev) && !CommitsOrAborts(ev)
    ensures Inv(Step(s, ev))
  {
    match ev
    case StartFold(t) => StartFoldKeeps(s, t);
    case RollLog => RollKeeps(s);
    case WriteTable(c) => WriteTableKeeps(s, c);
    case Compact(t, c) => CompactKeeps(s, t, c);
    case Restart(img) => RestartKeeps(s, img);
  }

  lemma {:induction false} StepKeeps(s: Sys, ev: Event)
    requires Inv(s) && Enabled(s, ev)
    ensures Inv(Step(s, ev))
  {
    if Autocommits(ev) {
      AutocommitKeeps(s, ev);
    } else if Transacts(ev) {
      TransactionKeeps(s, ev);
    } else if CommitsOrAborts(ev) {
      CommitKeeps(s, ev);
    } else {
      MaintenanceKeeps(s, ev);
    }
  }

  /** A database whose tables are checkpointed and whose logs are empty. */
  ghost predicate Init(s: Sys) {
    && s.disk.Keys == s.mem.Keys == s.acked.Keys
    && (forall t :: t in s.disk.Keys ==> s.disk[t] == Home(Wal([], 0, 0, 0, 0, 0), s.acked[t], 0))
    && s.mem == s.acked && s.txn.NoTxn? && s.pc.Idle?
  }

  lemma {:induction false} InitInv(s: Sys)
    requires Init(s)
    ensures Inv(s)
  {
    forall t | t in s.disk.Keys ensures Agree(s.acked[t], Recovered(s.disk, t)) {
      assert Uncovered(s.disk[t]) == [];
      AgreeSelf(s.acked[t]);
    }
    forall t | t in s.disk.Keys ensures AllInert(Decided(s.disk), Unsynced(s.disk[t].wal)) {}
  }

  /** A run: `states[0]` is initial and each event leads to the next state. */
  ghost predicate IsRun(states: seq<Sys>, events: seq<Event>) {
    && |states| == |events| + 1
    && Init(states[0])
    && forall i {:trigger events[i]} :: 0 <= i < |events| ==> IsStep(states[i], events[i], states[i + 1])
  }

  ghost predicate IsStep(s: Sys, ev: Event, s': Sys) { Enabled(s, ev) && s' == Step(s, ev) }

  lemma {:induction false} RunNext(states: seq<Sys>, events: seq<Event>, ev: Event)
    requires IsRun(states, events) && Enabled(states[|events|], ev)
    ensures var next := Step(states[|events|], ev);
      IsRun(states + [next], events + [ev]) && (states + [next])[|events + [ev]|] == next
  {
    var states', events' := states + [Step(states[|events|], ev)], events + [ev];
    forall i | 0 <= i < |events'| ensures IsStep(states'[i], events'[i], states'[i + 1]) {
      if i < |events| { assert IsStep(states[i], events[i], states[i + 1]); }
    }
  }

  lemma {:induction false} RunInv(states: seq<Sys>, events: seq<Event>, i: nat)
    requires IsRun(states, events) && i < |states|
    ensures Inv(states[i])
  {
    if i == 0 {
      InitInv(states[0]);
    } else {
      RunInv(states, events, i - 1);
      assert IsStep(states[i - 1], events[i - 1], states[i]);
      StepKeeps(states[i - 1], events[i - 1]);
    }
  }

  /** Crash safety over whole runs: at every point of every run, whatever a
  crash leaves of each log, recovery yields the acknowledged contents of all
  tables, or -- only while a commit point is in flight -- the contents the
  commit would publish, for all tables together. */
  lemma {:induction false} RecoveryRefinesMemory(states: seq<Sys>, events: seq<Event>, i: nat, img: Disk)
    requires IsRun(states, events) && i < |states| && CrashImage(states[i].disk, img)
    ensures Outcome(states[i], img)
  {
    RunInv(states, events, i);
    CrashOutcome(states[i], img);
  }

  /** COMMIT is atomic across tables: a crash while it prepares or waits for
  barriers yields none of the transaction, one while its commit point is in
  flight all or none, one after the commit point is synced all of it. */
  lemma {:induction false} CommitIsAtomic(states: seq<Sys>, events: seq<Event>, i: nat, img: Disk)
    requires IsRun(states, events) && i < |states| && CrashImage(states[i].disk, img) && states[i].txn.Open?
    ensures var s := states[i]; var next := NextOf(s.acked, s.txn.t);
      match s.pc
      case Appended(_, _) => Agrees(s.acked, img) || Agrees(next, img)
      case Synced(_) => Agrees(next, img)
      case _ => Agrees(s.acked, img)
  {
    RunInv(states, events, i);
    CrashOutcome(states[i], img);
  }

  /** A decision is only ever appended once every participant's prepare is on
  the platter. */
  lemma {:induction false} DecisionAfterPrepares(states: seq<Sys>, events: seq<Event>, i: nat, k: nat)
    requires IsRun(states, events) && i < |events| && events[i] == DecideAll
    requires k + 1 < |states[i].txn.t.order|
    ensures var x := states[i].txn.t; var t := x.order[k];
      && t in states[i].disk && t in x.info
      && states[i].disk[t].wal.durable == |states[i].disk[t].wal.recs|
      && Prepare(x.info[t].group, Coordinator(x), x.info[Coordinator(x)].group) in states[i].disk[t].wal.recs
  {
    RunInv(states, events, i);
    var s := states[i];
    assert IsStep(s, events[i], states[i + 1]);
    PreparedRecord(s.disk, s.txn.t, k);
  }

  lemma {:induction false} PreparedRecord(d: Disk, x: Txn, k: nat)
    requires k + 1 < |x.order| && Committing(d, x, Participants(x))
    ensures var t := x.order[k];
      && t in d && t in x.info && Coordinator(x) in x.info
      && Prepare(x.info[t].group, Coordinator(x), x.info[Coordinator(x)].group) in d[t].wal.recs
  {
    var t, c := x.order[k], Coordinator(x);
    assert t in x.order && c in x.order;
    assert t in x.info.Keys && c in x.info.Keys && t != c;
    assert EnlistedOk(d, x, t, Participants(x));
    assert d[t].wal.recs[|d[t].wal.recs| - 1] == Prepare(x.info[t].group, c, x.info[c].group);
  }
}
