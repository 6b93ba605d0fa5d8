/** Two-phase commit: prepares, barriers in any order, one decision. */
module Commits {
  import opened Storage
  import opened Log
  import opened Disk
  import opened Machine
  import opened Recovery
  import opened Appending
  import opened Trimming
  import opened Preservation
  import opened TwoPhase

  // -------------------------------------------------------------------- prepare

  lemma {:induction false} FirstsGrow(x: Txn, k: nat, v: TableId)
    requires k < |x.order|
    ensures v in Firsts(x, k + 1) <==> v in Firsts(x, k) || v == x.order[k]
  {
  }

  lemma {:induction false} FirstsAreParticipants(d: Disk, x: Txn)
    requires Roster(d, x) && |x.order| >= 1
    ensures Firsts(x, |x.order| - 1) == Participants(x)
  {
    var n := |x.order| - 1;
    forall v ensures v in Firsts(x, n) <==> v in Participants(x) {
      if v in Firsts(x, n) {
        var i :| 0 <= i < n && x.order[i] == v;
        assert v in x.order && v in x.info.Keys;
      }
      if v in Participants(x) {
        assert v in x.order;
        var i :| 0 <= i < |x.order| && x.order[i] == v;
        assert i < n;
      }
    }
  }

  /** The prepare of the k-th table: its own log ends in group and prepare, and
  nobody else's changes. */
  lemma {:induction false} PrepareShape(d: Disk, x: Txn, k: nat)
    requires k + 1 < |x.order| && TxnShape(d, x, Firsts(x, k))
    ensures x.order[k] in x.info && Coordinator(x) in x.info && x.order[k] in d
    ensures var t, c := x.order[k], Coordinator(x);
      TxnShape(Append(d, t, Prepare(x.info[t].group, c, x.info[c].group)), x, Firsts(x, k + 1))
  {
    var t, c := x.order[k], Coordinator(x);
    assert t in x.order && c in x.order;
    assert t in x.info.Keys && c in x.info.Keys;
    var e := Prepare(x.info[t].group, c, x.info[c].group);
    var d' := Append(d, t, e);
    assert t !in Firsts(x, k);
    forall v | v in x.info.Keys ensures EnlistedOk(d', x, v, Firsts(x, k + 1)) {
      FirstsGrow(x, k, v);
      FirstsGrow(x, k, t);
      assert EnlistedOk(d, x, v, Firsts(x, k)) && EnlistedOk(d, x, t, Firsts(x, k));
      if v == t {
        var g := Group(x.info[t].group, x.info[t].staged);
        assert g + [] + [e] == g + [e];
        SelfEnlisted(d, x, Firsts(x, k), t, e, x, Firsts(x, k + 1));
      } else {
        OthersEnlisted(d, x, Firsts(x, k), t, e, x, Firsts(x, k + 1), v);
      }
    }
  }

  lemma {:induction false} PrepareQuiet(d: Disk, acked: Tables, x: Txn, k: nat)
    requires k + 1 < |x.order| && Quiet(d, acked) && TxnShape(d, x, Firsts(x, k))
    requires x.order[k] in x.info && Coordinator(x) in x.info && x.order[k] in d
    ensures var t, c := x.order[k], Coordinator(x);
      var e := Prepare(x.info[t].group, c, x.info[c].group);
      Inert(Decided(d), e) && Appendable(d, t, e) && Quiet(Append(d, t, e), acked)
  {
    var t, c := x.order[k], Coordinator(x);
    var e := Prepare(x.info[t].group, c, x.info[c].group);
    NotAmongFirsts(x, k);
    assert EnlistedOk(d, x, c, Firsts(x, k)) && EnlistedOk(d, x, t, Firsts(x, k));
    OpenUndecided(d, c, x.info[c].group, x.info[c].lsn, x.info[c].staged, []);
    InertQuiet(d, acked, t, e);
  }

  /** Views are relative to what recovery yields, which an inert record does not
  change. */
  lemma {:induction false} InertViews(d: Disk, x: Txn, t: TableId, e: Entry)
    requires WfDisk(d) && t in d && Inert(Decided(d), e) && ViewsOk(d, x)
    ensures ViewsOk(Append(d, t, e), x)
  {
    if !x.poisoned {
      forall v | v in x.info.Keys
        ensures v in Append(d, t, e) && ViewOk(Append(d, t, e), x, v)
      {
        assert ViewOk(d, x, v);
        AppendInertAll(d, t, e, v);
      }
    }
  }

  lemma {:induction false} PrepareOne(d: Disk, acked: Tables, x: Txn, k: nat, t: TableId, e: Entry)
    requires PreparedTo(d, acked, x, k) && t == x.order[k] && t in d && t in x.info && Coordinator(x) in x.info
    requires e == Prepare(x.info[t].group, Coordinator(x), x.info[Coordinator(x)].group)
    ensures Quiet(Append(d, t, e), acked) && Committing(Append(d, t, e), x, Firsts(x, k + 1))
  {
    PrepareQuiet(d, acked, x, k);
    PrepareShape(d, x, k);
    InertViews(d, x, t, e);
  }

  lemma {:induction false} LastPrepare(d: Disk, acked: Tables, x: Txn, k: nat)
    requires k + 2 == |x.order| && Quiet(d, acked) && Committing(d, x, Firsts(x, k + 1))
    ensures AllPrepared(d, acked, x, {})
  {
    FirstsAreParticipants(d, x);
  }

  lemma {:induction false} PrepareKeeps(s: Sys)
    requires Inv(s) && CanPrepare(s)
    ensures Inv(DoPrepare(s))
  {
    var s', x, k := DoPrepare(s), s.txn.t, s.pc.k;
    var t, c := x.order[k], Coordinator(x);
    PrepareOne(s.disk, s.acked, x, k, t, Prepare(x.info[t].group, c, x.info[c].group));
    if k + 2 == |x.order| {
      LastPrepare(s'.disk, s.acked, x, k);
    } else {
      assert PreparedTo(s'.disk, s'.acked, x, k + 1);
    }
  }

  // -------------------------------------------------------------------- barriers

  lemma {:induction false} BarrierShape(d: Disk, x: Txn, prep: set<TableId>, t: TableId)
    requires TxnShape(d, x, prep) && t in d
    ensures TxnShape(Fsync(d, t), x, prep)
  {
    var d' := Fsync(d, t);
    forall v | v in x.info.Keys ensures EnlistedOk(d', x, v, prep) {
      assert EnlistedOk(d, x, v, prep);
      assert d'[v].wal.recs == d[v].wal.recs;
      forall u, i | u in d'.Keys && d'[u].wal.durable <= i < |d'[u].wal.recs| && (u in x.info ==> i < x.info[u].lsn)
        ensures !CitesGroup(d'[u].wal.recs[i], v, x.info[v].group)
      {
        assert d'[u].wal.recs == d[u].wal.recs;
      }
    }
  }

  lemma {:induction false} BarrierViews(d: Disk, x: Txn, t: TableId)
    requires t in d && ViewsOk(d, x)
    ensures ViewsOk(Fsync(d, t), x)
  {
    if !x.poisoned {
      forall v | v in x.info.Keys
        ensures v in Fsync(d, t) && ViewOk(Fsync(d, t), x, v)
      {
        assert ViewOk(d, x, v);
        FsyncRecovers(d, t, v);
      }
    }
  }

  lemma {:induction false} BarrierOne(d: Disk, acked: Tables, x: Txn, done: set<TableId>, t: TableId)
    requires AllPrepared(d, acked, x, done) && t in d
    ensures AllPrepared(Fsync(d, t), acked, x, done + {t})
  {
    FsyncQuiet(d, acked, t);
    BarrierShape(d, x, Participants(x), t);
    BarrierViews(d, x, t);
    OneMoreDone(d, done, t);
  }

  lemma {:induction false} OneMoreDone(d: Disk, done: set<TableId>, t: TableId)
    requires BarriersDone(d, done) && t in d
    ensures BarriersDone(Fsync(d, t), done + {t})
  {
  }

  lemma {:induction false} BarrierKeeps(s: Sys, t: TableId)
    requires Inv(s) && CanBarrier(s, t)
    ensures Inv(DoBarrier(s, t))
  {
    BarrierOne(s.disk, s.acked, s.txn.t, s.pc.done, t);
    assert AllPrepared(DoBarrier(s, t).disk, s.acked, s.txn.t, DoBarrier(s, t).pc.done);
  }

  // -------------------------------------------------------------------- decision

  /** No unsynced record waits for the decision: participants are synced and no
  other log cites it. */
  lemma {:induction false} NobodyWaits(d: Disk, x: Txn, prep: set<TableId>, u: TableId, i: nat)
    requires WfDisk(d) && TxnShape(d, x, prep) && x.order != [] && u in d && u != Coordinator(x)
    requires u in x.info ==> d[u].wal.durable == |d[u].wal.recs|
    requires d[u].wal.durable <= i < |d[u].wal.recs|
    ensures Coordinator(x) in x.info && !CitesGroup(d[u].wal.recs[i], Coordinator(x), x.info[Coordinator(x)].group)
  {
    var c := Coordinator(x);
    assert c in x.order && c in x.info.Keys;
    assert EnlistedOk(d, x, c, prep) && WfHome(d[u]);
  }

  /** What each log replays once the decision is in: the older records, with
  the decision among those they may cite, and the transaction's own. */
  lemma {:induction false} DecisionReplays(d: Disk, x: Txn, u: TableId)
    requires x.order != [] && WfDisk(d) && TxnShape(d, x, Participants(x)) && u in d
    requires Coordinator(x) in x.info && Coordinator(x) in d
    ensures var c := Coordinator(x); var g := x.info[c].group;
      && Replayed(d, u) == Survivors(Decided(d), Older(d, x, u))
      && Replayed(Append(d, c, Decide(g)), u)
         == Survivors(Decided(d) + {(c, g)}, Older(d, x, u)) + (if u in x.info then x.info[u].staged else [])
  {
    var c, prep := Coordinator(x), Participants(x);
    var g := x.info[c].group;
    assert WfHome(d[u]) && WfHome(d[c]);
    assert EnlistedOk(d, x, c, prep);
    AppendDecisions(d, c, Decide(g));
    if u == c {
      OwnOlder(d, x, c, g);
    } else if u in x.info {
      assert EnlistedOk(d, x, u, prep);
      var e := x.info[u];
      OpenUndecided(d, c, g, x.info[c].lsn, x.info[c].staged, []);
      DecisionReleases(d, c, g, u, e.group, e.lsn, e.staged);
    }
  }

  /** The coordinator never cites itself, so its older records come to the same
  with its decision as without. */
  lemma {:induction false} OwnOlder(d: Disk, x: Txn, c: TableId, g: nat)
    requires WfDisk(d) && c in d && c in x.info && g == x.info[c].group
    requires GroupAt(d[c], g, x.info[c].lsn, x.info[c].staged, [])
    ensures Replayed(d, c) == Survivors(Decided(d), Older(d, x, c)) == Survivors(Decided(d) + {(c, g)}, Older(d, x, c))
    ensures Replayed(Append(d, c, Decide(g)), c) == Replayed(d, c) + x.info[c].staged
  {
    assert CitesOld(d, c);
    var e, h := x.info[c], d[c];
    var pre := h.wal.recs[h.mark..e.lsn];
    MarkerReleases(d, c, Decide(g), g, e.lsn, e.staged);
    UncoveredAtGroup(h, g, e.lsn, e.staged, []);
    assert Group(g, e.staged) + [] == Group(g, e.staged);
    assert AllInert(Decided(d), Group(g, e.staged));
    InertSuffix(Decided(d), pre, Group(g, e.staged));
    forall i | 0 <= i < |pre| && pre[i].Prepare?
      ensures (pre[i].coord, pre[i].cseq) in Decided(d) <==> (pre[i].coord, pre[i].cseq) in Decided(d) + {(c, g)}
    {
      assert pre[i] == h.wal.recs[h.mark + i];
    }
    SurvivorsCongruent(Decided(d), Decided(d) + {(c, g)}, pre);
  }

  /** Log `u` replays what it did and then what the transaction staged there. */
  predicate AddsOwn(d: Disk, d': Disk, x: Txn, u: TableId)
    requires u in d && u in d'
  {
    Replayed(d', u) == Replayed(d, u) + (if u in x.info then x.info[u].staged else [])
  }

  lemma {:induction false} DecisionAddsIff(d: Disk, x: Txn, u: TableId)
    requires x.order != [] && WfDisk(d) && TxnShape(d, x, Participants(x)) && u in d
    requires Coordinator(x) in x.info && Coordinator(x) in d
    ensures AddsOwn(d, Append(d, Coordinator(x), Decide(x.info[Coordinator(x)].group)), x, u) <==> !RevivesIn(d, x, u)
  {
    DecisionReplays(d, x, u);
    var c := Coordinator(x);
    FateDecides(Decided(d), Decided(d) + {(c, x.info[c].group)}, Older(d, x, u));
  }

  /** Exactly when a decision is harmless: every log replays what it did and
  then the transaction's own records, if and only if the decision does not
  release an earlier transaction's. */
  lemma {:induction false} DecisionHarmlessIff(d: Disk, x: Txn)
    requires x.order != [] && WfDisk(d) && TxnShape(d, x, Participants(x))
    requires Coordinator(x) in x.info && Coordinator(x) in d
    ensures var d' := Append(d, Coordinator(x), Decide(x.info[Coordinator(x)].group));
      (forall u :: u in d.Keys ==> AddsOwn(d, d', x, u)) <==> !Revives(d, x)
  {
    var d' := Append(d, Coordinator(x), Decide(x.info[Coordinator(x)].group));
    forall u | u in d.Keys ensures AddsOwn(d, d', x, u) <==> !RevivesIn(d, x, u) {
      DecisionAddsIff(d, x, u);
    }
    if Revives(d, x) {
      var u :| u in d.Keys && RevivesIn(d, x, u);
      assert !AddsOwn(d, d', x, u);
    }
  }

  /** With the decision in, every enlisted table recovers to its view and every
  other one as before. */
  lemma {:induction false} DecisionYields(d: Disk, acked: Tables, x: Txn, u: TableId)
    requires x.order != [] && Quiet(d, acked) && Committing(d, x, Participants(x)) && u in d
    requires Coordinator(x) in x.info && Coordinator(x) in d && !Revives(d, x)
    ensures var d' := Append(d, Coordinator(x), Decide(x.info[Coordinator(x)].group));
      Agree(NextOf(acked, x)[u], Recovered(d', u))
  {
    DecisionAddsIff(d, x, u);
    assert !RevivesIn(d, x, u);
    if u in x.info { assert ViewOk(d, x, u); }
    AddedAgrees(d, Append(d, Coordinator(x), Decide(x.info[Coordinator(x)].group)), acked, x, u);
  }

  lemma {:induction false} AddedAgrees(d: Disk, d': Disk, acked: Tables, x: Txn, u: TableId)
    requires u in d && u in d' && u in acked && d'[u].parts == d[u].parts && AddsOwn(d, d', x, u)
    requires if u in x.info then !x.info[u].fold && ViewOk(d, x, u) else Agree(acked[u], Recovered(d, u))
    ensures Agree(NextOf(acked, x)[u], Recovered(d', u))
  {
    if u in x.info {
      ApplyAllAppend(Replayed(d, u), x.info[u].staged, d[u].parts);
    } else {
      assert Replayed(d, u) + [] == Replayed(d, u);
    }
  }

  lemma {:induction false} DecisionStable(d: Disk, x: Txn)
    requires x.order != [] && WfDisk(d) && Stable(d) && TxnShape(d, x, Participants(x))
    requires Coordinator(x) in x.info && Coordinator(x) in d
    requires BarriersDone(d, Participants(x))
    ensures Stable(Fsync(Append(d, Coordinator(x), Decide(x.info[Coordinator(x)].group)), Coordinator(x)))
  {
    var c := Coordinator(x);
    var m := Decide(x.info[c].group);
    forall u, i | u in d && u != c && d[u].wal.durable <= i < |d[u].wal.recs| && d[u].wal.recs[i].Prepare? && m.Decide?
      ensures !(d[u].wal.recs[i].coord == c && d[u].wal.recs[i].cseq == m.group)
    {
      NobodyWaits(d, x, Participants(x), u, i);
      assert !CitesGroup(d[u].wal.recs[i], c, m.group);
    }
    CommitPointStable(d, c, m);
  }

  lemma {:induction false} DecisionAgrees(d: Disk, acked: Tables, x: Txn)
    requires x.order != [] && Quiet(d, acked) && Committing(d, x, Participants(x))
    requires Coordinator(x) in x.info && Coordinator(x) in d && !Revives(d, x)
    ensures Agrees(NextOf(acked, x), Append(d, Coordinator(x), Decide(x.info[Coordinator(x)].group)))
  {
    var d' := Append(d, Coordinator(x), Decide(x.info[Coordinator(x)].group));
    forall u | u in d'.Keys ensures Agree(NextOf(acked, x)[u], Recovered(d', u)) {
      DecisionYields(d, acked, x, u);
    }
  }

  /** The decision is the commit point of every enlisted table at once. */
  lemma {:induction false} DecisionEdge(d: Disk, acked: Tables, x: Txn, c: TableId, d': Disk, next: Tables)
    requires x.order != [] && Quiet(d, acked) && Committing(d, x, Participants(x))
    requires c == Coordinator(x) && c in x.info && c in d && !Revives(d, x)
    requires BarriersDone(d, Participants(x))
    requires d' == Append(d, c, Decide(x.info[c].group)) && next == NextOf(acked, x)
    ensures OnTheEdge(d', c, acked, next)
  {
    DecisionAgrees(d, acked, x);
    DecisionStable(d, x);
    assert Appendable(d, c, Decide(x.info[c].group)) by { assert EnlistedOk(d, x, c, Participants(x)); }
    EdgeAfterAppend(d, c, Decide(x.info[c].group), acked, next);
  }

  lemma {:induction false} AllBarriersDone(d: Disk, x: Txn, done: set<TableId>)
    requires x.order != [] && Roster(d, x) && BarriersDone(d, done)
    requires forall i :: 0 <= i < |x.order| - 1 ==> x.order[i] in done
    ensures BarriersDone(d, Participants(x))
  {
    FirstsAreParticipants(d, x);
    forall t | t in Participants(x) ensures t in done {
      var i :| 0 <= i < |x.order| - 1 && x.order[i] == t;
    }
  }

  lemma {:induction false} DecideOn(s: Sys)
    requires Inv(s) && CanDecide(s) && !Revives(s.disk, s.txn.t)
    ensures var s' := DoDecide(s); OnTheEdge(s'.disk, s'.pc.at, s'.acked, s'.pc.next)
  {
    var x, s' := s.txn.t, DoDecide(s);
    AllBarriersDone(s.disk, x, s.pc.done);
    DecisionEdge(s.disk, s.acked, x, Coordinator(x), s'.disk, s'.pc.next);
  }

  lemma {:induction false} EdgeIsInv(s: Sys)
    requires s.disk.Keys == s.mem.Keys == s.acked.Keys && s.pc.Appended?
    requires OnTheEdge(s.disk, s.pc.at, s.acked, s.pc.next)
    requires s.txn.Open? ==> s.pc.next == NextOf(s.acked, s.txn.t) && s.mem == s.acked && Marked(s.disk, s.txn.t, s.pc.at)
    ensures Inv(s)
  {
  }

  lemma {:induction false} DecideKeeps(s: Sys)
    requires Inv(s) && CanDecide(s) && !Revives(s.disk, s.txn.t)
    ensures Inv(DoDecide(s))
  {
    DecideOn(s);
    var c := Coordinator(s.txn.t);
    DropAppended(s.disk, c, Decide(s.txn.t.info[c].group));
    EdgeIsInv(DoDecide(s));
  }

  // ---------------------------------------------------------------- start commit

  lemma {:induction false} SingleNext(d: Disk, acked: Tables, x: Txn, c: TableId)
    requires Roster(d, x) && |x.order| == 1 && c == x.order[0] && c in x.info && c in acked
    ensures NextOf(acked, x) == acked[c := x.info[c].view]
  {
    forall u | u in x.info.Keys ensures u == c { assert u in x.order; }
  }

  /** A single table's commit marker is its own commit point. */
  lemma {:induction false} SingleEdge(d: Disk, acked: Tables, x: Txn, c: TableId, d': Disk, next: Tables)
    requires InTxn(d, acked, x) && !x.poisoned && |x.order| == 1
    requires c == Coordinator(x) && c in x.info && c in d && !x.info[c].fold
    requires d' == Append(d, c, Entry.Commit(x.info[c].group)) && next == NextOf(acked, x)
    ensures OnTheEdge(d', c, acked, next)
  {
    var e := x.info[c];
    SingleNext(d, acked, x, c);
    assert EnlistedOk(d, x, c, {});
    assert WfHome(d[c]);
    assert ViewOk(d, x, c);
    MarkerEdge(d, acked, c, e.group, e.lsn, e.staged, e.view);
  }

  lemma {:induction false} NoFoldAmongMany(d: Disk, x: Txn)
    requires TxnShape(d, x, {}) && |x.order| >= 2 && Coordinator(x) in x.info && !x.info[Coordinator(x)].fold
    ensures forall t :: t in x.info.Keys ==> !x.info[t].fold
  {
    forall t | t in x.info.Keys ensures !x.info[t].fold {
      assert EnlistedOk(d, x, t, {});
      var c := Coordinator(x);
      assert x.order[0] in x.order && c in x.order;
      assert x.order[0] in x.info.Keys && c in x.info.Keys && x.order[0] != c;
    }
  }

  lemma {:induction false} PreparingFromIdle(d: Disk, acked: Tables, x: Txn)
    requires InTxn(d, acked, x) && |x.order| >= 2 && !x.poisoned
    requires Coordinator(x) in x.info && !x.info[Coordinator(x)].fold
    ensures PreparedTo(d, acked, x, 0)
  {
    assert Firsts(x, 0) == {};
    NoFoldAmongMany(d, x);
  }

  lemma {:induction false} LoneRoster(d: Disk, x: Txn)
    requires Roster(d, x) && |x.order| == 1
    ensures Participants(x) == {}
  {
    forall u | u in x.info.Keys ensures u == Coordinator(x) { assert u in x.order; }
  }

  // ------------------------------------------------------------------------ undo

  /** Rewinding the coordinator's log takes the commit point with it. */
  lemma {:induction false} UndoForgetsMarker(d: Disk, x: Txn, t: TableId, rewound: set<TableId>)
    requires Marked(d, x, t) && d[t].wal.durable < |d[t].wal.recs| && t in rewound
    ensures RewindAll(d, x, rewound) == RewindAll(DropLast(d, t), x, rewound)
  {
    var d0 := DropLast(d, t);
    assert t in x.order && t in x.info.Keys;
    assert EnlistedOk(d0, x, t, Participants(x));
    var lsn, r := x.info[t].lsn, d[t].wal.recs;
    assert r[..|r| - 1][..lsn] == r[..lsn];
    forall u | u in d.Keys ensures RewindAll(d, x, rewound)[u] == RewindAll(d0, x, rewound)[u] {}
  }

  /** Whichever participants' rewinds fail, as long as the coordinator's does
  not. */
  lemma {:induction false} UndoKeeps(s: Sys, rewound: set<TableId>)
    requires Inv(s) && CanUndo(s, rewound)
    ensures Inv(DoUndo(s, rewound))
  {
    var x, t := s.txn.t, s.pc.at;
    UndoForgetsMarker(s.disk, x, t, rewound);
    AbortQuiet(DropLast(s.disk, t), s.acked, x, Participants(x), rewound);
  }

  lemma {:induction false} StartSingleKeeps(s: Sys)
    requires Inv(s) && CanStartCommit(s) && |s.txn.t.order| == 1 && !s.txn.t.info[Coordinator(s.txn.t)].fold
    ensures Inv(DoStartCommit(s))
  {
    var s', x := DoStartCommit(s), s.txn.t;
    SingleEdge(s.disk, s.acked, x, Coordinator(x), s'.disk, s'.pc.next);
    DropAppended(s.disk, Coordinator(x), Entry.Commit(x.info[Coordinator(x)].group));
    LoneRoster(s.disk, x);
    EdgeIsInv(s');
  }

  lemma {:induction false} StartManyKeeps(s: Sys)
    requires Inv(s) && CanStartCommit(s) && |s.txn.t.order| >= 2 && !s.txn.t.info[Coordinator(s.txn.t)].fold
    ensures Inv(DoStartCommit(s))
  {
    PreparingFromIdle(s.disk, s.acked, s.txn.t);
  }

  lemma {:induction false} StartCommitKeeps(s: Sys)
    requires Inv(s) && CanStartCommit(s)
    ensures Inv(DoStartCommit(s))
  {
    var x := s.txn.t;
    if x.order != [] && !x.info[Coordinator(x)].fold {
      if |x.order| == 1 { StartSingleKeeps(s); } else { StartManyKeeps(s); }
    }
  }
}
