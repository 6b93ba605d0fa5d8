/** The steps of an open transaction keep the invariant: staging, rolling back,
and committing over any number of tables. */
module TwoPhase {
  import opened Storage
  import opened Log
  import opened Disk
  import opened Machine
  import opened Recovery
  import opened Appending
  import opened Trimming
  import opened Preservation

  // ------------------------------------------------------------------- staging

  /** Appending to an enlisted log leaves the other enlisted tables as they are. */
  lemma {:induction false} OthersEnlisted(d: Disk, x: Txn, prep: set<TableId>, t: TableId, e: Entry, x': Txn, prep': set<TableId>, v: TableId)
    requires t in d && t in x.info && v in x.info && v in d && v != t
    requires EnlistedOk(d, x, t, prep) && EnlistedOk(d, x, v, prep)
    requires x'.info.Keys == x.info.Keys && x'.info[v] == x.info[v]
    requires forall u :: u in x.info.Keys ==> x'.info[u].lsn == x.info[u].lsn
    requires TailOf(x', v, prep') == TailOf(x, v, prep)
    ensures EnlistedOk(Append(d, t, e), x', v, prep')
  {
    var d' := Append(d, t, e);
    assert d'[v] == d[v];
    forall u, i | u in d'.Keys && d'[u].wal.durable <= i < |d'[u].wal.recs| && (u in x'.info ==> i < x'.info[u].lsn)
      ensures !CitesGroup(d'[u].wal.recs[i], v, x'.info[v].group)
    {
      assert d'[u].wal.recs[i] == d[u].wal.recs[i];
    }
  }

  /** The appended record extends the log's own group, or follows it. */
  lemma {:induction false} SelfEnlisted(d: Disk, x: Txn, prep: set<TableId>, t: TableId, e: Entry, x': Txn, prep': set<TableId>)
    requires t in d && t in x.info && EnlistedOk(d, x, t, prep)
    requires x'.info.Keys == x.info.Keys && (x'.info[t].fold ==> x.info.Keys == {t})
    requires forall u :: u in x.info.Keys ==> x'.info[u].lsn == x.info[u].lsn && x'.info[u].group == x.info[u].group
    requires Group(x.info[t].group, x.info[t].staged) + TailOf(x, t, prep) + [e]
          == Group(x.info[t].group, x'.info[t].staged) + TailOf(x', t, prep')
    ensures EnlistedOk(Append(d, t, e), x', t, prep')
  {
    var d', n := Append(d, t, e), x.info[t];
    assert d'[t].wal.recs[n.lsn..] == d[t].wal.recs[n.lsn..] + [e];
    forall i | 0 <= i < n.lsn && !d'[t].wal.recs[i].Plain? ensures d'[t].wal.recs[i].group != n.group {
      assert d'[t].wal.recs[i] == d[t].wal.recs[i];
    }
    forall u, i | u in d'.Keys && d'[u].wal.durable <= i < |d'[u].wal.recs| && (u in x'.info ==> i < x'.info[u].lsn)
      ensures !CitesGroup(d'[u].wal.recs[i], t, n.group)
    {
      assert d'[u].wal.recs[i] == d[u].wal.recs[i];
    }
  }

  /** A group that is still open is nowhere decided. */
  lemma {:induction false} OpenUndecided(d: Disk, t: TableId, g: nat, lsn: nat, staged: seq<Op>, tail: seq<Entry>)
    requires t in d && GroupAt(d[t], g, lsn, staged, tail)
    requires forall i :: 0 <= i < |tail| ==> !tail[i].Decide?
    ensures Decide(g) !in d[t].wal.recs
    ensures (t, g) !in Decided(d)
  {
    var r := d[t].wal.recs;
    forall i | 0 <= i < |r| ensures r[i] != Decide(g) {
      if i >= lsn {
        assert r[i] == r[lsn..][i - lsn] == (Group(g, staged) + tail)[i - lsn];
        if i - lsn < |staged| { assert r[i] == Staged(g, staged[i - lsn]); } else { assert r[i] == tail[i - lsn - |staged|]; }
      }
    }
    DecidedIff(d, t, g);
  }

  lemma {:induction false} StagedAppendable(d: Disk, x: Txn, t: TableId, op: Op)
    requires t in d && t in x.info && EnlistedOk(d, x, t, {})
    ensures Appendable(d, t, Staged(x.info[t].group, op))
  {
    var e := x.info[t];
    OpenUndecided(d, t, e.group, e.lsn, e.staged, []);
  }

  lemma {:induction false} StageShape(d: Disk, x: Txn, t: TableId, op: Op, view: Contents, fold: bool, x': Txn)
    requires TxnShape(d, x, {}) && t in x.info
    requires fold ==> x.info.Keys == {t}
    requires x'.order == x.order
    requires x'.info == x.info[t := x.info[t].(staged := x.info[t].staged + [op], view := view, fold := fold)]
    ensures TxnShape(Append(d, t, Staged(x.info[t].group, op)), x', {})
  {
    var g := x.info[t].group;
    var d', e := Append(d, t, Staged(g, op)), Staged(g, op);
    assert EnlistedOk(d, x, t, {});
    assert Group(g, x.info[t].staged) + [] + [e] == Group(g, x.info[t].staged + [op]) + [];
    forall v | v in x'.info.Keys ensures EnlistedOk(d', x', v, {}) {
      assert EnlistedOk(d, x, v, {});
      if v == t { SelfEnlisted(d, x, {}, t, e, x', {}); } else { OthersEnlisted(d, x, {}, t, e, x', {}, v); }
    }
  }

  lemma {:induction false} StageViews(d: Disk, x: Txn, t: TableId, op: Op, x': Txn)
    requires WfDisk(d) && Roster(d, x) && ViewsOk(d, x) && !x.poisoned && t in x.info
    requires Loggable(op, x.info[t].view)
    requires x' == x.(info := x.info[t := x.info[t].(staged := x.info[t].staged + [op], view := Apply(op, x.info[t].view))])
    ensures ViewsOk(Append(d, t, Staged(x.info[t].group, op)), x')
  {
    var e := Staged(x.info[t].group, op);
    var d' := Append(d, t, e);
    forall v | v in x'.info.Keys ensures v in d' && ViewOk(d', x', v) {
      assert WfHome(d[v]) && ViewOk(d, x, v);
      AppendInertAll(d, t, e, v);
      if v == t && !x.info[t].fold {
        var rec := Recovered(d, t);
        ApplyAllAppend(x.info[t].staged, [op], rec);
        var c := ApplyAll(x.info[t].staged, rec);
        assert ApplyAll([op], c) == Apply(op, c) by { assert [op][1..] == []; }
        AgreeApply(op, x.info[t].view, c);
      }
    }
  }

  lemma {:induction false} StageQuiet(d: Disk, acked: Tables, x: Txn, t: TableId, op: Op)
    requires Quiet(d, acked) && t in d && t in x.info && EnlistedOk(d, x, t, {})
    ensures Quiet(Append(d, t, Staged(x.info[t].group, op)), acked)
  {
    StagedAppendable(d, x, t, op);
    InertQuiet(d, acked, t, Staged(x.info[t].group, op));
  }

  lemma {:induction false} StageKeeps(s: Sys, t: TableId, op: Op)
    requires Inv(s) && CanStage(s, t, op)
    ensures Inv(DoStage(s, t, op))
  {
    var s', d, x := DoStage(s, t, op), s.disk, s.txn.t;
    assert EnlistedOk(d, x, t, {});
    assert Quiet(s'.disk, s'.acked) by { StageQuiet(d, s.acked, x, t, op); }
    assert TxnShape(s'.disk, s'.txn.t, {}) by {
      StageShape(d, x, t, op, Apply(op, x.info[t].view), x.info[t].fold, s'.txn.t);
    }
    assert ViewsOk(s'.disk, s'.txn.t) by { StageViews(d, x, t, op, s'.txn.t); }
  }

  /** The same roster and groups, whatever became of one view. */
  lemma {:induction false} SameShape(d: Disk, x: Txn, t: TableId, view: Contents, fold: bool, x': Txn)
    requires TxnShape(d, x, {}) && t in x.info
    requires fold ==> x.info.Keys == {t}
    requires x'.order == x.order
    requires x'.info == x.info[t := x.info[t].(view := view, fold := fold)]
    ensures TxnShape(d, x', {})
  {
    forall v | v in x'.info.Keys ensures EnlistedOk(d, x', v, {}) {
      assert EnlistedOk(d, x, v, {});
      forall u, i | u in d.Keys && d[u].wal.durable <= i < |d[u].wal.recs| && (u in x'.info ==> i < x'.info[u].lsn)
        ensures !CitesGroup(d[u].wal.recs[i], v, x'.info[v].group)
      {
      }
    }
  }

  /** A sweep over unnamed rows leaves the transaction folding or poisoned, so
  its view is never compared with the log. */
  lemma {:induction false} SweepKeeps(s: Sys, t: TableId, ids: set<Id>, dark: multiset<Row>)
    requires Inv(s) && CanSweep(s, t, ids, dark)
    ensures Inv(DoSweep(s, t, ids, dark))
  {
    var s', d, x := DoSweep(s, t, ids, dark), s.disk, s.txn.t;
    var x' := s'.txn.t;
    var e := x'.info[t];
    assert EnlistedOk(d, x, t, {});
    assert Quiet(s'.disk, s'.acked) by {
      if ids != {} { StageQuiet(d, s.acked, x, t, Mask(ids)); }
    }
    assert TxnShape(s'.disk, x', {}) by {
      if ids == {} {
        assert x.info[t].staged + [] == x.info[t].staged;
        SameShape(d, x, t, e.view, e.fold, x');
      } else {
        StageShape(d, x, t, Mask(ids), e.view, e.fold, x');
      }
    }
    assert ViewsOk(s'.disk, x') by { FoldingViews(s'.disk, s.acked, x', t); }
  }

  lemma {:induction false} FoldingViews(d: Disk, acked: Tables, x: Txn, t: TableId)
    requires Quiet(d, acked) && x.info.Keys <= d.Keys
    requires x.poisoned || (x.info.Keys == {t} && x.info[t].fold)
    ensures ViewsOk(d, x)
  {
    if !x.poisoned { assert WfHome(d[t]); }
  }

  lemma {:induction false} PoisonShape(d: Disk, x: Txn)
    requires TxnShape(d, x, {})
    ensures TxnShape(d, x.(poisoned := true), {})
  {
    forall v | v in x.info.Keys ensures EnlistedOk(d, x.(poisoned := true), v, {}) {
      assert EnlistedOk(d, x, v, {});
    }
  }

  lemma {:induction false} PoisonKeeps(s: Sys)
    requires Inv(s) && s.pc.Idle? && s.txn.Open?
    ensures Inv(DoPoison(s))
  {
    PoisonShape(s.disk, s.txn.t);
  }

  // ------------------------------------------------------------------ rolling back

  lemma {:induction false} RewindAllTrimmed(d: Disk, x: Txn, prep: set<TableId>, ts: set<TableId>)
    requires WfDisk(d) && TxnShape(d, x, prep)
    requires forall t :: t in x.info.Keys ==> AllInert(Decided(d), TailOf(x, t, prep))
    ensures Trimmed(d, RewindAll(d, x, ts))
  {
    var d' := RewindAll(d, x, ts);
    forall u | u in d.Keys ensures TrimmedHome(Decided(d), d[u], d'[u]) {
      assert WfHome(d[u]);
      if u in ts && u in x.info {
        assert EnlistedOk(d, x, u, prep);
        var e := x.info[u];
        RewindTrims(d, u, e.group, e.lsn, e.staged, TailOf(x, u, prep));
      } else {
        NoTrim(Decided(d), d[u]);
      }
    }
  }

  lemma {:induction false} RollbackKeeps(s: Sys, rewound: set<TableId>)
    requires Inv(s) && s.pc.Idle? && s.txn.Open?
    ensures Inv(DoRollback(s, rewound))
  {
    RewindAllTrimmed(s.disk, s.txn.t, {}, rewound);
    TrimQuiet(s.disk, s.acked, RewindAll(s.disk, s.txn.t, rewound));
  }

  /** The coordinator's group is open until the decision, so every prepare that
  cites it is inert. */
  lemma {:induction false} TailsInert(d: Disk, x: Txn, prep: set<TableId>, t: TableId)
    requires TxnShape(d, x, prep) && x.order != [] && Coordinator(x) !in prep && t in x.info
    ensures AllInert(Decided(d), TailOf(x, t, prep))
  {
    var c := Coordinator(x);
    assert c in x.order;
    assert EnlistedOk(d, x, c, prep);
    var e := x.info[c];
    OpenUndecided(d, c, e.group, e.lsn, e.staged, []);
  }

  lemma {:induction false} AbortQuiet(d: Disk, acked: Tables, x: Txn, prep: set<TableId>, ts: set<TableId>)
    requires Quiet(d, acked) && TxnShape(d, x, prep) && x.order != [] && Coordinator(x) !in prep
    ensures Quiet(RewindAll(d, x, ts), acked)
  {
    forall t | t in x.info.Keys ensures AllInert(Decided(d), TailOf(x, t, prep)) { TailsInert(d, x, prep, t); }
    RewindAllTrimmed(d, x, prep, ts);
    TrimQuiet(d, acked, RewindAll(d, x, ts));
  }

  lemma {:induction false} NotAmongFirsts(x: Txn, k: nat)
    requires NoDup(x.order) && k + 1 < |x.order|
    ensures Coordinator(x) !in Firsts(x, k)
  {
  }

  lemma {:induction false} AbortKeeps(s: Sys, rewound: set<TableId>)
    requires Inv(s) && CanAbort(s)
    ensures Inv(DoAbort(s, rewound))
  {
    var x := s.txn.t;
    if s.pc.Preparing? {
      NotAmongFirsts(x, s.pc.k);
      AbortQuiet(s.disk, s.acked, x, Firsts(x, s.pc.k), rewound);
    } else {
      AbortQuiet(s.disk, s.acked, x, Participants(x), rewound);
    }
  }
}
