/** Every step of the machine keeps the invariant. */
module Preservation {
  import opened Storage
  import opened Log
  import opened Disk
  import opened Machine
  import opened Recovery
  import opened Appending
  import opened Trimming
  import opened Rolling

  // --------------------------------------------------------- autocommit inserts

  lemma {:induction false} LoggedInsertEdge(d: Disk, acked: Tables, t: TableId, op: Op)
    requires Quiet(d, acked) && t in d && op.Insert?
    ensures OnTheEdge(Append(d, t, Plain(op)), t, acked, acked[t := Apply(op, acked[t])])
  {
    var d', next := Append(d, t, Plain(op)), acked[t := Apply(op, acked[t])];
    CommitPointStable(d, t, Plain(op));
    assert Agrees(next, d') by {
      AppendPlain(d, t, op);
      forall u | u in d'.Keys ensures Agree(next[u], Recovered(d', u)) {
        assert WfHome(d[u]);
        if u == t { AgreeApply(op, acked[t], Recovered(d, t)); } else { AppendOthers(d, t, Plain(op), u); }
      }
    }
    EdgeAfterAppend(d, t, Plain(op), acked, next);
  }

  lemma {:induction false} LogInsertKeeps(s: Sys, t: TableId, block: seq<Row>)
    requires Inv(s) && CanLogInsert(s, t)
    ensures Inv(DoLogInsert(s, t, block))
  {
    var s' := DoLogInsert(s, t, block);
    assert OnTheEdge(s'.disk, s'.pc.at, s'.acked, s'.pc.next) by {
      LoggedInsertEdge(s.disk, s.acked, t, Insert(block));
    }
  }

  lemma {:induction false} SyncKeeps(s: Sys)
    requires Inv(s) && CanSync(s)
    ensures Inv(DoSync(s))
  {
  }

  lemma {:induction false} PublishKeeps(s: Sys)
    requires Inv(s) && s.pc.Synced?
    ensures Inv(DoPublish(s))
  {
  }

  // ------------------------------------------------------------- UNIQUE inserts

  lemma {:induction false} BeginQuiet(d: Disk, c: Tables, t: TableId)
    requires Quiet(d, c) && t in d
    ensures Quiet(BeginGroup(d, t), c)
  {
    BeginKeeps(c, d, t);
  }

  lemma {:induction false} FreshGroupAt(h: Home, h': Home, g: nat, op: Op)
    requires WfHome(h) && g == h.wal.nextSeq
    requires h' == h.(wal := h.wal.(nextSeq := g + 1, recs := h.wal.recs + [Staged(g, op)]))
    ensures GroupAt(h', g, |h.wal.recs|, [op], [])
  {
    var r := h.wal.recs;
    assert (r + [Staged(g, op)])[|r|..] == [Staged(g, op)];
    assert Group(g, [op]) + [] == [Staged(g, op)];
  }

  lemma {:induction false} UniqueStageKeeps(s: Sys, t: TableId, block: seq<Row>)
    requires Inv(s) && CanLogInsert(s, t)
    ensures Inv(DoUniqueStage(s, t, block))
  {
    var s' := DoUniqueStage(s, t, block);
    var g, op := s.disk[t].wal.nextSeq, Insert(block);
    var d0 := BeginGroup(s.disk, t);
    assert WfHome(s.disk[t]);
    FreshGroupAt(s.disk[t], s'.disk[t], g, op);
    BeginQuiet(s.disk, s.acked, t);
    InertQuiet(d0, s.acked, t, Staged(g, op));
  }

  lemma {:induction false} UniqueAcceptKeeps(s: Sys)
    requires Inv(s) && CanUniqueAccept(s)
    ensures Inv(DoUniqueAccept(s))
  {
  }

  lemma {:induction false} TrimQuiet(d: Disk, c: Tables, d': Disk)
    requires Quiet(d, c) && Trimmed(d, d')
    ensures Quiet(d', c)
  {
    TrimKeeps(c, d, d');
  }

  lemma {:induction false} RewindOneTrimmed(d: Disk, t: TableId, g: nat, lsn: nat, staged: seq<Op>)
    requires WfDisk(d) && t in d && GroupAt(d[t], g, lsn, staged, [])
    ensures Trimmed(d, Rewind(d, t, lsn))
  {
    RewindTrims(d, t, g, lsn, staged, []);
    forall u | u in d.Keys ensures TrimmedHome(Decided(d), d[u], Rewind(d, t, lsn)[u]) {
      assert WfHome(d[u]);
      if u != t { NoTrim(Decided(d), d[u]); }
    }
  }

  lemma {:induction false} UniqueRefuseKeeps(s: Sys, erased: bool)
    requires Inv(s) && CanUniqueRefuse(s)
    ensures Inv(DoUniqueRefuse(s, erased))
  {
    if erased {
      RewindOneTrimmed(s.disk, s.pc.ut, s.pc.ug, s.pc.ulsn, [Insert(s.pc.block)]);
      TrimQuiet(s.disk, s.acked, Rewind(s.disk, s.pc.ut, s.pc.ulsn));
    }
  }

  /** A commit marker over the group that ends log `t`. */
  lemma {:induction false} MarkerEdge(d: Disk, acked: Tables, t: TableId, g: nat, lsn: nat, staged: seq<Op>, view: Contents)
    requires Quiet(d, acked) && t in d && GroupAt(d[t], g, lsn, staged, [])
    requires Agree(view, ApplyAll(staged, Recovered(d, t)))
    ensures OnTheEdge(Append(d, t, Entry.Commit(g)), t, acked, acked[t := view])
  {
    var m, next := Entry.Commit(g), acked[t := view];
    var d' := Append(d, t, m);
    CommitPointStable(d, t, m);
    assert Agrees(next, d') by {
      MarkerReleases(d, t, m, g, lsn, staged);
      forall u | u in d'.Keys ensures Agree(next[u], Recovered(d', u)) {
        assert WfHome(d[u]);
        if u != t { AppendOthers(d, t, m, u); }
      }
    }
    EdgeAfterAppend(d, t, m, acked, next);
  }

  lemma {:induction false} UniqueMarkKeeps(s: Sys)
    requires Inv(s) && CanUniqueMark(s)
    ensures Inv(DoUniqueMark(s))
  {
    var t, op := s.pc.ut, Insert(s.pc.block);
    assert WfHome(s.disk[t]);
    var rec := Recovered(s.disk, t);
    assert ApplyAll([op], rec) == Apply(op, rec) by { assert [op][1..] == []; }
    AgreeApply(op, s.acked[t], rec);
    MarkerEdge(s.disk, s.acked, t, s.pc.ug, s.pc.ulsn, [op], Apply(op, s.acked[t]));
  }

  // ---------------------------------------------------------------- enlistment

  lemma {:induction false} BeginTxnKeeps(s: Sys)
    requires Inv(s) && Quiescent(s)
    ensures Inv(DoBegin(s))
  {
  }

  lemma {:induction false} EnlistNew(d: Disk, x: Txn, t: TableId, x': Txn, view: Contents)
    requires WfDisk(d) && TxnShape(d, x, {}) && t in d && t !in x.info
    requires forall u :: u in x.info.Keys ==> !x.info[u].fold
    requires x' == x.(order := x.order + [t],
                      info := x.info[t := Enlisted(d[t].wal.nextSeq, |d[t].wal.recs|, [], view, false)])
    ensures EnlistedOk(BeginGroup(d, t), x', t, {})
  {
    assert WfHome(d[t]);
    var d', e := BeginGroup(d, t), x'.info[t];
    assert d'[t].wal.recs[e.lsn..] == Group(e.group, []) + [];
    forall u, i | u in d'.Keys && d'[u].wal.durable <= i < |d'[u].wal.recs| && (u in x'.info ==> i < x'.info[u].lsn)
      ensures !CitesGroup(d'[u].wal.recs[i], t, e.group)
    {
      assert WfHome(d[u]) && CitesOld(d, u);
      assert d'[u].wal.recs[i] == d[u].wal.recs[i];
    }
  }

  lemma {:induction false} EnlistOld(d: Disk, x: Txn, t: TableId, x': Txn, view: Contents, v: TableId)
    requires WfDisk(d) && TxnShape(d, x, {}) && t in d && t !in x.info && v in x.info
    requires forall u :: u in x.info.Keys ==> !x.info[u].fold
    requires x' == x.(order := x.order + [t],
                      info := x.info[t := Enlisted(d[t].wal.nextSeq, |d[t].wal.recs|, [], view, false)])
    ensures EnlistedOk(BeginGroup(d, t), x', v, {})
  {
    var d' := BeginGroup(d, t);
    assert EnlistedOk(d, x, v, {});
    assert d'[v] == d[v];
    forall u, i | u in d'.Keys && d'[u].wal.durable <= i < |d'[u].wal.recs| && (u in x'.info ==> i < x'.info[u].lsn)
      ensures !CitesGroup(d'[u].wal.recs[i], v, x'.info[v].group)
    {
      assert d'[u].wal.recs[i] == d[u].wal.recs[i];
    }
  }

  lemma {:induction false} EnlistRoster(d: Disk, x: Txn, t: TableId, x': Txn)
    requires Roster(d, x) && t in d && t !in x.info
    requires x'.order == x.order + [t] && x'.info.Keys == x.info.Keys + {t}
    ensures Roster(BeginGroup(d, t), x')
  {
    forall i, j | 0 <= i < j < |x'.order| ensures x'.order[i] != x'.order[j] {
      if j == |x.order| { assert x.order[i] in x.order; }
    }
    forall u ensures u in x'.info.Keys <==> u in x'.order {
      assert u in x.order ==> u in x'.order;
      assert x'.order[|x.order|] == t;
      if u in x'.order {
        var i :| 0 <= i < |x'.order| && x'.order[i] == u;
        if i < |x.order| { assert x.order[i] in x.order; }
      }
      if u in x.info.Keys {
        var i :| 0 <= i < |x.order| && x.order[i] == u;
        assert x'.order[i] == u;
      }
    }
  }

  lemma {:induction false} EnlistShape(d: Disk, x: Txn, t: TableId, x': Txn, view: Contents)
    requires WfDisk(d) && TxnShape(d, x, {}) && t in d && t !in x.info
    requires forall u :: u in x.info.Keys ==> !x.info[u].fold
    requires x' == x.(order := x.order + [t],
                      info := x.info[t := Enlisted(d[t].wal.nextSeq, |d[t].wal.recs|, [], view, false)])
    ensures TxnShape(BeginGroup(d, t), x', {})
  {
    EnlistRoster(d, x, t, x');
    forall v | v in x'.info.Keys ensures EnlistedOk(BeginGroup(d, t), x', v, {}) {
      if v == t { EnlistNew(d, x, t, x', view); } else { EnlistOld(d, x, t, x', view, v); }
    }
  }

  lemma {:induction false} EnlistViews(d: Disk, acked: Tables, x: Txn, t: TableId, x': Txn)
    requires Quiet(d, acked) && ViewsOk(d, x) && t in d && !x.poisoned && Roster(d, x)
    requires x' == x.(order := x.order + [t],
                      info := x.info[t := Enlisted(d[t].wal.nextSeq, |d[t].wal.recs|, [], acked[t], false)])
    ensures ViewsOk(BeginGroup(d, t), x')
  {
    var d' := BeginGroup(d, t);
    forall v | v in x'.info.Keys ensures v in d' && ViewOk(d', x', v) {
      BeginRecovers(d, t, v);
      assert WfHome(d[v]);
      if v != t { assert ViewOk(d, x, v); }
    }
  }

  lemma {:induction false} EnlistKeeps(s: Sys, t: TableId)
    requires Inv(s) && CanEnlist(s, t)
    ensures Inv(DoEnlist(s, t))
  {
    var s' := DoEnlist(s, t);
    BeginQuiet(s.disk, s.acked, t);
    EnlistShape(s.disk, s.txn.t, t, s'.txn.t, s.mem[t]);
    EnlistViews(s.disk, s.acked, s.txn.t, t, s'.txn.t);
  }
}
