/** The effect of one appended record on what recovery yields. */
module Appending {
  import opened Storage
  import opened Log
  import opened Disk
  import opened Machine
  import opened Recovery

  /** A record `t` may append: its group has been handed out, and so has the
  number it cites. */
  predicate Appendable(d: Disk, t: TableId, e: Entry)
    requires t in d
  {
    && (!e.Plain? ==> e.group < d[t].wal.nextSeq)
    && (e.Prepare? ==> e.coord in d && e.coord != t && e.cseq < d[e.coord].wal.nextSeq)
    && (e.Staged? ==> Decide(e.group) !in d[t].wal.recs)
  }

  lemma {:induction false} AppendWfHome(h: Home, e: Entry, h': Home)
    requires WfHome(h) && h' == h.(wal := h.wal.(recs := h.wal.recs + [e]))
    requires !e.Plain? ==> e.group < h.wal.nextSeq
    requires e.Staged? ==> Decide(e.group) !in h.wal.recs
    ensures WfHome(h')
  {
    forall i | 0 <= i < |h'.wal.recs| && !h'.wal.recs[i].Plain? ensures h'.wal.recs[i].group < h'.wal.nextSeq {
      if i < |h.wal.recs| { assert h'.wal.recs[i] == h.wal.recs[i]; }
    }
  }

  lemma {:induction false} AppendWf(d: Disk, t: TableId, e: Entry)
    requires t in d && WfDisk(d) && Appendable(d, t, e)
    ensures WfDisk(Append(d, t, e))
  {
    var d' := Append(d, t, e);
    forall u | u in d'.Keys ensures WfHome(d'[u]) && CitesOld(d', u) {
      assert WfHome(d[u]) && CitesOld(d, u);
      if u == t { AppendWfHome(d[t], e, d'[t]); }
    }
  }

  lemma {:induction false} DropAppended(d: Disk, t: TableId, e: Entry)
    requires t in d
    ensures DropLast(Append(d, t, e), t) == d
  {
    var r := d[t].wal.recs;
    assert (r + [e])[..|r|] == r;
  }

  /** Appending to one log leaves another table's recovery alone, unless the
  record is a decision the other log cites. */
  lemma {:induction false} AppendOthers(d: Disk, t: TableId, e: Entry, u: TableId)
    requires t in d && u in d && u != t && WfDisk(d)
    requires forall i :: d[u].mark <= i < |d[u].wal.recs| && d[u].wal.recs[i].Prepare? && e.Decide? ==>
      !(d[u].wal.recs[i].coord == t && d[u].wal.recs[i].cseq == e.group)
    ensures Recovered(Append(d, t, e), u) == Recovered(d, u)
  {
    assert WfHome(d[t]) && WfHome(d[u]);
    AppendDecisions(d, t, e);
    RecoveredAlike(d, Append(d, t, e), u);
  }

  lemma {:induction false} AppendUncovered(d: Disk, t: TableId, e: Entry)
    requires t in d && d[t].mark <= |d[t].wal.recs|
    ensures Uncovered(Append(d, t, e)[t]) == Uncovered(d[t]) + [e]
  {
    var r := d[t].wal.recs;
    assert (r + [e])[d[t].mark..] == r[d[t].mark..] + [e];
  }

  lemma {:induction false} AppendPlain(d: Disk, t: TableId, op: Op)
    requires t in d && WfDisk(d)
    ensures Recovered(Append(d, t, Plain(op)), t) == Apply(op, Recovered(d, t))
  {
    assert WfHome(d[t]);
    var e := Plain(op);
    AppendDecisions(d, t, e);
    AppendUncovered(d, t, e);
    var dec := Decided(d);
    assert forall g :: !ReleasedIn(dec, [e], g);
    SurvivorsSplit(dec, Uncovered(d[t]), [e]);
    assert Survivors(dec, [e]) == [op] by { assert Survivors(dec, [e][1..]) == []; }
    ApplyAllAppend(Survivors(dec, Uncovered(d[t])), [op], d[t].parts);
    var c := ApplyAll(Survivors(dec, Uncovered(d[t])), d[t].parts);
    assert ApplyAll([op], c) == Apply(op, c) by { assert [op][1..] == []; }
  }

  lemma {:induction false} AppendInert(d: Disk, t: TableId, e: Entry)
    requires t in d && WfDisk(d) && Inert(Decided(d), e)
    ensures Recovered(Append(d, t, e), t) == Recovered(d, t)
  {
    assert WfHome(d[t]);
    AppendDecisions(d, t, e);
    AppendUncovered(d, t, e);
    InertSuffix(Decided(d), Uncovered(d[t]), [e]);
  }

  lemma {:induction false} AppendInertAll(d: Disk, t: TableId, e: Entry, u: TableId)
    requires t in d && u in d && WfDisk(d) && Inert(Decided(d), e)
    ensures Recovered(Append(d, t, e), u) == Recovered(d, u)
  {
    assert WfHome(d[t]) && WfHome(d[u]);
    if u == t { AppendInert(d, t, e); } else { AppendOthers(d, t, e, u); }
  }

  lemma {:induction false} AppendInertStable(d: Disk, t: TableId, e: Entry)
    requires t in d && WfDisk(d) && Inert(Decided(d), e) && Stable(d)
    ensures Stable(Append(d, t, e))
  {
    var d' := Append(d, t, e);
    assert WfHome(d[t]);
    AppendDecisions(d, t, e);
    forall u | u in d'.Keys
      ensures AllInert(Decided(d'), Unsynced(d'[u].wal))
    {
      assert AllInert(Decided(d), Unsynced(d[u].wal));
      if u == t {
        assert d'[t].wal.recs[d[t].wal.durable..] == Unsynced(d[t].wal) + [e];
      }
    }
  }

  lemma {:induction false} AppendInertKeeps(c: Tables, d: Disk, t: TableId, e: Entry)
    requires t in d && WfDisk(d) && Inert(Decided(d), e) && Stable(d) && Agrees(c, d)
    ensures Stable(Append(d, t, e)) && Agrees(c, Append(d, t, e))
  {
    AppendInertStable(d, t, e);
    forall u | u in d ensures Recovered(Append(d, t, e), u) == Recovered(d, u) {
      AppendInertAll(d, t, e, u);
    }
  }

  /** `pre` below the group, then the group, then a record that releases it. */
  lemma {:induction false} GroupThenMarker(dec: Decisions, pre: seq<Entry>, g: nat, ops: seq<Op>, m: Entry)
    requires Releases(dec, m, g)
    requires forall i :: 0 <= i < |pre| && !pre[i].Plain? ==> pre[i].group != g
    ensures Survivors(dec, pre + (Group(g, ops) + [m])) == Survivors(dec, pre) + ops
  {
    var b := Group(g, ops) + [m];
    forall i | 0 <= i < |pre| && pre[i].Staged? ensures !ReleasedIn(dec, b, pre[i].group) {
      forall j | 0 <= j < |b| ensures !Releases(dec, b[j], pre[i].group) {
        if j < |ops| { assert b[j] == Staged(g, ops[j]); }
      }
    }
    SurvivorsSplit(dec, pre, b);
    GroupReleased(dec, g, ops, m);
  }

  lemma {:induction false} UncoveredAtGroup(h: Home, g: nat, lsn: nat, staged: seq<Op>, tail: seq<Entry>)
    requires GroupAt(h, g, lsn, staged, tail)
    ensures h.mark <= |h.wal.recs|
    ensures Uncovered(h) == h.wal.recs[h.mark..lsn] + (Group(g, staged) + tail)
    ensures forall i :: 0 <= i < |h.wal.recs[h.mark..lsn]| && !h.wal.recs[h.mark..lsn][i].Plain? ==> h.wal.recs[h.mark..lsn][i].group != g
  {
    assert h.wal.recs[h.mark..] == h.wal.recs[h.mark..lsn] + h.wal.recs[lsn..];
  }

  /** The commit marker -- or the decision -- releases the coordinator's own
  group. */
  lemma {:induction false} MarkerReleases(d: Disk, t: TableId, m: Entry, g: nat, lsn: nat, staged: seq<Op>)
    requires t in d && WfDisk(d) && GroupAt(d[t], g, lsn, staged, [])
    requires m == Commit(g) || m == Decide(g)
    ensures Replayed(Append(d, t, m), t) == Replayed(d, t) + staged
    ensures Recovered(Append(d, t, m), t) == ApplyAll(staged, Recovered(d, t))
  {
    assert WfHome(d[t]) && CitesOld(d, t);
    var d', h := Append(d, t, m), d[t];
    var dec, dec' := Decided(d), Decided(d');
    var pre := h.wal.recs[h.mark..lsn];
    AppendDecisions(d, t, m);
    AppendUncovered(d, t, m);
    UncoveredAtGroup(h, g, lsn, staged, []);
    assert Group(g, staged) + [] == Group(g, staged);
    assert pre + Group(g, staged) + [m] == pre + (Group(g, staged) + [m]);
    GroupThenMarker(dec', pre, g, staged, m);
    assert AllInert(dec, Group(g, staged));
    InertSuffix(dec, pre, Group(g, staged));
    forall i | 0 <= i < |pre| && pre[i].Prepare?
      ensures (pre[i].coord, pre[i].cseq) in dec <==> (pre[i].coord, pre[i].cseq) in dec'
    {
      assert pre[i] == h.wal.recs[h.mark + i];
    }
    SurvivorsCongruent(dec, dec', pre);
    ApplyAllAppend(Survivors(dec, pre), staged, h.parts);
  }

  /** The coordinator's decision releases a participant's prepared group, on top
  of what the older records come to with it. */
  lemma {:induction false} DecisionReleases(d: Disk, c: TableId, cg: nat, t: TableId, g: nat, lsn: nat, staged: seq<Op>)
    requires c in d && t in d && t != c && WfDisk(d)
    requires GroupAt(d[t], g, lsn, staged, [Prepare(g, c, cg)])
    requires (c, cg) !in Decided(d)
    ensures var pre := d[t].wal.recs[d[t].mark..lsn]; var d' := Append(d, c, Decide(cg));
      && Replayed(d, t) == Survivors(Decided(d), pre)
      && Replayed(d', t) == Survivors(Decided(d) + {(c, cg)}, pre) + staged
  {
    assert WfHome(d[c]);
    var h, m := d[t], Prepare(g, c, cg);
    var dec, dec' := Decided(d), Decided(d) + {(c, cg)};
    var pre := h.wal.recs[h.mark..lsn];
    AppendDecisions(d, c, Decide(cg));
    UncoveredAtGroup(h, g, lsn, staged, [m]);
    GroupThenMarker(dec', pre, g, staged, m);
    assert AllInert(dec, Group(g, staged) + [m]);
    InertSuffix(dec, pre, Group(g, staged) + [m]);
  }

  /** Syncing the log that just took a commit point leaves nothing unstable, if
  no other unsynced record waits for it. */
  lemma {:induction false} CommitPointStable(d: Disk, t: TableId, m: Entry)
    requires t in d && WfDisk(d) && Stable(d)
    requires forall u, i :: u in d && u != t && d[u].wal.durable <= i < |d[u].wal.recs| && d[u].wal.recs[i].Prepare? && m.Decide? ==>
      !(d[u].wal.recs[i].coord == t && d[u].wal.recs[i].cseq == m.group)
    ensures Stable(Fsync(Append(d, t, m), t))
  {
    var d1 := Append(d, t, m);
    var d2 := Fsync(d1, t);
    assert WfHome(d[t]);
    AppendDecisions(d, t, m);
    FsyncDecided(d1, t);
    forall u | u in d2.Keys ensures AllInert(Decided(d2), Unsynced(d2[u].wal)) {
      if u != t {
        var tail := Unsynced(d[u].wal);
        assert AllInert(Decided(d), tail);
        forall i | 0 <= i < |tail| ensures Inert(Decided(d2), tail[i]) {
          assert Inert(Decided(d), tail[i]);
          assert tail[i] == d[u].wal.recs[d[u].wal.durable + i];
        }
      }
    }
  }

  // ---------------------------------------------------------------------- fsync

  lemma {:induction false} FsyncDecided(d: Disk, t: TableId)
    requires t in d
    ensures Decided(Fsync(d, t)) == Decided(d)
  {
    DecidedSame(d, Fsync(d, t));
  }

  lemma {:induction false} FsyncWf(d: Disk, t: TableId)
    requires t in d && WfDisk(d)
    ensures WfDisk(Fsync(d, t))
  {
    var d' := Fsync(d, t);
    forall u | u in d'.Keys ensures WfHome(d'[u]) && CitesOld(d', u) {
      assert WfHome(d[u]) && CitesOld(d, u);
      assert d'[u].wal.recs == d[u].wal.recs;
    }
  }

  lemma {:induction false} FsyncRecovers(d: Disk, t: TableId, u: TableId)
    requires t in d && u in d
    ensures Recovered(Fsync(d, t), u) == Recovered(d, u)
  {
    FsyncDecided(d, t);
    assert Fsync(d, t)[u].wal.recs == d[u].wal.recs;
    RecoveredAlike(d, Fsync(d, t), u);
  }

  lemma {:induction false} FsyncAgrees(c: Tables, d: Disk, t: TableId)
    requires t in d && Agrees(c, d)
    ensures Agrees(c, Fsync(d, t))
  {
    forall u | u in d.Keys ensures Agree(c[u], Recovered(Fsync(d, t), u)) {
      FsyncRecovers(d, t, u);
    }
  }

  lemma {:induction false} FsyncStable(d: Disk, t: TableId)
    requires t in d && Stable(d)
    ensures Stable(Fsync(d, t))
  {
    FsyncDecided(d, t);
    var d' := Fsync(d, t);
    forall u | u in d'.Keys
      ensures AllInert(Decided(d'), Unsynced(d'[u].wal))
    {
      assert AllInert(Decided(d), Unsynced(d[u].wal));
    }
  }

  lemma {:induction false} FsyncQuiet(d: Disk, c: Tables, t: TableId)
    requires t in d && Quiet(d, c)
    ensures Quiet(Fsync(d, t), c)
  {
    FsyncWf(d, t);
    FsyncStable(d, t);
    FsyncAgrees(c, d, t);
  }

  lemma {:induction false} InertQuiet(d: Disk, c: Tables, t: TableId, e: Entry)
    requires t in d && Quiet(d, c) && Appendable(d, t, e) && Inert(Decided(d), e)
    ensures Quiet(Append(d, t, e), c)
  {
    AppendWf(d, t, e);
    AppendInertKeeps(c, d, t, e);
  }

  /** A commit point appended to a quiet disk. */
  lemma {:induction false} EdgeAfterAppend(d: Disk, t: TableId, m: Entry, prior: Tables, next: Tables)
    requires t in d && Quiet(d, prior) && Appendable(d, t, m)
    requires Stable(Fsync(Append(d, t, m), t)) && Agrees(next, Append(d, t, m))
    ensures OnTheEdge(Append(d, t, m), t, prior, next)
  {
    var d' := Append(d, t, m);
    assert WfHome(d[t]);
    DropAppended(d, t, m);
    AppendWf(d, t, m);
    FsyncWf(d', t);
    FsyncAgrees(next, d', t);
  }
}
