/** Disk changes that leave every table's recovery alone: handing out a group
number, rewinding inert records, rolling a log, committing a table file. */
module Trimming {
  import opened Storage
  import opened Log
  import opened Disk
  import opened Machine
  import opened Recovery
  import opened Appending

  // --------------------------------------------------------------- begin a group

  lemma {:induction false} BeginRecovers(d: Disk, t: TableId, u: TableId)
    requires t in d && u in d && WfDisk(d)
    ensures Decided(BeginGroup(d, t)) == Decided(d)
    ensures Recovered(BeginGroup(d, t), u) == Recovered(d, u)
  {
    var d' := BeginGroup(d, t);
    assert WfHome(d[u]);
    DecidedSame(d, d');
    assert d'[u].wal.recs == d[u].wal.recs;
    RecoveredAlike(d, d', u);
  }

  lemma {:induction false} BeginStable(d: Disk, t: TableId)
    requires t in d && WfDisk(d) && Stable(d)
    ensures Stable(BeginGroup(d, t))
  {
    var d' := BeginGroup(d, t);
    BeginRecovers(d, t, t);
    forall u | u in d'.Keys
      ensures AllInert(Decided(d'), Unsynced(d'[u].wal))
    {
      assert AllInert(Decided(d), Unsynced(d[u].wal));
    }
  }

  lemma {:induction false} BeginKeeps(c: Tables, d: Disk, t: TableId)
    requires t in d && WfDisk(d) && Stable(d) && Agrees(c, d)
    ensures WfDisk(BeginGroup(d, t)) && Stable(BeginGroup(d, t)) && Agrees(c, BeginGroup(d, t))
  {
    BeginWf(d, t);
    BeginStable(d, t);
    BeginAgrees(c, d, t);
  }

  lemma {:induction false} BeginAgrees(c: Tables, d: Disk, t: TableId)
    requires t in d && WfDisk(d) && Agrees(c, d)
    ensures Agrees(c, BeginGroup(d, t))
  {
    forall u | u in d.Keys
      ensures Agree(c[u], Recovered(BeginGroup(d, t), u))
    {
      BeginRecovers(d, t, u);
    }
  }

  lemma {:induction false} BeginWf(d: Disk, t: TableId)
    requires t in d && WfDisk(d)
    ensures WfDisk(BeginGroup(d, t))
  {
    var d' := BeginGroup(d, t);
    forall u | u in d'.Keys ensures WfHome(d'[u]) && CitesOld(d', u) {
      assert WfHome(d[u]) && CitesOld(d, u);
      assert d'[u].wal.recs == d[u].wal.recs;
    }
  }

  // ------------------------------------------------------------------------ trim

  /** Each log of `d'` is that of `d`, cut where only inert records follow. */
  predicate Trimmed(d: Disk, d': Disk) {
    && d'.Keys == d.Keys
    && forall t :: t in d.Keys ==> TrimmedHome(Decided(d), d[t], d'[t])
  }

  predicate TrimmedHome(dec: Decisions, h: Home, k: Home) {
    var n := |k.wal.recs|;
    && n <= |h.wal.recs| && h.mark <= n && h.wal.origin + h.wal.carry <= n
    && k == h.(wal := h.wal.(recs := h.wal.recs[..n], durable := Min(h.wal.durable, n)))
    && AllInert(dec, h.wal.recs[n..])
  }

  lemma {:induction false} TrimDecided(d: Disk, d': Disk)
    requires Trimmed(d, d')
    ensures Decided(d') == Decided(d)
  {
    forall t | t in d.Keys ensures ActiveDecisions(d[t].wal) == ActiveDecisions(d'[t].wal) {
      assert TrimmedHome(Decided(d), d[t], d'[t]);
      var w, v := d[t].wal, d'[t].wal;
      forall j | w.origin <= j < |w.recs| && w.recs[j].Decide? ensures j < |v.recs| && v.recs[j] == w.recs[j] {
      }
      forall j | v.origin <= j < |v.recs| && v.recs[j].Decide? ensures v.recs[j] == w.recs[j] {}
    }
    DecidedSame(d, d');
  }

  lemma {:induction false} TrimWf(d: Disk, d': Disk)
    requires WfDisk(d) && Trimmed(d, d')
    ensures WfDisk(d')
  {
    forall u | u in d'.Keys ensures WfHome(d'[u]) && CitesOld(d', u) {
      assert WfHome(d[u]) && CitesOld(d, u) && TrimmedHome(Decided(d), d[u], d'[u]);
      forall i | d'[u].mark <= i < |d'[u].wal.recs| && d'[u].wal.recs[i].Prepare?
        ensures d'[u].wal.recs[i].coord in d' && d'[u].wal.recs[i].coord != u
        ensures d'[u].wal.durable <= i ==> d'[u].wal.recs[i].cseq < d'[d'[u].wal.recs[i].coord].wal.nextSeq
      {
        var e := d'[u].wal.recs[i];
        assert e == d[u].wal.recs[i];
        assert TrimmedHome(Decided(d), d[e.coord], d'[e.coord]);
      }
    }
  }

  lemma {:induction false} TrimStable(d: Disk, d': Disk)
    requires WfDisk(d) && Stable(d) && Trimmed(d, d')
    ensures Stable(d')
  {
    TrimDecided(d, d');
    forall u | u in d'.Keys
      ensures AllInert(Decided(d'), Unsynced(d'[u].wal))
    {
      assert TrimmedHome(Decided(d), d[u], d'[u]);
      var w, v := d[u].wal, d'[u].wal;
      assert AllInert(Decided(d), Unsynced(w));
      forall i | 0 <= i < |Unsynced(v)| ensures Inert(Decided(d'), Unsynced(v)[i]) {
        assert Unsynced(v)[i] == Unsynced(w)[i];
      }
    }
  }

  lemma {:induction false} TrimRecovers(d: Disk, d': Disk, t: TableId)
    requires WfDisk(d) && Trimmed(d, d') && t in d
    ensures Replayed(d', t) == Replayed(d, t)
    ensures Recovered(d', t) == Recovered(d, t)
  {
    TrimDecided(d, d');
    assert TrimmedHome(Decided(d), d[t], d'[t]);
    var n := |d'[t].wal.recs|;
    assert Uncovered(d[t]) == Uncovered(d'[t]) + d[t].wal.recs[n..];
    InertSuffix(Decided(d), Uncovered(d'[t]), d[t].wal.recs[n..]);
  }

  lemma {:induction false} TrimKeeps(c: Tables, d: Disk, d': Disk)
    requires WfDisk(d) && Stable(d) && Trimmed(d, d') && Agrees(c, d)
    ensures WfDisk(d') && Stable(d') && Agrees(c, d')
  {
    TrimWf(d, d');
    TrimStable(d, d');
    forall t | t in d'.Keys ensures Agree(c[t], Recovered(d', t)) {
      TrimRecovers(d, d', t);
    }
  }

  lemma {:induction false} NoTrim(dec: Decisions, h: Home)
    requires WfHome(h)
    ensures TrimmedHome(dec, h, h)
  {
    assert h.wal.recs[..|h.wal.recs|] == h.wal.recs;
  }

  /** Rewinding a log to where a group was enlisted drops inert records only. */
  lemma {:induction false} RewindTrims(d: Disk, t: TableId, g: nat, lsn: nat, staged: seq<Op>, tail: seq<Entry>)
    requires t in d && WfDisk(d) && GroupAt(d[t], g, lsn, staged, tail) && AllInert(Decided(d), tail)
    ensures TrimmedHome(Decided(d), d[t], Rewind(d, t, lsn)[t])
  {
    assert WfHome(d[t]);
    var h := d[t];
    if lsn >= |h.wal.recs| {
      NoTrim(Decided(d), h);
    } else {
      var lost := h.wal.recs[lsn..];
      assert lost == Group(g, staged) + tail;
      forall i | 0 <= i < |lost| ensures Inert(Decided(d), lost[i]) {
        if i < |staged| { assert lost[i] == Staged(g, staged[i]); } else { assert lost[i] == tail[i - |staged|]; }
      }
    }
  }
}
