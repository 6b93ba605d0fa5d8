/** Folding a log into parts: the roll that seals the active segment, and the
table write that moves the watermark. */
module Rolling {
  import opened Storage
  import opened Log
  import opened Disk
  import opened Machine
  import opened Recovery

  lemma {:induction false} DecidesReplayNothing(dec: Decisions, b: seq<Entry>)
    requires forall i :: 0 <= i < |b| ==> b[i].Decide?
    ensures Survivors(dec, b) == []
    decreases |b|
  {
    if b != [] {
      forall i | 0 <= i < |b[1..]| ensures b[1..][i].Decide? { assert b[1..][i] == b[i + 1]; }
      DecidesReplayNothing(dec, b[1..]);
    }
  }

  /** Repeating decisions behind the records they already released changes
  nothing. */
  lemma {:induction false} CarriedChangeNothing(dec: Decisions, a: seq<Entry>, b: seq<Entry>)
    requires forall i :: 0 <= i < |b| ==> b[i].Decide?
    requires forall i, g :: 0 <= i < |a| && a[i].Staged? && g == a[i].group && Decide(g) in b ==> ReleasedIn(dec, a[i + 1..], g)
    ensures Survivors(dec, a + b) == Survivors(dec, a)
    decreases |a|
  {
    if a == [] {
      assert a + b == b;
      DecidesReplayNothing(dec, b);
    } else {
      var rest := a[1..];
      assert (a + b)[1..] == rest + b;
      forall i, g | 0 <= i < |rest| && rest[i].Staged? && g == rest[i].group && Decide(g) in b
        ensures ReleasedIn(dec, rest[i + 1..], g)
      {
        assert rest[i] == a[i + 1];
        assert rest[i + 1..] == a[i + 2..];
      }
      CarriedChangeNothing(dec, rest, b);
      if a[0].Staged? {
        var g := a[0].group;
        ReleasedInAppend(dec, rest, b, g);
        if ReleasedIn(dec, b, g) {
          var j :| 0 <= j < |b| && Releases(dec, b[j], g);
          assert b[j] == Decide(g);
        }
      }
    }
  }

  lemma {:induction false} RollKeptReleased(d: Disk, t: TableId, dec: Decisions, i: nat, g: nat)
    requires t in d && WfHome(d[t])
    requires i < |Uncovered(d[t])| && Uncovered(d[t])[i].Staged? && Uncovered(d[t])[i].group == g
    requires Decide(g) in DecidesOf(Segment(d[t].wal))
    ensures ReleasedIn(dec, Uncovered(d[t])[i + 1..], g)
  {
    var w, m := d[t].wal, d[t].mark;
    var act := Segment(w);
    var j :| 0 <= j < |act| && act[j] == Decide(g);
    var p, q := m + i, w.origin + j;
    assert w.recs[q] == Decide(g) && w.recs[p].Staged? && w.recs[p].group == g;
    assert p < q;
    var later := Uncovered(d[t])[i + 1..];
    assert later[q - p - 1] == w.recs[q];
    assert Releases(dec, later[q - p - 1], g);
  }

  lemma {:induction false} RollAppends(d: Disk, t: TableId, kept: seq<Entry>)
    requires t in d && WfHome(d[t]) && RollWal(d, t) != d[t].wal
    requires kept == if MayBeCited(d, t) then DecidesOf(Segment(d[t].wal)) else []
    ensures Uncovered(Roll(d, t)[t]) == Uncovered(d[t]) + kept
  {
  }

  /** The rolled table itself replays alike across the seal. */
  lemma {:induction false} RollSurvivors(d: Disk, t: TableId, dec: Decisions)
    requires t in d && WfDisk(d)
    ensures Survivors(dec, Uncovered(Roll(d, t)[t])) == Survivors(dec, Uncovered(d[t]))
  {
    assert WfHome(d[t]);
    var w, w' := d[t].wal, RollWal(d, t);
    if w' != w {
      var kept := if MayBeCited(d, t) then DecidesOf(Segment(w)) else [];
      var a := Uncovered(d[t]);
      RollAppends(d, t, kept);
      forall i | 0 <= i < |kept| ensures kept[i].Decide? { assert kept[i] in kept; }
      forall i, g | 0 <= i < |a| && a[i].Staged? && g == a[i].group && Decide(g) in kept
        ensures ReleasedIn(dec, a[i + 1..], g)
      {
        RollKeptReleased(d, t, dec, i, g);
      }
      CarriedChangeNothing(dec, a, kept);
    }
  }

  lemma {:induction false} DecidedInSegment(d: Disk, u: TableId, g: nat)
    requires u in d
    ensures (u, g) in Decided(d) <==> Decide(g) in Segment(d[u].wal)
  {
    DecidedIff(d, u, g);
    var w := d[u].wal;
    var act := Segment(w);
    if (u, g) in Decided(d) {
      var j :| w.origin <= j < |w.recs| && w.recs[j] == Decide(g);
      assert act[j - w.origin] == Decide(g);
    }
    if Decide(g) in act {
      var i :| 0 <= i < |act| && act[i] == Decide(g);
      assert w.recs[w.origin + i] == Decide(g);
    }
  }

  lemma {:induction false} RolledSegment(d: Disk, t: TableId)
    requires t in d && WfHome(d[t])
    ensures var w, w' := d[t].wal, RollWal(d, t);
      || Segment(w') == Segment(w)
      || Segment(w') == if MayBeCited(d, t) then DecidesOf(Segment(w)) else []
  {
  }

  /** A roll drops decisions of the rolled log only, and only when no other log
  looks live. */
  lemma {:induction false} RollDecided(d: Disk, t: TableId, u: TableId, g: nat)
    requires t in d && WfHome(d[t])
    ensures (u, g) in Decided(Roll(d, t)) ==> (u, g) in Decided(d)
    ensures u != t || MayBeCited(d, t) ==> ((u, g) in Decided(Roll(d, t)) <==> (u, g) in Decided(d))
  {
    var d' := Roll(d, t);
    if u == t {
      RolledSegment(d, t);
      DecidedInSegment(d, t, g);
      DecidedInSegment(d', t, g);
    } else {
      DecidedIff(d, u, g);
      DecidedIff(d', u, g);
    }
  }

  /** What a roll leaves of the decisions. */
  lemma {:induction false} RolledDecisions(d: Disk, t: TableId)
    requires t in d && WfHome(d[t])
    ensures Without(Decided(d), t) <= Decided(Roll(d, t)) <= Decided(d)
    ensures !DropsDecisions(d, t) ==> Decided(Roll(d, t)) == Decided(d)
    ensures DropsDecisions(d, t) ==> Decided(Roll(d, t)) == Without(Decided(d), t)
  {
    var d' := Roll(d, t);
    forall u: TableId, g: nat
      ensures (u, g) in Decided(d') <==> (u, g) in Decided(d) && !(u == t && DropsDecisions(d, t))
    {
      RollDecided(d, t, u, g);
      if u == t {
        DecidedInSegment(d', t, g);
        DecidedInSegment(d, t, g);
      }
    }
    assert forall p :: p in Decided(d') ==> (p.0, p.1) in Decided(d');
    assert forall p :: p in Decided(d) ==> (p.0, p.1) in Decided(d);
  }

  /** A log with its own decisions and without them replays its own records
  alike: it never cites itself. */
  lemma {:induction false} OwnFate(d: Disk, t: TableId)
    requires t in d && WfDisk(d)
    ensures SameFate(Without(Decided(d), t), Decided(d), Uncovered(d[t]))
  {
    assert WfHome(d[t]) && CitesOld(d, t);
    var r := Uncovered(d[t]);
    forall i | 0 <= i < |r| && r[i].Prepare?
      ensures (r[i].coord, r[i].cseq) in Without(Decided(d), t) <==> (r[i].coord, r[i].cseq) in Decided(d)
    {
      assert r[i] == d[t].wal.recs[d[t].mark + i];
    }
    SurvivorsCongruent(Without(Decided(d), t), Decided(d), r);
    FateDecides(Without(Decided(d), t), Decided(d), r);
  }

  /** Log `u` replays a roll of `t` with the decisions left and, if it is the
  log rolled, with the seal in between. */
  lemma {:induction false} RollReplays(d: Disk, t: TableId, u: TableId)
    requires t in d && u in d && WfDisk(d)
    ensures Replayed(Roll(d, t), u) == Survivors(Decided(Roll(d, t)), Uncovered(d[u]))
  {
    if u == t { RollSurvivors(d, t, Decided(Roll(d, t))); }
  }

  lemma {:induction false} RollReplaysIff(d: Disk, t: TableId, u: TableId)
    requires t in d && u in d && WfDisk(d)
    ensures Replayed(Roll(d, t), u) == Replayed(d, u) <==> !(DropsDecisions(d, t) && NeededBy(d, t, u))
  {
    assert WfHome(d[t]);
    RolledDecisions(d, t);
    RollReplays(d, t, u);
    FateDecides(Without(Decided(d), t), Decided(d), Uncovered(d[u]));
  }

  /** Exactly when a roll is harmless: every log replays as before if and only
  if the roll does not drop decisions some record still needs. */
  lemma {:induction false} RollHarmlessIff(d: Disk, t: TableId)
    requires t in d && WfDisk(d)
    ensures (forall u :: u in d.Keys ==> Replayed(Roll(d, t), u) == Replayed(d, u)) <==> !Forgets(d, t)
  {
    forall u | u in d.Keys
      ensures Replayed(Roll(d, t), u) == Replayed(d, u) <==> !(DropsDecisions(d, t) && NeededBy(d, t, u))
    {
      RollReplaysIff(d, t, u);
    }
    if Forgets(d, t) {
      var u :| u in d.Keys && NeededBy(d, t, u);
      assert Replayed(Roll(d, t), u) != Replayed(d, u);
    }
  }

  lemma {:induction false} RollRecovers(d: Disk, t: TableId, u: TableId)
    requires t in d && u in d && WfDisk(d) && !Forgets(d, t)
    ensures Recovered(Roll(d, t), u) == Recovered(d, u)
  {
    RollReplaysIff(d, t, u);
  }

  lemma {:induction false} RollWfHome(d: Disk, t: TableId)
    requires t in d && WfHome(d[t])
    ensures WfHome(Roll(d, t)[t])
    ensures Roll(d, t)[t].wal.nextSeq == d[t].wal.nextSeq
    ensures |Roll(d, t)[t].wal.recs| == Roll(d, t)[t].wal.origin + Roll(d, t)[t].wal.carry
  {
    var w, w' := d[t].wal, RollWal(d, t);
    if w' != w {
      var kept := if MayBeCited(d, t) then DecidesOf(Segment(w)) else [];
      forall i | 0 <= i < |kept| ensures kept[i].Decide? && kept[i].group < w.nextSeq {
        assert kept[i] in kept;
        assert kept[i] in Segment(w);
        assert kept[i] in w.recs;
      }
    }
  }

  lemma {:induction false} RollWf(d: Disk, t: TableId)
    requires t in d && WfDisk(d)
    ensures WfDisk(Roll(d, t))
  {
    var d' := Roll(d, t);
    assert WfHome(d[t]) && CitesOld(d, t);
    RollWfHome(d, t);
    forall u | u in d'.Keys ensures WfHome(d'[u]) && CitesOld(d', u) {
      assert WfHome(d[u]) && CitesOld(d, u);
      forall i | d'[u].mark <= i < |d'[u].wal.recs| && d'[u].wal.recs[i].Prepare?
        ensures i < |d[u].wal.recs| && d'[u].wal.recs[i] == d[u].wal.recs[i]
      {
      }
    }
  }

  lemma {:induction false} RollStable(d: Disk, t: TableId)
    requires t in d && WfDisk(d) && Stable(d)
    ensures Stable(Roll(d, t))
  {
    var d' := Roll(d, t);
    assert WfHome(d[t]);
    forall u | u in d'.Keys
      ensures AllInert(Decided(d'), Unsynced(d'[u].wal))
    {
      assert AllInert(Decided(d), Unsynced(d[u].wal));
      if u != t || RollWal(d, t) == d[t].wal {
        var tail := Unsynced(d[u].wal);
        forall i | 0 <= i < |tail| ensures Inert(Decided(d'), tail[i]) {
          assert Inert(Decided(d), tail[i]);
          if tail[i].Prepare? { RollDecided(d, t, tail[i].coord, tail[i].cseq); }
        }
      }
    }
  }

  lemma {:induction false} RollAgrees(c: Tables, d: Disk, t: TableId)
    requires t in d && WfDisk(d) && !Forgets(d, t) && Agrees(c, d)
    ensures Agrees(c, Roll(d, t))
  {
    assert WfHome(d[t]);
    forall u | u in d.Keys ensures Agree(c[u], Recovered(Roll(d, t), u)) {
      RollRecovers(d, t, u);
    }
  }

  // ----------------------------------------------------------------- table write

  lemma {:induction false} CommitRecovers(d: Disk, t: TableId, c: Contents)
    requires t in d && WfDisk(d) && |d[t].wal.recs| == d[t].wal.origin + d[t].wal.carry
    ensures Recovered(CommitParts(d, t, c), t) == c
  {
    assert WfHome(d[t]);
    var d' := CommitParts(d, t, c);
    var r := Uncovered(d'[t]);
    forall i | 0 <= i < |r| ensures r[i].Decide? { assert r[i] == d[t].wal.recs[d[t].wal.origin + i]; }
    DecidesReplayNothing(Decided(d'), r);
  }

  lemma {:induction false} CommitDecided(d: Disk, t: TableId, c: Contents)
    requires t in d
    ensures Decided(CommitParts(d, t, c)) == Decided(d)
  {
    DecidedSame(d, CommitParts(d, t, c));
  }

  lemma {:induction false} CommitWf(d: Disk, t: TableId, c: Contents)
    requires t in d && WfDisk(d) && |d[t].wal.recs| == d[t].wal.origin + d[t].wal.carry
    ensures WfDisk(CommitParts(d, t, c))
  {
    var d' := CommitParts(d, t, c);
    forall u | u in d'.Keys ensures WfHome(d'[u]) && CitesOld(d', u) {
      assert WfHome(d[u]) && CitesOld(d, u);
      assert d'[u].wal == d[u].wal;
    }
  }

  lemma {:induction false} CommitStable(d: Disk, t: TableId, c: Contents)
    requires t in d && Stable(d)
    ensures Stable(CommitParts(d, t, c))
  {
    CommitDecided(d, t, c);
    forall u | u in d.Keys
      ensures AllInert(Decided(d), Unsynced(CommitParts(d, t, c)[u].wal))
    {
      assert CommitParts(d, t, c)[u].wal == d[u].wal;
    }
  }

  lemma {:induction false} AgreeSelf(c: Contents)
    ensures Agree(c, c)
  {
  }

  lemma {:induction false} CommitAgrees(m: Tables, d: Disk, t: TableId, c: Contents)
    requires t in d && WfDisk(d) && Agrees(m, d) && |d[t].wal.recs| == d[t].wal.origin + d[t].wal.carry
    ensures Agrees(m[t := c], CommitParts(d, t, c))
  {
    assert WfHome(d[t]);
    CommitDecided(d, t, c);
    var d' := CommitParts(d, t, c);
    forall u | u in d'.Keys ensures Agree(m[t := c][u], Recovered(d', u)) {
      if u == t { CommitRecovers(d, t, c); AgreeSelf(c); } else { RecoveredAlike(d, d', u); }
    }
  }
}
