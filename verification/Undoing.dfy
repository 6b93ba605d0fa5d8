/** The rollback after a failed final sync, when rewinds may fail: what each log
is left replaying, and exactly when the COMMIT is undone. */
module Undoing {
  import opened Storage
  import opened Log
  import opened Disk
  import opened Machine
  import opened Recovery
  import opened Appending
  import opened Trimming
  import opened TwoPhase
  import opened Commits

  /** A transaction whose commit point is in the log and not yet synced. */
  predicate InFlight(s: Sys) { s.pc.Appended? && s.txn.Open? }

  function Undone(s: Sys, rewound: set<TableId>): Disk
    requires InFlight(s)
  {
    RewindAll(s.disk, s.txn.t, rewound)
  }

  /** The disk as it was just before the commit point. */
  function Before(s: Sys): Disk
    requires InFlight(s) && s.pc.at in s.disk && |s.disk[s.pc.at].wal.recs| > 0
  {
    DropLast(s.disk, s.pc.at)
  }

  /** What a log that was not rewound still replays of a transaction whose commit
  point is still there. */
  function Left(x: Txn, c: TableId, rewound: set<TableId>, u: TableId): seq<Op> {
    if u in x.info && c !in rewound && u !in rewound then x.info[u].staged else []
  }

  // -------------------------------------------------------------- one log at a time

  lemma {:induction false} AppendDropped(d: Disk, c: TableId, e: Entry)
    requires c in d && |d[c].wal.recs| > 0 && d[c].wal.recs[|d[c].wal.recs| - 1] == e
    ensures Append(DropLast(d, c), c, e) == d
  {
    var w := d[c].wal;
    assert w.recs[..|w.recs| - 1] + [e] == w.recs;
  }

  lemma {:induction false} PointAppended(d: Disk, x: Txn, c: TableId)
    requires Marked(d, x, c)
    ensures Append(DropLast(d, c), c, CommitPoint(x)) == d
  {
    AppendDropped(d, c, CommitPoint(x));
  }

  /** With the coordinator's log rewound everything is as before. */
  lemma {:induction false} PointGone(d: Disk, x: Txn, c: TableId, rewound: set<TableId>, u: TableId)
    requires Marked(d, x, c) && WfDisk(DropLast(d, c)) && d[c].wal.durable < |d[c].wal.recs| && c in rewound && u in d
    ensures Replayed(RewindAll(d, x, rewound), u) == Replayed(DropLast(d, c), u)
  {
    var d0 := DropLast(d, c);
    UndoForgetsMarker(d, x, c, rewound);
    RewindsTrim(d0, x, rewound);
    TrimRecovers(d0, RewindAll(d0, x, rewound), u);
  }

  /** A lone table's marker that stays releases its own group and nothing else. */
  lemma {:induction false} LonePointStays(d: Disk, x: Txn, c: TableId, rewound: set<TableId>, u: TableId)
    requires Marked(d, x, c) && |x.order| == 1 && WfDisk(DropLast(d, c)) && c !in rewound && u in d
    ensures Replayed(RewindAll(d, x, rewound), u) == Replayed(DropLast(d, c), u) + Left(x, c, rewound, u)
  {
    var d0 := DropLast(d, c);
    PointAppended(d, x, c);
    forall v | v in x.info.Keys ensures v == c { assert v in x.order; }
    assert RewindAll(d, x, rewound) == d;
    LoneRoster(d0, x);
    assert EnlistedOk(d0, x, c, {});
    var e := x.info[c];
    if u == c {
      MarkerReleases(d0, c, CommitPoint(x), e.group, e.lsn, e.staged);
    } else {
      assert WfHome(d0[c]);
      AppendDecisions(d0, c, CommitPoint(x));
    }
  }

  /** The coordinator's commit point and the rewinds of others do not meet. */
  lemma {:induction false} RewindsCommute(d: Disk, x: Txn, c: TableId, rewound: set<TableId>, m: Entry)
    requires c in d && c !in rewound
    ensures RewindAll(d, x, rewound)[c] == d[c]
    ensures Append(RewindAll(d, x, rewound), c, m) == RewindAll(Append(d, c, m), x, rewound)
  {
    var e, f := Append(RewindAll(d, x, rewound), c, m), RewindAll(Append(d, c, m), x, rewound);
    assert e.Keys == f.Keys == d.Keys;
    forall u | u in d.Keys ensures e[u] == f[u] {}
  }

  /** Rewinding logs of a transaction that is not decided changes nothing that
  replay can see. */
  lemma {:induction false} RewindsTrim(d: Disk, x: Txn, rewound: set<TableId>)
    requires WfDisk(d) && x.order != [] && TxnShape(d, x, Participants(x))
    ensures Trimmed(d, RewindAll(d, x, rewound))
  {
    forall t | t in x.info.Keys ensures AllInert(Decided(d), TailOf(x, t, Participants(x))) {
      TailsInert(d, x, Participants(x), t);
    }
    RewindAllTrimmed(d, x, Participants(x), rewound);
  }

  /** Rewinding participants takes no decision away. */
  lemma {:induction false} DecisionStays(d: Disk, x: Txn, c: TableId, rewound: set<TableId>)
    requires Marked(d, x, c) && |x.order| >= 2 && WfDisk(DropLast(d, c)) && c !in rewound
    ensures Decided(RewindAll(d, x, rewound)) == Decided(d) == Decided(DropLast(d, c)) + {(c, x.info[c].group)}
  {
    var d0, m := DropLast(d, c), CommitPoint(x);
    PointAppended(d, x, c);
    assert WfHome(d0[c]);
    AppendDecisions(d0, c, m);
    RewindsTrim(d0, x, rewound);
    TrimDecided(d0, RewindAll(d0, x, rewound));
    RewindsCommute(d0, x, c, rewound, m);
    AppendDecisions(RewindAll(d0, x, rewound), c, m);
  }

  /** A rewound participant is back at its older records. */
  lemma {:induction false} RewoundOlder(d: Disk, x: Txn, c: TableId, rewound: set<TableId>, u: TableId)
    requires Marked(d, x, c) && u in rewound && u in x.info && u != c
    ensures u in d && Uncovered(RewindAll(d, x, rewound)[u]) == Older(DropLast(d, c), x, u)
  {
    var d0 := DropLast(d, c);
    assert EnlistedOk(d0, x, u, Participants(x));
    var h, lsn := d[u], x.info[u].lsn;
    assert h == d0[u];
    assert h.wal.recs[..lsn][h.mark..] == h.wal.recs[h.mark..lsn];
  }

  /** A decision that stays releases what was not rewound, and no more. */
  lemma {:induction false} DecisionLeaves(d: Disk, x: Txn, c: TableId, rewound: set<TableId>, u: TableId)
    requires Marked(d, x, c) && |x.order| >= 2 && WfDisk(DropLast(d, c)) && c !in rewound && u in d
    ensures Replayed(RewindAll(d, x, rewound), u) == Replayed(DropLast(d, c), u) + Left(x, c, rewound, u)
  {
    var d0 := DropLast(d, c);
    PointAppended(d, x, c);
    DecisionStays(d, x, c, rewound);
    DecisionReplays(d0, x, u);
    DecisionAddsIff(d0, x, u);
    assert !RevivesIn(d0, x, u);
    if u in rewound && u in x.info {
      RewoundOlder(d, x, c, rewound, u);
      FateDecides(Decided(d0), Decided(d), Older(d0, x, u));
    }
  }

  /** What log `u` replays after a rollback that rewound `rewound`: what it did
  before the commit point, and also the transaction's records exactly where
  neither it nor the coordinator was rewound. */
  lemma {:induction false} UndoLeaves(s: Sys, rewound: set<TableId>, u: TableId)
    requires Inv(s) && InFlight(s) && u in s.disk
    ensures Replayed(Undone(s, rewound), u) == Replayed(Before(s), u) + Left(s.txn.t, s.pc.at, rewound, u)
  {
    var x, c := s.txn.t, s.pc.at;
    if c in rewound {
      PointGone(s.disk, x, c, rewound, u);
    } else if |x.order| == 1 {
      LonePointStays(s.disk, x, c, rewound, u);
    } else {
      DecisionLeaves(s.disk, x, c, rewound, u);
    }
  }

  // ----------------------------------------------------------- all logs together

  /** Every log replays what it did before the commit point. */
  predicate NoneLeft(s: Sys, rewound: set<TableId>)
    requires Inv(s) && InFlight(s)
  {
    forall u {:trigger Replayed(Before(s), u)} :: u in s.disk.Keys ==> Replayed(Undone(s, rewound), u) == Replayed(Before(s), u)
  }

  /** Every log replays the whole transaction besides. */
  predicate AllLeft(s: Sys, rewound: set<TableId>)
    requires Inv(s) && InFlight(s)
  {
    forall u {:trigger Replayed(Before(s), u)} :: u in s.disk.Keys ==> AddsOwn(Before(s), Undone(s, rewound), s.txn.t, u)
  }

  /** Table `u` wrote something. */
  predicate Wrote(x: Txn, u: TableId) { u in x.info && x.info[u].staged != [] }

  lemma {:induction false} WroteThere(s: Sys, u: TableId)
    requires Inv(s) && InFlight(s) && Wrote(s.txn.t, u)
    ensures u in s.disk.Keys
  {
    assert u in s.txn.t.info.Keys && u in Before(s);
  }

  /** The failed COMMIT is undone if and only if the coordinator's log was
  rewound, or every log that was not had nothing of the transaction in it. */
  lemma {:induction false} UndoneIff(s: Sys, rewound: set<TableId>)
    requires Inv(s) && InFlight(s)
    ensures NoneLeft(s, rewound) <==>
      s.pc.at in rewound || forall u :: Wrote(s.txn.t, u) ==> u in rewound
  {
    var x, c := s.txn.t, s.pc.at;
    forall u | u in s.disk.Keys
      ensures Replayed(Undone(s, rewound), u) == Replayed(Before(s), u) <==> Left(x, c, rewound, u) == []
    {
      UndoLeaves(s, rewound, u);
    }
    forall u | Wrote(x, u) ensures u in s.disk.Keys { WroteThere(s, u); }
  }

  /** It is left torn -- neither undone nor wholly there -- if and only if the
  coordinator's log was not rewound and, of two logs the transaction wrote to,
  one was and the other was not. */
  lemma {:induction false} TornIff(s: Sys, rewound: set<TableId>)
    requires Inv(s) && InFlight(s)
    ensures !NoneLeft(s, rewound) && !AllLeft(s, rewound) <==>
      && s.pc.at !in rewound
      && (exists u :: Wrote(s.txn.t, u) && u in rewound)
      && (exists u :: Wrote(s.txn.t, u) && u !in rewound)
  {
    var x, c := s.txn.t, s.pc.at;
    UndoneIff(s, rewound);
    if c !in rewound {
      forall u | u in s.disk.Keys
        ensures AddsOwn(Before(s), Undone(s, rewound), x, u) <==> !(Wrote(x, u) && u in rewound)
      {
        UndoLeaves(s, rewound, u);
      }
      forall u | Wrote(x, u) ensures u in s.disk.Keys { WroteThere(s, u); }
    }
  }
}
