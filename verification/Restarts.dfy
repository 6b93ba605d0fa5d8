/** Why a decision, a roll and the rollback of a failed COMMIT are guarded: two
runs, each past a crash and a restart the engine accepts, that end where the next
step would bring back an aborted row or lose a committed one; and one that ends
where a rewind that fails leaves half a transaction. */
module Restarts {
  import opened Storage
  import opened Log
  import opened Disk
  import opened Machine
  import opened Recovery
  import opened Lifecycle
  import opened Rolling
  import opened Commits
  import opened Uncrashed

  const A := Row(1, 10)
  const B := Row(2, 20)
  const C := Row(3, 30)

  function Fresh(recs: seq<Entry>, next: nat): Home {
    Home(Wal(recs, |recs|, 0, 0, 0, next), Keyed(map[]), 0)
  }

  // -------------------------------------------------- a number handed out twice

  /** A two-table commit caught between the participant's barrier and the
  decision: the coordinator (table 1) has synced nothing. */
  function MidCommit(): Disk {
    map[0 := Fresh([Staged(0, Insert([A])), Prepare(0, 1, 0)], 1),
        1 := Fresh([Staged(0, Insert([B]))], 1).(wal := Wal([Staged(0, Insert([B]))], 0, 0, 0, 0, 1)),
        2 := Fresh([], 0)]
  }

  function Empty(): Tables { map[0 := Keyed(map[]), 1 := Keyed(map[]), 2 := Keyed(map[])] }

  function Start(): Sys {
    Sys(map[0 := Fresh([], 0), 1 := Fresh([], 0), 2 := Fresh([], 0)], Empty(), Empty(), NoTxn, Idle)
  }

  /** BEGIN; one row into table 0, one into table 1. */
  function TwoWrites(): Sys {
    Sys(map[0 := Home(Wal([Staged(0, Insert([A]))], 0, 0, 0, 0, 1), Keyed(map[]), 0),
            1 := Home(Wal([Staged(0, Insert([B]))], 0, 0, 0, 0, 1), Keyed(map[]), 0),
            2 := Fresh([], 0)],
        Empty(), Empty(),
        Open(Txn([0, 1], map[0 := Enlisted(0, 0, [Insert([A])], Keyed(map[1 := A]), false),
                             1 := Enlisted(0, 0, [Insert([B])], Keyed(map[2 := B]), false)], false)),
        Idle)
  }

  function OneWrite(): Sys {
    Sys(map[0 := Home(Wal([Staged(0, Insert([A]))], 0, 0, 0, 0, 1), Keyed(map[]), 0), 1 := Fresh([], 0), 2 := Fresh([], 0)],
        Empty(), Empty(),
        Open(Txn([0], map[0 := Enlisted(0, 0, [Insert([A])], Keyed(map[1 := A]), false)], false)), Idle)
  }

  lemma {:induction false} UpsertOne(r: Row)
    ensures Upsert(map[], [r]) == map[r.key := r]
  {
  }

  lemma {:induction false} FirstWrite() returns (s1: Sys, s2: Sys)
    ensures Enabled(Start(), Begin) && s1 == Step(Start(), Begin)
    ensures Enabled(s1, Enlist(0)) && s2 == Step(s1, Enlist(0))
    ensures Enabled(s2, Stage(0, Insert([A]))) && Step(s2, Stage(0, Insert([A]))) == OneWrite()
  {
    UpsertOne(A);
    s1 := Step(Start(), Begin);
    s2 := Step(s1, Enlist(0));
    var s3 := Step(s2, Stage(0, Insert([A])));
    assert s3.disk[0].wal.recs == [Staged(0, Insert([A]))];
    assert s3.disk == OneWrite().disk;
    assert s3.txn.t.info[0].staged == [Insert([A])];
    assert s3.txn.t.order == [0];
    assert s3.txn.t.info == OneWrite().txn.t.info;
  }

  lemma {:induction false} SecondWrite() returns (s4: Sys)
    ensures Enabled(OneWrite(), Enlist(1)) && s4 == Step(OneWrite(), Enlist(1))
    ensures Enabled(s4, Stage(1, Insert([B]))) && Step(s4, Stage(1, Insert([B]))) == TwoWrites()
  {
    UpsertOne(B);
    s4 := Step(OneWrite(), Enlist(1));
    var s5 := Step(s4, Stage(1, Insert([B])));
    assert s5.disk[1].wal.recs == [Staged(0, Insert([B]))];
    assert s5.disk == TwoWrites().disk;
    assert s5.txn.t.info[1].staged == [Insert([B])];
    assert s5.txn.t.order == [0, 1];
    assert s5.txn.t.info == TwoWrites().txn.t.info;
  }

  /** The COMMIT, its participant's barrier back and its decision still to come. */
  function HalfCommitted(): Sys { TwoWrites().(disk := MidCommit(), pc := Barriers({0})) }

  lemma {:induction false} HalfCommit() returns (s6: Sys, s7: Sys)
    ensures Enabled(TwoWrites(), StartCommit) && s6 == Step(TwoWrites(), StartCommit)
    ensures Enabled(s6, PrepareNext) && s7 == Step(s6, PrepareNext)
    ensures Enabled(s7, Barrier(0)) && Step(s7, Barrier(0)) == HalfCommitted()
  {
    s6 := Step(TwoWrites(), StartCommit);
    s7 := Step(s6, PrepareNext);
    var s8 := Step(s7, Barrier(0));
    assert s8.disk[0] == MidCommit()[0] && s8.disk[1] == MidCommit()[1] && s8.disk[2] == MidCommit()[2];
    assert s8.disk.Keys == {0, 1, 2} == MidCommit().Keys;
    assert s8.disk == MidCommit();
    assert s8.pc.done == {0};
  }

  lemma {:induction false} OneWriteReached()
    ensures Reached(OneWrite(), false)
  {
    var s1, s2 := FirstWrite();
    ReachedFirst(Start());
    ReachedNext(Start(), false, Begin);
    ReachedNext(s1, false, Enlist(0));
    ReachedNext(s2, false, Stage(0, Insert([A])));
  }

  lemma {:induction false} TwoWritesReached()
    ensures Reached(TwoWrites(), false)
  {
    OneWriteReached();
    var s4 := SecondWrite();
    ReachedNext(OneWrite(), false, Enlist(1));
    ReachedNext(s4, false, Stage(1, Insert([B])));
  }

  /** The state is one the engine reaches: BEGIN, two inserts, and a COMMIT up to
  its first barrier. */
  lemma {:induction false} MidCommitReached()
    ensures Reached(HalfCommitted(), false) && HalfCommitted().disk == MidCommit()
  {
    TwoWritesReached();
    var s6, s7 := HalfCommit();
    ReachedNext(TwoWrites(), false, StartCommit);
    ReachedNext(s6, false, PrepareNext);
    ReachedNext(s7, false, Barrier(0));
  }

  /** The crash kept the participant's prepare and lost the coordinator's
  staged record. */
  function LostCoordinator(): Disk {
    map[0 := Fresh([Staged(0, Insert([A])), Prepare(0, 1, 0)], 1),
        1 := Fresh([], 1),
        2 := Fresh([], 0)]
  }

  /** The engine reopened on it: table 1 counts from 0 again. */
  function Reborn(): Sys {
    Sys(map[0 := Fresh([Staged(0, Insert([A])), Prepare(0, 1, 0)], 1), 1 := Fresh([], 0), 2 := Fresh([], 0)],
        Empty(), Empty(), NoTxn, Idle)
  }

  lemma {:induction false} DecidedOne(d: Disk, g: nat)
    requires 1 in d && d[1].wal.origin == 0
    ensures (1, g) in Decided(d) <==> Decide(g) in d[1].wal.recs
  {
    DecidedIff(d, 1, g);
  }

  /** One row under a prepare that cites table 1's number 0: there if and only
  if table 1 has decided it. */
  lemma {:induction false} PreparedRow(d: Disk)
    requires 0 in d && 1 in d && d[1].wal.origin == 0 && d[0].parts == Keyed(map[])
    requires Uncovered(d[0]) == [Staged(0, Insert([A])), Prepare(0, 1, 0)]
    ensures Replayed(d, 0) == if Decide(0) in d[1].wal.recs then [Insert([A])] else []
    ensures Recovered(d, 0) == if Decide(0) in d[1].wal.recs then Keyed(map[1 := A]) else Keyed(map[])
  {
    var recs := Uncovered(d[0]);
    DecidedOne(d, 0);
    if Decide(0) in d[1].wal.recs {
      assert recs == Group(0, [Insert([A])]) + [Prepare(0, 1, 0)];
      GroupReleased(Decided(d), 0, [Insert([A])], Prepare(0, 1, 0));
      assert Upsert(map[], [A]) == map[1 := A];
      assert ApplyAll([Insert([A])], Keyed(map[])) == Keyed(map[1 := A]) by { assert [Insert([A])][1..] == []; }
    } else {
      InertReplaysNothing(Decided(d), recs);
    }
  }

  lemma {:induction false} LostImage()
    ensures CrashImage(MidCommit(), LostCoordinator())
  {
    forall t | t in MidCommit().Keys ensures Survives(MidCommit()[t], LostCoordinator()[t]) {}
  }

  lemma {:induction false} NothingRecovered(d: Disk, t: TableId)
    requires t in d && Uncovered(d[t]) == []
    ensures Recovered(d, t) == d[t].parts
  {
  }

  lemma {:induction false} LostRecovers()
    ensures var img := LostCoordinator();
      Recovered(img, 0) == Keyed(map[]) && Recovered(img, 1) == Keyed(map[]) && Recovered(img, 2) == Keyed(map[])
  {
    var img := LostCoordinator();
    assert Uncovered(img[0]) == [Staged(0, Insert([A])), Prepare(0, 1, 0)];
    PreparedRow(img);
    NothingRecovered(img, 1);
    NothingRecovered(img, 2);
  }

  lemma {:induction false} AllEmpty(c: Tables)
    requires c.Keys == {0, 1, 2} && c[0] == c[1] == c[2] == Keyed(map[])
    ensures c == Empty()
  {
  }

  lemma {:induction false} RestartsEmpty()
    ensures DoRestart(LostCoordinator()) == Reborn()
  {
    LostRecovers();
    AllEmpty(DoRestart(LostCoordinator()).acked);
    ReopenedLost();
  }

  lemma {:induction false} ReopenedLost()
    ensures Reopened(LostCoordinator()) == Reborn().disk
  {
    var img := LostCoordinator();
    var seg := Segment(img[0].wal);
    assert seg == [Staged(0, Insert([A])), Prepare(0, 1, 0)];
    assert seg[1..] == [Prepare(0, 1, 0)] && seg[1..][1..] == [];
    assert NextFree(seg[1..]) == 1;
    assert NextFree(seg) == 1;
    assert Segment(img[1].wal) == [] && Segment(img[2].wal) == [];
    forall t | t in img.Keys ensures Reopened(img)[t] == Reborn().disk[t] {}
  }

  /** A later transaction over tables 2 and 1, which coordinates: after one
  write, after both, and at its barrier. */
  function LaterOne(): Sys {
    Reborn().(disk := Reborn().disk[2 := Home(Wal([Staged(0, Insert([C]))], 0, 0, 0, 0, 1), Keyed(map[]), 0)],
              txn := Open(Txn([2], map[2 := Enlisted(0, 0, [Insert([C])], Keyed(map[3 := C]), false)], false)))
  }

  function LaterTwo(): Sys {
    LaterOne().(disk := LaterOne().disk[1 := Home(Wal([Staged(0, Insert([B]))], 0, 0, 0, 0, 1), Keyed(map[]), 0)],
                txn := Open(Txn([2, 1], map[2 := Enlisted(0, 0, [Insert([C])], Keyed(map[3 := C]), false),
                                            1 := Enlisted(0, 0, [Insert([B])], Keyed(map[2 := B]), false)], false)))
  }

  function AboutToDecide(): Sys {
    LaterTwo().(disk := LaterTwo().disk[2 := Fresh([Staged(0, Insert([C])), Prepare(0, 1, 0)], 1)], pc := Barriers({2}))
  }

  lemma {:induction false} LaterFirst() returns (s1: Sys, s2: Sys)
    ensures Enabled(Reborn(), Begin) && s1 == Step(Reborn(), Begin)
    ensures Enabled(s1, Enlist(2)) && s2 == Step(s1, Enlist(2))
    ensures Enabled(s2, Stage(2, Insert([C]))) && Step(s2, Stage(2, Insert([C]))) == LaterOne()
  {
    UpsertOne(C);
    s1 := Step(Reborn(), Begin);
    s2 := Step(s1, Enlist(2));
    var s3 := Step(s2, Stage(2, Insert([C])));
    assert s3.disk[2].wal.recs == [Staged(0, Insert([C]))];
    assert s3.disk == LaterOne().disk;
    assert s3.txn.t.info[2].staged == [Insert([C])];
    assert s3.txn.t.order == [2];
    assert s3.txn.t.info == LaterOne().txn.t.info;
  }

  lemma {:induction false} LaterSecond() returns (s4: Sys)
    ensures Enabled(LaterOne(), Enlist(1)) && s4 == Step(LaterOne(), Enlist(1))
    ensures Enabled(s4, Stage(1, Insert([B]))) && Step(s4, Stage(1, Insert([B]))) == LaterTwo()
  {
    UpsertOne(B);
    s4 := Step(LaterOne(), Enlist(1));
    var s5 := Step(s4, Stage(1, Insert([B])));
    assert s5.disk[1].wal.recs == [Staged(0, Insert([B]))];
    assert s5.disk == LaterTwo().disk;
    assert s5.txn.t.info[1].staged == [Insert([B])];
    assert s5.txn.t.order == [2, 1];
    assert s5.txn.t.info == LaterTwo().txn.t.info;
  }

  lemma {:induction false} LaterPrepares() returns (s6: Sys, s7: Sys)
    ensures Enabled(LaterTwo(), StartCommit) && s6 == Step(LaterTwo(), StartCommit)
    ensures Enabled(s6, PrepareNext) && s7 == Step(s6, PrepareNext)
    ensures Enabled(s7, Barrier(2)) && Step(s7, Barrier(2)) == AboutToDecide()
  {
    s6 := Step(LaterTwo(), StartCommit);
    s7 := Step(s6, PrepareNext);
    var s8 := Step(s7, Barrier(2));
    assert s7.disk[2].wal.recs == [Staged(0, Insert([C])), Prepare(0, 1, 0)];
    assert s8.disk[2] == AboutToDecide().disk[2];
    assert s8.pc.done == {2};
    assert s8.disk == AboutToDecide().disk;
  }

  lemma {:induction false} LaterOneReached()
    ensures Reached(LaterOne(), true)
  {
    RebornReached();
    var s1, s2 := LaterFirst();
    ReachedNext(Reborn(), true, Begin);
    ReachedNext(s1, true, Enlist(2));
    ReachedNext(s2, true, Stage(2, Insert([C])));
  }

  lemma {:induction false} LaterTwoReached()
    ensures Reached(LaterTwo(), true)
  {
    LaterOneReached();
    var s4 := LaterSecond();
    ReachedNext(LaterOne(), true, Enlist(1));
    ReachedNext(s4, true, Stage(1, Insert([B])));
  }

  /** A run through the crash, the restart and a whole later transaction, up to
  the decision it is about to write. */
  lemma {:induction false} ReuseReached()
    ensures Reached(AboutToDecide(), true)
  {
    LaterTwoReached();
    var s6, s7 := LaterPrepares();
    ReachedNext(LaterTwo(), true, StartCommit);
    ReachedNext(s6, true, PrepareNext);
    ReachedNext(s7, true, Barrier(2));
  }

  lemma {:induction false} RebornReached()
    ensures Reached(Reborn(), true)
  {
    MidCommitReached();
    LostImage();
    RestartsEmpty();
    ReachedNext(HalfCommitted(), false, Restart(LostCoordinator()));
  }

  /** The decision the engine would write now brings the first, aborted
  transaction's row back into table 0, which neither wrote since: table 0 is
  empty as far as anyone was told. */
  lemma {:induction false} ReusedNumberResurrects()
    ensures var s := AboutToDecide();
      && CanDecide(s) && Revives(s.disk, s.txn.t)
      && s.acked[0] == Recovered(s.disk, 0) == Keyed(map[])
      && Recovered(DoDecide(s).disk, 0) == Keyed(map[1 := A])
  {
    var s := AboutToDecide();
    assert Uncovered(s.disk[0]) == [Staged(0, Insert([A])), Prepare(0, 1, 0)];
    PreparedRow(s.disk);
    var d' := DoDecide(s).disk;
    assert d'[1].wal.recs == [Staged(0, Insert([B])), Decide(0)];
    assert d'[1].wal.recs[1] == Decide(0);
    PreparedRow(d');
    ReuseRevives(s.disk, s.txn.t, d');
  }

  lemma {:induction false} ReuseRevives(d: Disk, x: Txn, d': Disk)
    requires d == AboutToDecide().disk && x == AboutToDecide().txn.t && d' == Append(d, 1, Decide(0))
    requires Replayed(d, 0) == [] && Replayed(d', 0) == [Insert([A])]
    ensures Revives(d, x)
  {
    assert Coordinator(x) == 1 && x.info[1].group == 0;
    assert WfHome(d[1]);
    AppendDecisions(d, 1, Decide(0));
    assert Older(d, x, 0) == Uncovered(d[0]) == Uncovered(d'[0]);
    FateDecides(Decided(d), Decided(d) + {(1, 0)}, Older(d, x, 0));
    assert RevivesIn(d, x, 0);
  }

  // ------------------------------------------------------- a fold cut in the middle

  /** Tables 0 and 1 committed together; then the fold of table 0 rolled its log
  and was cut before the table write, so its watermark is still 0. */
  function CutFold(): Disk {
    map[0 := Home(Wal([Staged(0, Insert([A])), Prepare(0, 1, 0)], 2, 2, 0, 1, 1), Keyed(map[]), 0),
        1 := Fresh([Staged(0, Insert([B])), Decide(0)], 1),
        2 := Fresh([], 0)]
  }

  /** Both tables committed, nothing folded. */
  function BothCommitted(): Disk { MidCommit()[1 := Fresh([Staged(0, Insert([B])), Decide(0)], 1)] }

  function Decided2(): Sys { HalfCommitted().(disk := Append(MidCommit(), 1, Decide(0)), pc := Appended(1, Both())) }

  function Both(): Tables { map[0 := Keyed(map[1 := A]), 1 := Keyed(map[2 := B]), 2 := Keyed(map[])] }

  function Done(): Sys { Sys(BothCommitted(), Both(), Both(), NoTxn, Idle) }

  function Cut(): Sys { Sys(CutFold(), Both(), Both(), NoTxn, Rolled(0)) }

  lemma {:induction false} DecisionStep()
    ensures CanDecide(HalfCommitted()) && DoDecide(HalfCommitted()) == Decided2()
  {
    assert NextOf(HalfCommitted().acked, HalfCommitted().txn.t) == Both();
  }

  lemma {:induction false} FinishSteps() returns (s10: Sys)
    ensures Enabled(Decided2(), Sync) && s10 == Step(Decided2(), Sync)
    ensures Enabled(s10, Publish) && Step(s10, Publish) == Done()
  {
    s10 := Step(Decided2(), Sync);
    assert s10.disk[1].wal.recs == [Staged(0, Insert([B])), Decide(0)];
    assert s10.disk == BothCommitted();
  }

  lemma {:induction false} RollOfZero()
    ensures Roll(BothCommitted(), 0) == CutFold()
  {
    var d := BothCommitted();
    var w := d[0].wal;
    assert Segment(w) == w.recs == [Staged(0, Insert([A])), Prepare(0, 1, 0)];
    assert w.recs[1..] == [Prepare(0, 1, 0)] && w.recs[1..][1..] == [];
    assert DecidesOf(w.recs[1..]) == [];
    assert w.recs + [] == w.recs;
  }

  /** This state too is one the engine reaches. */
  lemma {:induction false} CutFoldReached()
    ensures Reached(Cut(), false) && Cut().disk == CutFold()
  {
    DoneReached();
    ReachedNext(Done(), false, StartFold(0));
    RollOfZero();
    var s12 := DoStartFold(Done(), 0);
    ReachedUnguarded(s12);
    ReachedNext(s12, false, RollLog);
    assert DoRoll(s12) == Cut();
  }

  /** The decision is in the coordinator's log, its sync still to come. */
  lemma {:induction false} DecidedReached()
    ensures Reached(Decided2(), false)
  {
    MidCommitReached();
    DecisionStep();
    ReachedUnguarded(HalfCommitted());
    ReachedNext(HalfCommitted(), false, DecideAll);
  }

  lemma {:induction false} DoneReached()
    ensures Reached(Done(), false)
  {
    DecidedReached();
    var s10 := FinishSteps();
    ReachedNext(Decided2(), false, Sync);
    ReachedNext(s10, false, Publish);
  }

  lemma {:induction false} CutFoldRow()
    ensures Replayed(CutFold(), 0) == [Insert([A])] && Recovered(CutFold(), 0) == Keyed(map[1 := A])
  {
    var d := CutFold();
    assert Uncovered(d[0]) == [Staged(0, Insert([A])), Prepare(0, 1, 0)];
    assert d[1].wal.recs[1] == Decide(0);
    PreparedRow(d);
  }

  lemma {:induction false} PairNext(a: Entry, b: Entry)
    requires !a.Plain? && !b.Plain? && a.group == 0 && b.group == 0
    ensures NextFree([a, b]) == 1
  {
    assert [a, b][1..] == [b] && [b][1..] == [];
    assert NextFree([b]) == 1;
  }

  /** A synced log whose counter is where reopening puts it. */
  lemma {:induction false} ReopensSame(h: Home)
    requires h.wal.durable == |h.wal.recs| && h.wal.nextSeq == Max(h.wal.headSeq, NextFree(Segment(h.wal)))
    ensures h.(wal := Reopen(h.wal)) == h && Survives(h, h)
  {
    assert h.wal.recs[..|h.wal.recs|] == h.wal.recs;
  }

  lemma {:induction false} ReopenedCut()
    ensures CrashImage(CutFold(), CutFold()) && Reopened(CutFold()) == CutFold()
  {
    var d := CutFold();
    assert Segment(d[0].wal) == [] && Segment(d[2].wal) == [];
    assert Segment(d[1].wal) == [Staged(0, Insert([B])), Decide(0)];
    PairNext(Staged(0, Insert([B])), Decide(0));
    ReopensSame(d[0]);
    ReopensSame(d[1]);
    ReopensSame(d[2]);
    assert d.Keys == {0, 1, 2};
    assert Reopened(d) == d;
  }

  /** The restart, and the fold of table 1 begun. */
  ghost function AboutToRoll(): Sys { DoStartFold(DoRestart(CutFold()), 1) }

  /** A run through the crash and the restart, up to the roll of table 1's log. */
  lemma {:induction false} ForgetReached()
    ensures Reached(AboutToRoll(), true)
    ensures var s := AboutToRoll(); s.disk == CutFold() && CanRoll(s) && s.pc.ft == 1
    ensures 0 in AboutToRoll().acked && AboutToRoll().acked[0] == Keyed(map[1 := A])
  {
    CutFoldReached();
    ReopenedCut();
    CutFoldRow();
    ReachedNext(Cut(), false, Restart(CutFold()));
    ReachedNext(DoRestart(CutFold()), true, StartFold(1));
  }

  /** Rolling table 1's log now drops the decision table 0 still needs: the
  engine asks only about records in table 0's active segment.  The committed row
  is lost. */
  lemma {:induction false} CutFoldLosesDecision()
    ensures var d := CutFold();
      && Forgets(d, 1)
      && Recovered(d, 0) == Keyed(map[1 := A])
      && Recovered(Roll(d, 1), 0) == Keyed(map[])
  {
    var d := CutFold();
    CutFoldRow();
    assert !Live(d[0]) && !Live(d[2]);
    var e := Roll(d, 1);
    assert e[1].wal == Wal(d[1].wal.recs + [], 2, 2, 0, 1, 1);
    DecidedIff(e, 1, 0);
    assert Uncovered(e[0]) == [Staged(0, Insert([A])), Prepare(0, 1, 0)];
    InertReplaysNothing(Decided(e), Uncovered(e[0]));
    CutFoldForgets(d);
  }

  lemma {:induction false} CutFoldForgets(d: Disk)
    requires d == CutFold() && Replayed(d, 0) == [Insert([A])] && DropsDecisions(d, 1)
    ensures Forgets(d, 1)
  {
    var less := Without(Decided(d), 1);
    var r := Uncovered(d[0]);
    assert r == [Staged(0, Insert([A])), Prepare(0, 1, 0)];
    assert less <= Decided(d);
    InertReplaysNothing(less, r);
    FateDecides(less, Decided(d), r);
    assert NeededBy(d, 1, 0);
  }

  // ---------------------------------------------------------- a rewind that fails

  /** The final sync fails; the rollback rewinds the participant's log and then
  cannot rewind the coordinator's. */
  function HalfUndone(): Disk { RewindAll(Decided2().disk, Decided2().txn.t, {0}) }

  /** Table 0 recovers as it was, table 1 with the row of the COMMIT that was
  refused: half of it happened. */
  lemma {:induction false} FailedRewindTears()
    ensures Reached(Decided2(), false) && Decided2().pc.Appended? && Decided2().acked == Empty()
    ensures Recovered(HalfUndone(), 0) == Keyed(map[]) && Recovered(HalfUndone(), 1) == Keyed(map[2 := B])
  {
    DecidedReached();
    var d := HalfUndone();
    assert d[0].wal.recs == [];
    NothingRecovered(d, 0);
    var recs := Uncovered(d[1]);
    assert recs == Group(0, [Insert([B])]) + [Decide(0)];
    GroupReleased(Decided(d), 0, [Insert([B])], Decide(0));
    UpsertOne(B);
    assert ApplyAll([Insert([B])], Keyed(map[])) == Keyed(map[2 := B]) by { assert [Insert([B])][1..] == []; }
  }

  // ------------------------------------------------------------ damage or none

  /** The two crashes did damage, one to the counters and one to the watermarks. */
  lemma {:induction false} CrashesDamage()
    ensures !Issued(Reopened(LostCoordinator())) && !Settled(CutFold()[0])
    ensures !Undamaged(LostCoordinator()) && !Undamaged(CutFold())
  {
    ReopenedLost();
    var d := Reborn().disk;
    assert d[0].wal.recs[1] == Prepare(0, 1, 0) && !CitesIssued(d, d[0].wal.recs[1]);
  }

  lemma {:induction false} ReopenedDone()
    ensures CrashImage(BothCommitted(), BothCommitted()) && Reopened(BothCommitted()) == BothCommitted()
  {
    var d := BothCommitted();
    assert Segment(d[0].wal) == [Staged(0, Insert([A])), Prepare(0, 1, 0)];
    assert Segment(d[1].wal) == [Staged(0, Insert([B])), Decide(0)];
    assert Segment(d[2].wal) == [];
    PairNext(Staged(0, Insert([A])), Prepare(0, 1, 0));
    PairNext(Staged(0, Insert([B])), Decide(0));
    ReopensSame(d[0]);
    ReopensSame(d[1]);
    ReopensSame(d[2]);
    assert d.Keys == {0, 1, 2};
    assert Reopened(d) == d;
  }

  /** A crash of the database at rest, after the same COMMIT, does none. */
  lemma {:induction false} CommittedUndamaged()
    ensures Reached(Done(), false) && CrashImage(Done().disk, Done().disk) && Undamaged(Done().disk)
  {
    DoneReached();
    ReopenedDone();
    DoneIssued();
  }

  lemma {:induction false} DoneIssued()
    ensures Issued(BothCommitted()) && forall u :: u in BothCommitted().Keys ==> Settled(BothCommitted()[u])
  {
    var d := BothCommitted();
    forall u, i | u in d.Keys && d[u].mark <= i < |d[u].wal.recs| ensures CitesIssued(d, d[u].wal.recs[i]) {
      assert d[1].wal.nextSeq == 1;
    }
  }
}
