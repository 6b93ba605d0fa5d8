/** The two steps the machine guards -- a decision that would revive old records,
a roll that would forget a needed decision -- need no guard until a crash does
damage: in a run whose restarts, if any, find every citation issued and every
watermark caught up, neither condition ever arises. */
module Uncrashed {
  import opened Storage
  import opened Log
  import opened Disk
  import opened Machine
  import opened Recovery
  import opened Appending
  import opened Rolling
  import opened Lifecycle

  // ------------------------------------------------------------------- being calm

  predicate CitesIssued(d: Disk, e: Entry) { e.Prepare? ==> e.coord in d && e.cseq < d[e.coord].wal.nextSeq }

  /** Every prepare still to be replayed cites a number already handed out. */
  predicate Issued(d: Disk) {
    forall u, i {:trigger d[u].wal.recs[i]} :: u in d.Keys && d[u].mark <= i < |d[u].wal.recs| ==> CitesIssued(d, d[u].wal.recs[i])
  }

  /** No record from before the transaction cites group `g` of `t`. */
  predicate FreshAt(d: Disk, x: Txn, t: TableId, g: nat) {
    forall u, i {:trigger d[u].wal.recs[i]} ::
      u in d.Keys && d[u].mark <= i < |d[u].wal.recs| && (u in x.info ==> i < x.info[u].lsn)
      ==> !CitesGroup(d[u].wal.recs[i], t, g)
  }

  predicate AllFresh(d: Disk, x: Txn) {
    forall t {:trigger FreshAt(d, x, t, x.info[t].group)} :: t in x.info.Keys ==> FreshAt(d, x, t, x.info[t].group)
  }

  /** The watermark is not behind the active segment. */
  predicate Settled(h: Home) { h.wal.origin <= h.mark }

  predicate SettledBut(d: Disk, pc: Pc) {
    forall u {:trigger Settled(d[u])} :: u in d.Keys ==> Settled(d[u]) || pc == Rolled(u)
  }

  predicate Calm(s: Sys) {
    Issued(s.disk) && SettledBut(s.disk, s.pc) && (s.txn.Open? ==> AllFresh(s.disk, s.txn.t))
  }

  // ------------------------------------------------------- what calm rules out

  /** Records that cite nothing the difference decides share one fate. */
  lemma {:induction false} UncitedFate(less: Decisions, more: Decisions, recs: seq<Entry>)
    requires less <= more
    requires forall i :: 0 <= i < |recs| && recs[i].Prepare? ==>
      ((recs[i].coord, recs[i].cseq) in less <==> (recs[i].coord, recs[i].cseq) in more)
    ensures SameFate(less, more, recs)
  {
    SurvivorsCongruent(less, more, recs);
    FateDecides(less, more, recs);
  }

  lemma {:induction false} CalmRevivesNothing(d: Disk, x: Txn)
    requires x.order != [] && Coordinator(x) in x.info && WfDisk(d) && AllFresh(d, x) && TxnShape(d, x, Participants(x))
    ensures !Revives(d, x)
  {
    var c := Coordinator(x);
    var g := x.info[c].group;
    assert FreshAt(d, x, c, g);
    forall u | u in d.Keys ensures !RevivesIn(d, x, u) {
      assert WfHome(d[u]);
      if u in x.info { assert EnlistedOk(d, x, u, Participants(x)); }
      var r := Older(d, x, u);
      forall i | 0 <= i < |r| && r[i].Prepare?
        ensures (r[i].coord, r[i].cseq) in Decided(d) <==> (r[i].coord, r[i].cseq) in Decided(d) + {(c, g)}
      {
        assert r[i] == d[u].wal.recs[d[u].mark + i];
        assert !CitesGroup(d[u].wal.recs[d[u].mark + i], c, g);
      }
      UncitedFate(Decided(d), Decided(d) + {(c, g)}, r);
    }
  }

  /** A settled log that does not look live holds no uncovered prepare. */
  lemma {:induction false} NotLiveNoPrepare(h: Home, i: nat)
    requires WfHome(h) && Settled(h) && !Live(h)
    requires h.mark <= i < |h.wal.recs|
    ensures !h.wal.recs[i].Prepare?
  {
    assert h.wal.origin <= i < h.wal.origin + h.wal.carry;
  }

  /** Rolling a log while every other watermark has caught up forgets nothing. */
  lemma {:induction false} SettledForgetsNothing(d: Disk, t: TableId)
    requires t in d && WfDisk(d)
    requires forall u :: u in d.Keys && u != t ==> Settled(d[u])
    ensures !Forgets(d, t)
  {
    if DropsDecisions(d, t) {
      forall u | u in d.Keys ensures !NeededBy(d, t, u) {
        assert WfHome(d[u]);
        if u == t {
          OwnFate(d, t);
        } else {
          assert !Live(d[u]);
          var r := Uncovered(d[u]);
          forall i | 0 <= i < |r| ensures !r[i].Prepare? { NotLiveNoPrepare(d[u], d[u].mark + i); }
          UncitedFate(Without(Decided(d), t), Decided(d), r);
        }
      }
    }
  }

  // ------------------------------------------------------------ what keeps calm

  /** Log `h'` holds no prepare to replay that `h` does not. */
  predicate NoNewPrepare(h: Home, h': Home) {
    && h.wal.nextSeq <= h'.wal.nextSeq
    && forall i {:trigger h'.wal.recs[i]} :: h'.mark <= i < |h'.wal.recs| && h'.wal.recs[i].Prepare? ==>
      h.mark <= i < |h.wal.recs| && h.wal.recs[i] == h'.wal.recs[i]
  }

  predicate NoNewPrepares(d: Disk, d': Disk) {
    d'.Keys == d.Keys && forall u {:trigger NoNewPrepare(d[u], d'[u])} :: u in d.Keys ==> NoNewPrepare(d[u], d'[u])
  }

  lemma {:induction false} StaysIssued(d: Disk, d': Disk)
    requires Issued(d) && NoNewPrepares(d, d')
    ensures Issued(d')
  {
    forall u, i | u in d'.Keys && d'[u].mark <= i < |d'[u].wal.recs| ensures CitesIssued(d', d'[u].wal.recs[i]) {
      assert NoNewPrepare(d[u], d'[u]);
      var e := d'[u].wal.recs[i];
      if e.Prepare? {
        assert CitesIssued(d, d[u].wal.recs[i]);
        assert NoNewPrepare(d[e.coord], d'[e.coord]);
      }
    }
  }

  lemma {:induction false} StaysFresh(d: Disk, d': Disk, x: Txn, x': Txn)
    requires AllFresh(d, x) && NoNewPrepares(d, d') && x'.info.Keys == x.info.Keys
    requires forall t :: t in x.info.Keys ==> x'.info[t].group == x.info[t].group && x'.info[t].lsn == x.info[t].lsn
    ensures AllFresh(d', x')
  {
    forall t | t in x'.info.Keys ensures FreshAt(d', x', t, x'.info[t].group) {
      assert FreshAt(d, x, t, x.info[t].group);
      forall u, i | u in d'.Keys && d'[u].mark <= i < |d'[u].wal.recs| && (u in x'.info ==> i < x'.info[u].lsn)
        ensures !CitesGroup(d'[u].wal.recs[i], t, x'.info[t].group)
      {
        assert NoNewPrepare(d[u], d'[u]);
        if d'[u].wal.recs[i].Prepare? { assert !CitesGroup(d[u].wal.recs[i], t, x.info[t].group); }
      }
    }
  }

  lemma {:induction false} Unchanged(d: Disk)
    ensures NoNewPrepares(d, d)
  {
  }

  lemma {:induction false} AppendCalm(d: Disk, t: TableId, e: Entry)
    requires t in d && !e.Prepare?
    ensures NoNewPrepares(d, Append(d, t, e))
  {
  }

  lemma {:induction false} FsyncCalm(d: Disk, t: TableId)
    requires t in d
    ensures NoNewPrepares(d, Fsync(d, t))
  {
  }

  lemma {:induction false} BeginCalm(d: Disk, t: TableId)
    requires t in d
    ensures NoNewPrepares(d, BeginGroup(d, t))
  {
  }

  lemma {:induction false} RewindCalm(d: Disk, t: TableId, lsn: nat)
    requires t in d
    ensures NoNewPrepares(d, Rewind(d, t, lsn))
  {
  }

  lemma {:induction false} RewindAllCalm(d: Disk, x: Txn, ts: set<TableId>)
    ensures NoNewPrepares(d, RewindAll(d, x, ts))
  {
    forall u | u in d.Keys ensures NoNewPrepare(d[u], RewindAll(d, x, ts)[u]) {
      if u in ts && u in x.info { RewindCalm(d, u, x.info[u].lsn); }
    }
  }

  lemma {:induction false} RollCalm(d: Disk, t: TableId)
    requires t in d
    ensures NoNewPrepares(d, Roll(d, t))
  {
    var kept := if MayBeCited(d, t) then DecidesOf(Segment(d[t].wal)) else [];
    forall i | 0 <= i < |kept| ensures kept[i].Decide? { assert kept[i] in kept; }
  }

  /** The table write moves the watermark to a segment that holds only carried
  decisions. */
  lemma {:induction false} WriteCalm(d: Disk, t: TableId, c: Contents)
    requires t in d && WfHome(d[t]) && |d[t].wal.recs| == d[t].wal.origin + d[t].wal.carry
    ensures NoNewPrepares(d, CommitParts(d, t, c))
  {
  }

  lemma {:induction false} Transitive(d: Disk, d': Disk, d'': Disk)
    requires NoNewPrepares(d, d') && NoNewPrepares(d', d'')
    ensures NoNewPrepares(d, d'')
  {
    forall u | u in d.Keys ensures NoNewPrepare(d[u], d''[u]) {
      assert NoNewPrepare(d[u], d'[u]) && NoNewPrepare(d'[u], d''[u]);
    }
  }

  /** Watermarks and segment starts as they were. */
  predicate SamePlaces(d: Disk, d': Disk) {
    d'.Keys == d.Keys && forall u :: u in d.Keys ==> d'[u].mark == d[u].mark && d'[u].wal.origin == d[u].wal.origin
  }

  lemma {:induction false} StaysSettled(d: Disk, d': Disk, pc: Pc, pc': Pc)
    requires SettledBut(d, pc) && SamePlaces(d, d') && !pc.Rolled?
    ensures SettledBut(d', pc')
  {
    forall u | u in d'.Keys ensures Settled(d'[u]) { assert Settled(d[u]); }
  }

  // -------------------------------------------------------------- step by step

  /** A step that adds no prepare, moves no watermark and leaves the roster's
  groups alone, or ends the transaction. */
  lemma {:induction false} PlainStepCalm(s: Sys, s': Sys)
    requires Calm(s) && !s.pc.Rolled? && NoNewPrepares(s.disk, s'.disk) && SamePlaces(s.disk, s'.disk)
    requires s'.txn.Open? ==> s.txn.Open? && SameGroups(s.txn.t, s'.txn.t)
    ensures Calm(s')
  {
    StaysIssued(s.disk, s'.disk);
    StaysSettled(s.disk, s'.disk, s.pc, s'.pc);
    if s'.txn.Open? { StaysFresh(s.disk, s'.disk, s.txn.t, s'.txn.t); }
  }

  predicate SameGroups(x: Txn, x': Txn) {
    && x'.info.Keys == x.info.Keys
    && forall t :: t in x.info.Keys ==> x'.info[t].group == x.info[t].group && x'.info[t].lsn == x.info[t].lsn
  }

  lemma {:induction false} EnlistCalm(s: Sys, t: TableId)
    requires Calm(s) && CanEnlist(s, t)
    ensures Calm(DoEnlist(s, t))
  {
    var s', d, x := DoEnlist(s, t), s.disk, s.txn.t;
    BeginCalm(d, t);
    StaysIssued(d, s'.disk);
    StaysSettled(d, s'.disk, s.pc, s'.pc);
    var x' := s'.txn.t;
    forall v | v in x'.info.Keys ensures FreshAt(s'.disk, x', v, x'.info[v].group) {
      if v in x.info { assert FreshAt(d, x, v, x.info[v].group); }
      forall u, i | u in s'.disk.Keys && s'.disk[u].mark <= i < |s'.disk[u].wal.recs| && (u in x'.info ==> i < x'.info[u].lsn)
        ensures !CitesGroup(s'.disk[u].wal.recs[i], v, x'.info[v].group)
      {
        assert s'.disk[u].wal.recs == d[u].wal.recs && CitesIssued(d, d[u].wal.recs[i]);
        if v in x.info { assert !CitesGroup(d[u].wal.recs[i], v, x.info[v].group); }
      }
    }
  }

  /** A prepare cites a number just handed out, and lies in the transaction. */
  lemma {:induction false} PrepareCalm(s: Sys)
    requires Calm(s) && Inv(s) && CanPrepare(s)
    ensures Calm(DoPrepare(s))
  {
    var s', d, x := DoPrepare(s), s.disk, s.txn.t;
    var t, c := x.order[s.pc.k], Coordinator(x);
    PreparePlace(d, x, s.pc.k, s.acked);
    forall u, i | u in s'.disk.Keys && s'.disk[u].mark <= i < |s'.disk[u].wal.recs|
      ensures CitesIssued(s'.disk, s'.disk[u].wal.recs[i])
    {
      if i < |d[u].wal.recs| { assert s'.disk[u].wal.recs[i] == d[u].wal.recs[i] && CitesIssued(d, d[u].wal.recs[i]); }
    }
    StaysSettled(d, s'.disk, s.pc, s'.pc);
    forall v | v in x.info.Keys ensures FreshAt(s'.disk, x, v, x.info[v].group) {
      assert FreshAt(d, x, v, x.info[v].group);
      forall u, i | u in s'.disk.Keys && s'.disk[u].mark <= i < |s'.disk[u].wal.recs| && (u in x.info ==> i < x.info[u].lsn)
        ensures !CitesGroup(s'.disk[u].wal.recs[i], v, x.info[v].group)
      {
        assert i < |d[u].wal.recs| && s'.disk[u].wal.recs[i] == d[u].wal.recs[i];
        assert !CitesGroup(d[u].wal.recs[i], v, x.info[v].group);
      }
    }
  }

  lemma {:induction false} PreparePlace(d: Disk, x: Txn, k: nat, acked: Tables)
    requires PreparedTo(d, acked, x, k)
    ensures var t, c := x.order[k], Coordinator(x);
      && t in x.info && c in x.info && t in d && c in d
      && x.info[t].lsn <= |d[t].wal.recs| && x.info[c].group < d[c].wal.nextSeq
  {
    var t, c := x.order[k], Coordinator(x);
    assert t in x.order && c in x.order;
    assert t in x.info.Keys && c in x.info.Keys;
    assert EnlistedOk(d, x, t, Firsts(x, k)) && EnlistedOk(d, x, c, Firsts(x, k));
  }

  lemma {:induction false} StagedCalm(d: Disk, t: TableId, e: Entry)
    requires t in d && !e.Prepare?
    ensures NoNewPrepares(d, Append(BeginGroup(d, t), t, e))
  {
    BeginCalm(d, t);
    AppendCalm(BeginGroup(d, t), t, e);
    Transitive(d, BeginGroup(d, t), Append(BeginGroup(d, t), t, e));
  }

  lemma {:induction false} AutocommitCalm(s: Sys, ev: Event)
    requires Calm(s) && Inv(s) && Enabled(s, ev) && Autocommits(ev)
    ensures Calm(Step(s, ev))
  {
    match ev {
      case LogInsert(t, b) => AppendCalm(s.disk, t, Plain(Insert(b)));
      case Sync => FsyncCalm(s.disk, s.pc.at);
      case UniqueMark => AppendCalm(s.disk, s.pc.ut, Entry.Commit(s.pc.ug));
      case Publish => Unchanged(s.disk);
      case UniqueAccept => Unchanged(s.disk);
      case UniqueStage(t, b) =>
        UniqueStageCalm(s, t, b);
        return;
      case UniqueRefuse(erased) =>
        UniqueRefuseCalm(s, erased);
        return;
    }
    PlainStepCalm(s, Step(s, ev));
  }

  lemma {:induction false} UniqueStageCalm(s: Sys, t: TableId, b: seq<Row>)
    requires Calm(s) && CanLogInsert(s, t)
    ensures Calm(DoUniqueStage(s, t, b))
  {
    StagedCalm(s.disk, t, Staged(s.disk[t].wal.nextSeq, Insert(b)));
    PlainStepCalm(s, DoUniqueStage(s, t, b));
  }

  lemma {:induction false} UniqueRefuseCalm(s: Sys, erased: bool)
    requires Calm(s) && CanUniqueRefuse(s)
    ensures Calm(DoUniqueRefuse(s, erased))
  {
    Unchanged(s.disk);
    RewindCalm(s.disk, s.pc.ut, s.pc.ulsn);
    PlainStepCalm(s, DoUniqueRefuse(s, erased));
  }

  lemma {:induction false} TransactionCalm(s: Sys, ev: Event)
    requires Calm(s) && Inv(s) && Enabled(s, ev) && Transacts(ev)
    ensures Calm(Step(s, ev))
  {
    match ev
    case Begin =>
    case Enlist(t) => EnlistCalm(s, t);
    case Stage(t, op) => StageCalm(s, t, op);
    case Sweep(t, ids, dark) => SweepCalm(s, t, ids, dark);
    case Poison =>
      Unchanged(s.disk);
      PlainStepCalm(s, DoPoison(s));
    case Rollback(rewound) =>
      RewindAllCalm(s.disk, s.txn.t, rewound);
      PlainStepCalm(s, DoRollback(s, rewound));
  }

  lemma {:induction false} StageCalm(s: Sys, t: TableId, op: Op)
    requires Calm(s) && CanStage(s, t, op)
    ensures Calm(DoStage(s, t, op))
  {
    AppendCalm(s.disk, t, Staged(s.txn.t.info[t].group, op));
    PlainStepCalm(s, DoStage(s, t, op));
  }

  lemma {:induction false} SweepCalm(s: Sys, t: TableId, ids: set<Id>, dark: multiset<Row>)
    requires Calm(s) && CanSweep(s, t, ids, dark)
    ensures Calm(DoSweep(s, t, ids, dark))
  {
    Unchanged(s.disk);
    AppendCalm(s.disk, t, Staged(s.txn.t.info[t].group, Mask(ids)));
    PlainStepCalm(s, DoSweep(s, t, ids, dark));
  }

  lemma {:induction false} CommitCalm(s: Sys, ev: Event)
    requires Calm(s) && Inv(s) && Enabled(s, ev) && CommitsOrAborts(ev)
    ensures Calm(Step(s, ev))
  {
    match ev
    case StartCommit => StartCommitCalm(s);
    case PrepareNext => PrepareCalm(s);
    case Barrier(t) => BarrierCalm(s, t);
    case Abort(rewound) => AbortCalm(s, rewound);
    case DecideAll => DecideCalm(s);
    case Undo(rewound) => UndoCalm(s, rewound);
  }

  lemma {:induction false} BarrierCalm(s: Sys, t: TableId)
    requires Calm(s) && CanBarrier(s, t)
    ensures Calm(DoBarrier(s, t))
  {
    FsyncCalm(s.disk, t);
    PlainStepCalm(s, DoBarrier(s, t));
  }

  lemma {:induction false} AbortCalm(s: Sys, rewound: set<TableId>)
    requires Calm(s) && CanAbort(s)
    ensures Calm(DoAbort(s, rewound))
  {
    RewindAllCalm(s.disk, s.txn.t, rewound);
    PlainStepCalm(s, DoAbort(s, rewound));
  }

  lemma {:induction false} UndoCalm(s: Sys, rewound: set<TableId>)
    requires Calm(s) && CanUndo(s, rewound)
    ensures Calm(DoUndo(s, rewound))
  {
    RewindAllCalm(s.disk, s.txn.t, rewound);
    PlainStepCalm(s, DoUndo(s, rewound));
  }

  lemma {:induction false} StartCommitCalm(s: Sys)
    requires Calm(s) && CanStartCommit(s)
    ensures Calm(DoStartCommit(s))
  {
    var x := s.txn.t;
    Unchanged(s.disk);
    if x.order != [] { AppendCalm(s.disk, Coordinator(x), Entry.Commit(x.info[Coordinator(x)].group)); }
    PlainStepCalm(s, DoStartCommit(s));
  }

  lemma {:induction false} DecideCalm(s: Sys)
    requires Calm(s) && CanDecide(s)
    ensures Calm(DoDecide(s))
  {
    var c := Coordinator(s.txn.t);
    AppendCalm(s.disk, c, Decide(s.txn.t.info[c].group));
    PlainStepCalm(s, DoDecide(s));
  }

  lemma {:induction false} MaintenanceCalm(s: Sys, ev: Event)
    requires Calm(s) && Inv(s) && Enabled(s, ev) && !Autocommits(ev) && !Transacts(ev) && !CommitsOrAborts(ev) && !ev.Restart?
    ensures Calm(Step(s, ev))
  {
    match ev
    case RollLog =>
      var t, s' := s.pc.ft, Step(s, ev);
      RollCalm(s.disk, t);
      StaysIssued(s.disk, s'.disk);
      forall u | u in s'.disk.Keys ensures Settled(s'.disk[u]) || s'.pc == Rolled(u) { assert Settled(s.disk[u]); }
    case WriteTable(c) =>
      var t, s' := s.pc.ft, Step(s, ev);
      assert WfHome(s.disk[t]);
      WriteCalm(s.disk, t, c);
      StaysIssued(s.disk, s'.disk);
      forall u | u in s'.disk.Keys ensures Settled(s'.disk[u]) { assert Settled(s.disk[u]) || u == t; }
    case StartFold(_) =>
      Unchanged(s.disk);
      PlainStepCalm(s, Step(s, ev));
    case Compact(_, _) =>
      Unchanged(s.disk);
      PlainStepCalm(s, Step(s, ev));
  }

  lemma {:induction false} StepCalm(s: Sys, ev: Event)
    requires Calm(s) && Inv(s) && Enabled(s, ev) && !ev.Restart?
    ensures Calm(Step(s, ev))
  {
    if Autocommits(ev) {
      AutocommitCalm(s, ev);
    } else if Transacts(ev) {
      TransactionCalm(s, ev);
    } else if CommitsOrAborts(ev) {
      CommitCalm(s, ev);
    } else {
      MaintenanceCalm(s, ev);
    }
  }

  // ------------------------------------------------------------------ whole runs

  /** A crash that left every citation below its coordinator's new counter and
  every watermark caught up. */
  predicate Undamaged(img: Disk) {
    Issued(Reopened(img)) && forall u {:trigger Settled(img[u])} :: u in img.Keys ==> Settled(img[u])
  }

  predicate Harmless(ev: Event) { ev.Restart? ==> Undamaged(ev.img) }

  predicate OnlyHarmless(events: seq<Event>) {
    forall k {:trigger Harmless(events[k])} :: 0 <= k < |events| ==> Harmless(events[k])
  }

  lemma {:induction false} RestartCalm(img: Disk)
    requires Undamaged(img)
    ensures Calm(DoRestart(img))
  {
    var s := DoRestart(img);
    assert s.disk == Reopened(img);
    forall u | u in s.disk.Keys ensures Settled(s.disk[u]) { assert Settled(img[u]); }
  }

  lemma {:induction false} HarmlessStepCalm(s: Sys, ev: Event)
    requires Calm(s) && Inv(s) && Enabled(s, ev) && Harmless(ev)
    ensures Calm(Step(s, ev))
  {
    if ev.Restart? { RestartCalm(ev.img); } else { StepCalm(s, ev); }
  }

  lemma {:induction false} OnlyHarmlessNext(events: seq<Event>, ev: Event)
    ensures OnlyHarmless(events + [ev]) <==> OnlyHarmless(events) && Harmless(ev)
  {
    var more := events + [ev];
    assert more[|events|] == ev;
    forall k | 0 <= k < |events| ensures Harmless(more[k]) <==> Harmless(events[k]) {}
  }

  predicate NoRestart(events: seq<Event>) { forall k :: 0 <= k < |events| ==> !events[k].Restart? }

  lemma {:induction false} NoRestartNext(events: seq<Event>, ev: Event)
    ensures NoRestart(events + [ev]) <==> NoRestart(events) && !ev.Restart?
  {
    var more := events + [ev];
    assert more[|events|] == ev;
    assert forall k :: 0 <= k < |events| ==> more[k] == events[k];
  }

  lemma {:induction false} InitCalm(s: Sys)
    requires Init(s)
    ensures Calm(s)
  {
  }

  lemma {:induction false} HarmlessPrefix(events: seq<Event>, i: nat)
    requires 0 < i <= |events| && OnlyHarmless(events[..i])
    ensures OnlyHarmless(events[..i - 1]) && Harmless(events[i - 1])
  {
    forall k | 0 <= k < i ensures Harmless(events[k]) { assert Harmless(events[..i][k]); }
  }

  /** A harmless step at `k` keeps calm. */
  predicate StaysCalm(states: seq<Sys>, events: seq<Event>, k: nat)
    requires k < |events| && |states| == |events| + 1
  {
    Calm(states[k]) && Harmless(events[k]) ==> Calm(states[k + 1])
  }

  lemma {:induction false} NextCalm(states: seq<Sys>, events: seq<Event>, k: nat)
    requires IsRun(states, events) && k < |events|
    ensures StaysCalm(states, events, k)
  {
    RunInv(states, events, k);
    assert IsStep(states[k], events[k], states[k + 1]);
    if Calm(states[k]) && Harmless(events[k]) { HarmlessStepCalm(states[k], events[k]); }
  }

  lemma {:induction false} CalmUpTo(states: seq<Sys>, events: seq<Event>, i: nat)
    requires |states| == |events| + 1 && i < |states| && Calm(states[0]) && OnlyHarmless(events[..i])
    requires forall k {:trigger StaysCalm(states, events, k)} :: 0 <= k < |events| ==> StaysCalm(states, events, k)
    ensures Calm(states[i])
    decreases i
  {
    if i > 0 {
      HarmlessPrefix(events, i);
      CalmUpTo(states, events, i - 1);
      assert StaysCalm(states, events, i - 1);
    }
  }

  lemma {:induction false} RunCalm(states: seq<Sys>, events: seq<Event>, i: nat)
    requires IsRun(states, events) && i < |states| && OnlyHarmless(events[..i])
    ensures Calm(states[i])
  {
    InitCalm(states[0]);
    forall k | 0 <= k < |events| ensures StaysCalm(states, events, k) { NextCalm(states, events, k); }
    CalmUpTo(states, events, i);
  }

  /** Until a crash does damage the guards refuse nothing: wherever the engine
  would decide or roll, it may. */
  lemma {:induction false} GuardsOnlyAfterDamage(states: seq<Sys>, events: seq<Event>, i: nat)
    requires IsRun(states, events) && i < |states| && OnlyHarmless(events[..i])
    ensures CanDecide(states[i]) ==> Enabled(states[i], DecideAll)
    ensures CanRoll(states[i]) ==> Enabled(states[i], RollLog)
  {
    var s := states[i];
    RunCalm(states, events, i);
    RunInv(states, events, i);
    if CanDecide(s) { CalmRevivesNothing(s.disk, s.txn.t); }
    if CanRoll(s) {
      forall u | u in s.disk.Keys && u != s.pc.ft ensures Settled(s.disk[u]) {}
      SettledForgetsNothing(s.disk, s.pc.ft);
    }
  }

  // ------------------------------------------------------------ states of some run

  /** Some run ends in `s`, without a restart unless it has `crashed`. */
  ghost predicate Reached(s: Sys, crashed: bool) { exists states, events :: EndsIn(states, events, s, crashed) }

  ghost predicate EndsIn(states: seq<Sys>, events: seq<Event>, s: Sys, crashed: bool) {
    IsRun(states, events) && states[|events|] == s && (crashed || NoRestart(events))
  }

  lemma {:induction false} ReachedFirst(s: Sys)
    requires Init(s)
    ensures Reached(s, false)
  {
    assert EndsIn([s], [], s, false);
  }

  lemma {:induction false} EndsInNext(states: seq<Sys>, events: seq<Event>, s: Sys, crashed: bool, ev: Event)
    requires EndsIn(states, events, s, crashed) && Enabled(s, ev)
    ensures EndsIn(states + [Step(s, ev)], events + [ev], Step(s, ev), crashed || ev.Restart?)
  {
    RunNext(states, events, ev);
    NoRestartNext(events, ev);
  }

  lemma {:induction false} ReachedNext(s: Sys, crashed: bool, ev: Event)
    requires Reached(s, crashed) && Enabled(s, ev)
    ensures Reached(Step(s, ev), crashed || ev.Restart?)
  {
    var states, events :| EndsIn(states, events, s, crashed);
    EndsInNext(states, events, s, crashed, ev);
  }

  lemma {:induction false} ReachedUnguarded(s: Sys)
    requires Reached(s, false)
    ensures CanDecide(s) ==> Enabled(s, DecideAll)
    ensures CanRoll(s) ==> Enabled(s, RollLog)
  {
    var states, events :| EndsIn(states, events, s, false);
    assert events[..|events|] == events;
    GuardsOnlyAfterDamage(states, events, |events|);
  }
}
