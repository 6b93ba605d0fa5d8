/** The write paths as the engine runs them, statement by statement: each is a
sequence of machine steps, so a crash anywhere inside is a crash between two
states of a run. */
module Engine {
  import opened Storage
  import opened Log
  import opened Disk
  import opened Machine
  import opened Recovery
  import opened Lifecycle
  import opened Appending
  import opened Commits
  import opened Uncrashed
  import opened Rows

  /** None of the first `k` tables is in `failing`. */
  predicate FirstsClear(order: seq<TableId>, k: nat, failing: set<TableId>)
    requires k <= |order|
  {
    forall i :: 0 <= i < k ==> order[i] !in failing
  }

  /** Every enlisted table but the last, which coordinates. */
  function Earlier(order: seq<TableId>): set<TableId> { set i | 0 <= i < |order| - 1 :: order[i] }

  lemma {:induction false} OnlyOne(order: seq<TableId>, c: TableId)
    requires NoDup(order) && c in order && forall i :: 0 <= i < |order| ==> order[i] == c
    ensures order == [c]
  {
    if |order| >= 2 {
      FirstTwoDiffer(order);
      assert false;
    }
  }

  lemma {:induction false} FirstTwoDiffer(order: seq<TableId>)
    requires NoDup(order) && |order| >= 2
    ensures order[0] != order[1]
  {
  }

  /** Appending to enlisted logs, and syncing, touches no older record. */
  lemma {:induction false} SameOlder(d: Disk, d': Disk, x: Txn)
    requires x.order != [] && Coordinator(x) in x.info && d'.Keys == d.Keys && Decided(d') == Decided(d)
    requires forall u :: u in d.Keys ==> Older(d', x, u) == Older(d, x, u)
    ensures Revives(d', x) <==> Revives(d, x)
  {
    forall u | u in d.Keys ensures RevivesIn(d', x, u) <==> RevivesIn(d, x, u) {
      assert Older(d', x, u) == Older(d, x, u);
    }
  }

  lemma {:induction false} PrepareOlder(d: Disk, acked: Tables, x: Txn, k: nat, e: Entry)
    requires PreparedTo(d, acked, x, k) && x.order[k] in d && e.Prepare? && Coordinator(x) in x.info
    ensures Revives(Append(d, x.order[k], e), x) <==> Revives(d, x)
  {
    var t := x.order[k];
    var d' := Append(d, t, e);
    PreparePlace(d, x, k, acked);
    assert WfHome(d[t]);
    AppendDecisions(d, t, e);
    assert EnlistedOk(d, x, t, Firsts(x, k));
    assert d'[t].wal.recs[d[t].mark..x.info[t].lsn] == d[t].wal.recs[d[t].mark..x.info[t].lsn];
    SameOlder(d, d', x);
  }

  lemma {:induction false} BarrierOlder(d: Disk, x: Txn, t: TableId)
    requires t in d && x.order != [] && Coordinator(x) in x.info
    ensures Revives(Fsync(d, t), x) <==> Revives(d, x)
  {
    DecidedSame(d, Fsync(d, t));
    SameOlder(d, Fsync(d, t), x);
  }

  /** What the open transaction sees of table `t`. */
  function ViewIn(s: Sys, t: TableId): Contents
    requires s.txn.Open? && t in s.mem
  {
    if t in s.txn.t.info then s.txn.t.info[t].view else s.mem[t]
  }

  /** The transaction may write to `t`: a folding table is alone in its own. */
  predicate Admits(x: Txn, t: TableId) { t in x.info || forall u :: u in x.info.Keys ==> !x.info[u].fold }

  /** `x'` is `x` but for table `t`, which is enlisted last if it was not. */
  predicate Grown(x: Txn, x': Txn, t: TableId) {
    && x'.order == (if t in x.info then x.order else x.order + [t])
    && x'.info.Keys == x.info.Keys + {t}
    && forall u :: u in x.info && u != t ==> x'.info[u] == x.info[u]
  }

  /** What the key check says, and what an accepted block leaves, row by row. */
  lemma {:induction false} UniqueSaid(c: Contents, block: seq<Row>)
    ensures KeysFresh(c, block) <==> LosesNone(c, block)
    ensures Inserted(c, block, Apply(Insert(block), c))
    ensures KeysFresh(c, block) ==> AllThere(c, block, Apply(Insert(block), c))
  {
    FreshIff(c, block);
    ApplyDoes(Insert(block), c);
    if KeysFresh(c, block) { FreshAllThere(c, block); }
  }

  /** What may go wrong inside one COMMIT: flushing the buffers, some tables'
  prepares or barriers, appending the commit point, syncing it. */
  datatype Faults = Faults(flush: bool, prepares: set<TableId>, barriers: set<TableId>, point: bool, sync: bool)

  /** A fault the COMMIT of `x` comes upon.  One of a single table prepares
  nothing, one that folds has no commit point in the log. */
  predicate Hits(x: Txn, f: Faults)
    requires x.order != [] ==> Coordinator(x) in x.info
  {
    && x.order != []
    && (f.flush || (!x.info[Coordinator(x)].fold && (f.point || f.sync || HitsEarlier(x.order, f))))
  }

  /** A fault that stops the COMMIT before its first step: no buffer flushed, or
  a lone table's marker not appended. */
  predicate HitsEarly(x: Txn, f: Faults)
    requires x.order != [] ==> Coordinator(x) in x.info
  {
    x.order != [] && (f.flush || (!x.info[Coordinator(x)].fold && |x.order| == 1 && f.point))
  }

  predicate HitsEarlier(order: seq<TableId>, f: Faults) {
    exists t :: t in Earlier(order) && (t in f.prepares || t in f.barriers)
  }

  class Engine {
    var sys: Sys
    ghost var states: seq<Sys>
    ghost var events: seq<Event>

    /** The recorded history is a run that ends in the present state. */
    ghost predicate Valid()
      reads this
    {
      IsRun(states, events) && states[|events|] == sys
    }

    constructor (s: Sys)
      requires Init(s)
      ensures Valid() && sys == s && states == [s]
    {
      sys := s;
      states := [s];
      events := [];
    }

    lemma {:induction false} Holds()
      requires Valid()
      ensures Inv(sys)
    {
      RunInv(states, events, |events|);
    }

    // What the invariant says at each point, without the invariant itself.

    lemma {:induction false} AtRest()
      requires Valid()
      ensures sys.disk.Keys == sys.mem.Keys == sys.acked.Keys
      ensures sys.pc.Idle? ==> sys.mem == sys.acked
      ensures sys.pc.Appended? ==> sys.pc.at in sys.disk
    {
      Holds();
    }

    lemma {:induction false} RosterReady()
      requires Valid() && sys.pc.Idle? && sys.txn.Open?
      ensures sys.txn.t.order != [] ==> Coordinator(sys.txn.t) in sys.txn.t.info
    {
      Holds();
      if sys.txn.t.order != [] { assert Coordinator(sys.txn.t) in sys.txn.t.order; }
    }

    lemma {:induction false} CommitReady()
      requires Valid() && Healthy(sys)
      ensures CanStartCommit(sys)
      ensures sys.txn.t.order == [] ==> sys.txn.t.info == map[] && NextOf(sys.acked, sys.txn.t) == sys.acked
      ensures forall c :: c in sys.txn.t.info && sys.txn.t.info[c].fold ==> sys.txn.t.info.Keys == {c} && sys.txn.t.order == [c]
    {
      Holds();
      var x := sys.txn.t;
      forall i | 0 <= i < |x.order| ensures x.order[i] in x.info { assert x.order[i] in x.order; }
      if x.order == [] { assert x.info.Keys == {}; }
      forall c | c in x.info && x.info[c].fold ensures x.info.Keys == {c} && x.order == [c] {
        assert EnlistedOk(sys.disk, x, c, {});
        assert c in x.order;
        forall i | 0 <= i < |x.order| ensures x.order[i] == c { assert x.order[i] in x.order; }
        OnlyOne(x.order, c);
      }
    }

    lemma {:induction false} PrepareReady()
      requires Valid() && sys.pc.Preparing?
      ensures CanPrepare(sys)
    {
      Holds();
      var x := sys.txn.t;
      assert x.order[sys.pc.k] in x.order && Coordinator(x) in x.order;
      assert x.order[sys.pc.k] in x.info.Keys && Coordinator(x) in x.info.Keys;
    }

    lemma {:induction false} BarrierReady(t: TableId)
      requires Valid() && sys.pc.Barriers? && sys.txn.Open? && t in Earlier(sys.txn.t.order)
      ensures CanBarrier(sys, t)
    {
      Holds();
      var x := sys.txn.t;
      var i :| 0 <= i < |x.order| - 1 && x.order[i] == t;
      assert t in x.order && t in x.info.Keys;
    }

    lemma {:induction false} DecideReady()
      requires Valid() && sys.pc.Barriers? && sys.txn.Open? && Earlier(sys.txn.t.order) <= sys.pc.done
      ensures CanDecide(sys)
    {
      Holds();
      var x := sys.txn.t;
      assert Coordinator(x) in x.order && Coordinator(x) in x.info.Keys;
    }

    /** No crash has done damage yet, or the decision about to be made revives nothing. */
    ghost predicate MayDecide()
      reads this
      requires sys.txn.Open? && sys.txn.t.order != [] && Coordinator(sys.txn.t) in sys.txn.t.info
    {
      OnlyHarmless(events) || !Revives(sys.disk, sys.txn.t)
    }

    /** No crash has done damage yet, or rolling `t` forgets nothing. */
    ghost predicate MayRoll(t: TableId)
      reads this
      requires t in sys.disk
    {
      OnlyHarmless(events) || !Forgets(sys.disk, t)
    }

    lemma Unguarded()
      requires Valid() && OnlyHarmless(events)
      ensures CanDecide(sys) ==> Enabled(sys, DecideAll)
      ensures CanRoll(sys) ==> Enabled(sys, Event.RollLog)
    {
      assert events[..|events|] == events;
      GuardsOnlyAfterDamage(states, events, |events|);
    }

    /** The history has grown, and no crash has done damage since. */
    ghost predicate Continues(states0: seq<Sys>, events0: seq<Event>)
      reads this
    {
      states0 <= states && (OnlyHarmless(events0) ==> OnlyHarmless(events))
    }

    /** Record that the state just left took event `ev`. */
    ghost method Record(before: Sys, ev: Event)
      requires IsRun(states, events) && states[|events|] == before
      requires Enabled(before, ev) && sys == Step(before, ev)
      modifies this`states, this`events
      ensures Valid() && states == old(states) + [sys] && events == old(events) + [ev]
      ensures OnlyHarmless(events) <==> OnlyHarmless(old(events)) && Harmless(ev)
    {
      RunNext(states, events, ev);
      OnlyHarmlessNext(events, ev);
      states := states + [sys];
      events := events + [ev];
    }

    /** A crash, of which `img` is left, and the engine opened again on it. */
    method Reopen(img: Disk)
      requires Valid() && CrashImage(sys.disk, img)
      modifies this
      ensures Valid() && old(states) <= states && Quiescent(sys) && sys.mem == sys.acked
      ensures Undamaged(img) ==> Continues(old(states), old(events))
      ensures Outcome(old(sys), img) && forall t :: t in img.Keys ==> t in sys.acked && sys.acked[t] == Recovered(img, t)
    {
      RecoveryRefinesMemory(states, events, |events|, img);
      ghost var s0 := sys;
      sys := DoRestart(img);
      Record(s0, Restart(img));
    }

    /** An autocommit INSERT into a table without UNIQUE: log, sync, apply. */
    method Insert(t: TableId, block: seq<Row>)
      requires Valid() && Quiescent(sys) && t in sys.disk
      modifies this
      ensures Valid() && Continues(old(states), old(events)) && Quiescent(sys)
      ensures t in old(sys.acked)
      ensures sys.acked == old(sys.acked)[t := Apply(Op.Insert(block), old(sys.acked)[t])]
      ensures Inserted(old(sys.acked)[t], block, sys.acked[t])
      ensures sys.mem == sys.acked
    {
      AtRest();
      ApplyDoes(Op.Insert(block), sys.acked[t]);
      ghost var s0 := sys;
      sys := DoLogInsert(sys, t, block);
      Record(s0, LogInsert(t, block));
      SyncAndPublish();
    }

    /** Sync the log that took the commit point, then publish. */
    method SyncAndPublish()
      requires Valid() && CanSync(sys)
      modifies this
      ensures Valid() && Continues(old(states), old(events)) && Quiescent(sys)
      ensures sys.acked == old(sys.pc.next) && sys.mem == sys.acked
    {
      ghost var s1 := sys;
      sys := DoSync(sys);
      Record(s1, Sync);
      ghost var s2 := sys;
      sys := DoPublish(sys);
      Record(s2, Publish);
    }

    /** An autocommit INSERT into a UNIQUE table: stage, check, then either mark
    and sync, or erase.  A block is accepted exactly when it loses no row; a
    refused one leaves no trace in what is acknowledged. */
    method InsertUnique(t: TableId, block: seq<Row>) returns (ok: bool)
      requires Valid() && Quiescent(sys) && t in sys.disk
      modifies this
      ensures Valid() && Continues(old(states), old(events)) && Quiescent(sys) && sys.mem == sys.acked
      ensures t in old(sys.acked) && old(sys.mem) == old(sys.acked) && ok == LosesNone(old(sys.acked)[t], block)
      ensures sys.acked == if ok then old(sys.acked)[t := Apply(Op.Insert(block), old(sys.acked)[t])] else old(sys.acked)
      ensures ok ==> AllThere(old(sys.acked)[t], block, sys.acked[t]) && Inserted(old(sys.acked)[t], block, sys.acked[t])
    {
      AtRest();
      UniqueSaid(sys.acked[t], block);
      StageUnique(t, block);
      ok := KeysFresh(sys.mem[t], block);
      if ok { AcknowledgeUnique(); } else { RefuseUnique(); }
      AtRest();
    }

    /** The block staged under a group of its own. */
    method StageUnique(t: TableId, block: seq<Row>)
      requires Valid() && Quiescent(sys) && t in sys.disk
      modifies this
      ensures Valid() && Continues(old(states), old(events))
      ensures sys.acked == old(sys.acked) && sys.mem == old(sys.mem) && sys.txn.NoTxn?
      ensures t in sys.disk && t in sys.mem && t in sys.acked
      ensures sys.pc.UniqueStaged? && sys.pc.ut == t && sys.pc.block == block
    {
      AtRest();
      ghost var s0 := sys;
      sys := DoUniqueStage(sys, t, block);
      Record(s0, UniqueStage(t, block));
      AtRest();
    }

    /** The refused block's record is erased, or left inert. */
    method RefuseUnique()
      requires Valid() && CanUniqueRefuse(sys) && sys.txn.NoTxn?
      modifies this
      ensures Valid() && Continues(old(states), old(events)) && Quiescent(sys) && sys.acked == old(sys.acked)
    {
      var erased: bool := *;
      ghost var s0 := sys;
      sys := DoUniqueRefuse(sys, erased);
      Record(s0, UniqueRefuse(erased));
    }

    /** The accepted block is applied, marked and synced. */
    method AcknowledgeUnique()
      requires Valid() && CanUniqueAccept(sys) && sys.pc.ut in sys.disk && sys.pc.ut in sys.acked
      modifies this
      ensures Valid() && Continues(old(states), old(events)) && Quiescent(sys)
      ensures sys.acked == old(sys.acked)[old(sys.pc.ut) := Apply(Op.Insert(old(sys.pc.block)), old(sys.acked)[old(sys.pc.ut)])]
    {
      ghost var s1 := sys;
      sys := DoUniqueAccept(sys);
      Record(s1, UniqueAccept);
      ghost var s2 := sys;
      sys := DoUniqueMark(sys);
      Record(s2, UniqueMark);
      SyncAndPublish();
    }

    // --------------------------------------------------------------- transactions

    method Begin()
      requires Valid() && Quiescent(sys)
      modifies this
      ensures Valid() && Continues(old(states), old(events))
      ensures Healthy(sys) && sys.txn.t == Txn([], map[], false)
      ensures sys.acked == old(sys.acked) && sys.mem == old(sys.mem) && sys.disk == old(sys.disk)
    {
      ghost var s0 := sys;
      sys := DoBegin(sys);
      Record(s0, Event.Begin);
    }

    /** A statement failed: nothing but the transaction's end is left. */
    method Poison()
      requires Valid() && sys.pc.Idle? && sys.txn.Open?
      modifies this
      ensures Valid() && Continues(old(states), old(events))
      ensures sys == old(sys).(txn := Open(old(sys.txn).t.(poisoned := true)))
    {
      ghost var s0 := sys;
      sys := DoPoison(sys);
      Record(s0, Event.Poison);
    }

    /** Bring `t` into the transaction on its first write; refused, and the
    statement with it, beside a table that folds. */
    method Enlist(t: TableId) returns (ok: bool)
      requires Valid() && Healthy(sys) && t in sys.disk
      modifies this
      ensures Valid() && Continues(old(states), old(events)) && sys.pc.Idle?
      ensures sys.acked == old(sys.acked) && sys.mem == old(sys.mem) && sys.disk.Keys == old(sys.disk).Keys
      ensures ok == Admits(old(sys.txn).t, t) && t in sys.mem && sys.txn.Open? && sys.txn.t.poisoned == !ok
      ensures !ok ==> sys.disk == old(sys.disk) && sys.txn.t.info == old(sys.txn).t.info
      ensures ok ==> t in sys.txn.t.info && ViewIn(sys, t) == old(ViewIn(sys, t)) && Grown(old(sys.txn).t, sys.txn.t, t)
      ensures ok ==> sys.txn.t.info[t].fold == old(t in sys.txn.t.info && sys.txn.t.info[t].fold)
    {
      AtRest();
      ok := Admits(sys.txn.t, t);
      if !ok {
        Poison();
      } else if t !in sys.txn.t.info {
        ghost var s0 := sys;
        sys := DoEnlist(sys, t);
        Record(s0, Event.Enlist(t));
      }
    }

    /** One staged record, and the view it leaves. */
    method Stage(t: TableId, op: Op)
      requires Valid() && CanStage(sys, t, op)
      modifies this
      ensures Valid() && Continues(old(states), old(events)) && sys == DoStage(old(sys), t, op)
    {
      ghost var s0 := sys;
      sys := DoStage(sys, t, op);
      Record(s0, Event.Stage(t, op));
    }

    method EnlistAndStage(t: TableId, op: Op) returns (ok: bool)
      requires Valid() && Healthy(sys) && t in sys.disk && t in sys.mem && Loggable(op, ViewIn(sys, t))
      modifies this
      ensures Valid() && Continues(old(states), old(events)) && sys.pc.Idle?
      ensures sys.acked == old(sys.acked) && sys.mem == old(sys.mem) && sys.disk.Keys == old(sys.disk).Keys
      ensures ok == Admits(old(sys.txn).t, t) && sys.txn.Open? && sys.txn.t.poisoned == !ok
      ensures ok ==> ViewIn(sys, t) == Apply(op, old(ViewIn(sys, t))) && Grown(old(sys.txn).t, sys.txn.t, t)
      ensures ok ==> t in sys.txn.t.info && sys.txn.t.info[t].fold == old(t in sys.txn.t.info && sys.txn.t.info[t].fold)
    {
      ok := Enlist(t);
      if ok { Stage(t, op); }
    }

    /** A write inside a transaction: enlist, stage the record, apply it to the
    private view.  A UNIQUE table's refusal comes after its record is staged. */
    method Write(t: TableId, op: Op, unique: bool) returns (ok: bool)
      requires Valid() && Healthy(sys) && t in sys.disk
      requires t in sys.mem ==> Loggable(op, ViewIn(sys, t))
      modifies this
      ensures Valid() && Continues(old(states), old(events)) && sys.pc.Idle?
      ensures sys.acked == old(sys.acked) && sys.mem == old(sys.mem) && sys.disk.Keys == old(sys.disk).Keys
      ensures t in sys.mem && sys.txn.Open? && sys.txn.t.poisoned == !ok
      ensures ok == (Admits(old(sys.txn).t, t) && (unique && op.Insert? ==> LosesNone(old(ViewIn(sys, t)), op.block)))
      ensures ok ==> ViewIn(sys, t) == Apply(op, old(ViewIn(sys, t))) && Grown(old(sys.txn).t, sys.txn.t, t)
      ensures ok ==> Does(op, old(ViewIn(sys, t)), ViewIn(sys, t))
      ensures ok && unique && op.Insert? ==> AllThere(old(ViewIn(sys, t)), op.block, ViewIn(sys, t))
      ensures ok ==> t in sys.txn.t.info && sys.txn.t.info[t].fold == old(t in sys.txn.t.info && sys.txn.t.info[t].fold)
    {
      AtRest();
      ApplyDoes(op, ViewIn(sys, t));
      if op.Insert? { UniqueSaid(ViewIn(sys, t), op.block); }
      var clash := unique && op.Insert? && !KeysFresh(ViewIn(sys, t), op.block);
      ok := EnlistAndStage(t, op);
      if ok && clash {
        Poison();
        ok := false;
      }
    }

    /** A sweep that hides rows no record can name: alone in its transaction the
    table will fold, beside another the statement fails. */
    method Sweep(t: TableId, ids: set<Id>, dark: multiset<Row>) returns (ok: bool)
      requires Valid() && Healthy(sys) && t in sys.disk
      requires t in sys.mem ==> ViewIn(sys, t).Unkeyed?
      requires t in sys.mem ==> ids <= ViewIn(sys, t).cited.Keys && dark <= ViewIn(sys, t).dark && dark != multiset{}
      modifies this
      ensures Valid() && Continues(old(states), old(events)) && sys.pc.Idle?
      ensures sys.acked == old(sys.acked) && sys.mem == old(sys.mem) && sys.disk.Keys == old(sys.disk).Keys
      ensures t in sys.mem && sys.txn.Open? && sys.txn.t.poisoned == !ok
      ensures ok == (old(sys.txn).t.info.Keys <= {t})
      ensures ok ==> ViewIn(sys, t) == Unkeyed(old(ViewIn(sys, t)).cited - ids, old(ViewIn(sys, t)).dark - dark)
      ensures ok ==> Grown(old(sys.txn).t, sys.txn.t, t) && t in sys.txn.t.info && sys.txn.t.info[t].fold
    {
      AtRest();
      ghost var was := ViewIn(sys, t);
      ok := Enlist(t);
      if ok {
        ghost var s0 := sys;
        ok := sys.txn.t.info.Keys == {t};
        assert sys.txn.t.info[t].view == was;
        sys := DoSweep(sys, t, ids, dark);
        Record(s0, Event.Sweep(t, ids, dark));
      }
    }

    /** ROLLBACK: each log is rewound or keeps its dead bytes. */
    method Rollback()
      requires Valid() && sys.pc.Idle? && sys.txn.Open?
      modifies this
      ensures Valid() && Continues(old(states), old(events)) && Quiescent(sys)
      ensures sys.acked == old(sys.acked) && sys.mem == old(sys.mem) && sys.mem == sys.acked
    {
      AtRest();
      var rewound: set<TableId> := *;
      ghost var s0 := sys;
      sys := DoRollback(sys, rewound);
      Record(s0, Event.Rollback(rewound));
    }

    // -------------------------------------------------------- folding, compaction

    /** A fold at a statement boundary. */
    method Fold(t: TableId, settled: Contents)
      requires Valid() && Quiescent(sys) && t in sys.disk && MayRoll(t)
      requires t in sys.mem ==> SameRows(sys.mem[t], settled) && (settled.Unkeyed? ==> settled.dark == multiset{})
      modifies this
      ensures Valid() && Continues(old(states), old(events)) && Quiescent(sys)
      ensures sys.acked == old(sys.acked)[t := settled] && sys.mem == sys.acked
    {
      AtRest();
      ghost var s0 := sys;
      sys := DoStartFold(sys, t);
      Record(s0, StartFold(t));
      FoldToParts(t, settled);
      AtRest();
    }

    /** A merge of parts: the rows stay, some durable identities go. */
    method Compact(t: TableId, merged: Contents)
      requires Valid() && CanCompact(sys, t, merged)
      modifies this
      ensures Valid() && Continues(old(states), old(events)) && Quiescent(sys)
      ensures sys.acked == old(sys.acked)[t := merged] && sys.mem == sys.acked && sys.disk == old(sys.disk)
    {
      AtRest();
      ghost var s0 := sys;
      sys := DoCompact(sys, t, merged);
      Record(s0, Event.Compact(t, merged));
    }

    /** Seal the log's segment and begin the next. */
    method RollLog(t: TableId)
      requires Valid() && sys.pc == Folding(t) && t in sys.disk && MayRoll(t)
      modifies this
      ensures Valid() && Continues(old(states), old(events)) && sys == DoRoll(old(sys))
    {
      ghost var s0 := sys;
      if OnlyHarmless(events) { Unguarded(); }
      sys := DoRoll(sys);
      Record(s0, Event.RollLog);
    }

    /** Fold one table's log into parts: roll, then commit the table file with
    the parts `settled` that were written out. */
    method FoldToParts(t: TableId, settled: Contents)
      requires Valid() && sys.pc == Folding(t) && t in sys.disk && t in sys.mem && MayRoll(t)
      requires SameRows(sys.mem[t], settled) && (settled.Unkeyed? ==> settled.dark == multiset{})
      modifies this
      ensures Valid() && Continues(old(states), old(events)) && sys.pc.Idle? && sys.txn == old(sys.txn)
      ensures sys.acked == old(sys.acked)[t := settled] && sys.mem == old(sys.mem)[t := settled]
    {
      RollLog(t);
      ghost var s1 := sys;
      sys := DoWriteTable(sys, settled);
      Record(s1, WriteTable(settled));
    }

    /** COMMIT.  A poisoned transaction is rolled back.  `settled` is what a
    folding table's parts hold once written, `f` what goes wrong.  It succeeds
    exactly when nothing it comes upon does, and either publishes every enlisted
    view or leaves what is acknowledged alone. */
    method Commit(settled: Contents, f: Faults) returns (ok: bool)
      requires Valid() && sys.pc.Idle? && sys.txn.Open?
      requires forall c :: c in sys.txn.t.info && sys.txn.t.info[c].fold ==>
        SameRows(sys.txn.t.info[c].view, settled) && (settled.Unkeyed? ==> settled.dark == multiset{})
      requires forall c :: c in sys.txn.t.info && c in sys.disk && sys.txn.t.info[c].fold ==> MayRoll(c)
      requires sys.txn.t.order != [] && Coordinator(sys.txn.t) in sys.txn.t.info ==> MayDecide()
      modifies this
      ensures Valid() && Continues(old(states), old(events)) && Quiescent(sys) && sys.mem == sys.acked
      ensures !ok ==> sys.acked == old(sys.acked)
      ensures old(sys.txn).t.order != [] ==> Coordinator(old(sys.txn).t) in old(sys.txn).t.info
      ensures ok <==> !old(sys.txn).t.poisoned && !Hits(old(sys.txn).t, f)
      ensures ok && (forall c :: c in old(sys.txn).t.info ==> !old(sys.txn).t.info[c].fold) ==>
        sys.acked == NextOf(old(sys.acked), old(sys.txn).t)
      ensures forall c :: ok && c in old(sys.txn).t.info && old(sys.txn).t.info[c].fold ==> sys.acked == old(sys.acked)[c := settled]
    {
      RosterReady();
      if sys.txn.t.poisoned || HitsEarly(sys.txn.t, f) {
        Rollback();
        return false;
      }
      CommitReady();
      TakeCommit();
      ok := true;
      if sys.pc.Folding? {
        FoldToParts(sys.pc.ft, settled);
      } else if !sys.pc.Idle? {
        ok := TwoPhase(f);
      }
      AtRest();
    }

    /** COMMIT's first step: nothing to do, a table to fold, a lone marker, or
    the first prepare to come. */
    method TakeCommit()
      requires Valid() && Healthy(sys) && CanStartCommit(sys)
      requires forall c :: c in sys.txn.t.info && c in sys.disk && sys.txn.t.info[c].fold ==> MayRoll(c)
      requires sys.txn.t.order != [] && Coordinator(sys.txn.t) in sys.txn.t.info ==> MayDecide()
      modifies this
      ensures Valid() && Continues(old(states), old(events)) && sys.acked == old(sys.acked) && sys.mem.Keys == sys.acked.Keys
      ensures var x := old(sys.txn).t;
        if x.order == [] then Quiescent(sys)
        else
          var c := Coordinator(x);
          if x.info[c].fold then
            sys.txn.NoTxn? && sys.pc == Folding(c) && c in sys.disk && MayRoll(c) && sys.mem == old(sys.mem)[c := x.info[c].view]
          else
            && sys.txn == old(sys.txn)
            && (if |x.order| == 1 then sys.pc.Appended? && sys.pc.next == NextOf(sys.acked, x) else sys.pc == Preparing(0))
            && (sys.pc.Preparing? ==> MayDecide())
    {
      StartCommit();
      AtRest();
    }

    method StartCommit()
      requires Valid() && CanStartCommit(sys)
      modifies this
      ensures Valid() && Continues(old(states), old(events)) && sys == DoStartCommit(old(sys))
    {
      ghost var s0 := sys;
      sys := DoStartCommit(sys);
      Record(s0, Event.StartCommit);
    }

    /** Phase one and two: every prepare is appended, every barrier issued and
    joined, and only then is the decision written and synced. */
    method TwoPhase(f: Faults) returns (ok: bool)
      requires Valid() && sys.txn.Open? && sys.txn.t.order != [] && Coordinator(sys.txn.t) in sys.txn.t.info
      requires if |sys.txn.t.order| == 1 then sys.pc.Appended? && sys.pc.next == NextOf(sys.acked, sys.txn.t)
        else sys.pc == Preparing(0)
      requires sys.pc.Preparing? ==> MayDecide()
      modifies this
      ensures Valid() && Continues(old(states), old(events)) && Quiescent(sys)
      ensures sys.acked == if ok then NextOf(old(sys.acked), old(sys.txn).t) else old(sys.acked)
      ensures ok <==> !f.sync && (|old(sys.txn).t.order| >= 2 ==> !f.point && !HitsEarlier(old(sys.txn).t.order, f))
    {
      ok := true;
      if sys.pc.Preparing? {
        ok := PrepareAll(f.prepares);
        if ok { ok := Decision(f); }
      }
      if ok { ok := MakeDurable(f.sync); }
    }

    /** Sync the commit point and publish; or, the sync having failed, rewind
    the coordinator's log and whichever others can be. */
    method MakeDurable(failed: bool) returns (ok: bool)
      requires Valid() && sys.pc.Appended? && sys.txn.Open?
      modifies this
      ensures Valid() && Continues(old(states), old(events)) && Quiescent(sys)
      ensures sys.acked == if ok then old(sys.pc.next) else old(sys.acked)
      ensures ok == !failed
    {
      AtRest();
      if failed {
        ghost var s0 := sys;
        var rewound: set<TableId> := *;
        var at := sys.pc.at;
        sys := DoUndo(sys, rewound + {at});
        Record(s0, Undo(rewound + {at}));
        return false;
      }
      SyncAndPublish();
      return true;
    }

    /** Append every participant's prepare, in the order of enlistment; one that
    fails aborts, and what logs the abort could rewind is out of our hands. */
    method PrepareAll(failing: set<TableId>) returns (ok: bool)
      requires Valid() && sys.txn.Open? && sys.pc == Preparing(0)
      requires sys.txn.t.order != [] && Coordinator(sys.txn.t) in sys.txn.t.info && MayDecide()
      modifies this
      ensures Valid() && Continues(old(states), old(events)) && sys.acked == old(sys.acked)
      ensures ok <==> Earlier(old(sys.txn).t.order) !! failing
      ensures ok ==> sys.txn == old(sys.txn) && sys.pc == Barriers({}) && MayDecide()
      ensures !ok ==> Quiescent(sys)
    {
      ghost var acked0, txn0, hist, done := sys.acked, sys.txn, states, events;
      PrepareReady();
      while sys.pc.Preparing?
        invariant Valid() && Continues(hist, done) && sys.acked == acked0 && sys.txn == txn0 && MayDecide()
        invariant sys.pc.Preparing? || sys.pc == Barriers({})
        invariant sys.pc.Preparing? ==> sys.pc.k + 1 < |txn0.t.order| && FirstsClear(txn0.t.order, sys.pc.k, failing)
        invariant sys.pc.Barriers? ==> FirstsClear(txn0.t.order, |txn0.t.order| - 1, failing)
        decreases if sys.pc.Preparing? then |txn0.t.order| - sys.pc.k else 0
      {
        PrepareReady();
        if sys.txn.t.order[sys.pc.k] in failing {
          GiveUp();
          return false;
        }
        PrepareOne();
      }
      return true;
    }

    /** One prepare. */
    method PrepareOne()
      requires Valid() && sys.txn.Open? && sys.pc.Preparing? && CanPrepare(sys) && MayDecide()
      modifies this
      ensures Valid() && sys.acked == old(sys.acked) && sys.txn == old(sys.txn) && MayDecide()
      ensures Continues(old(states), old(events))
      ensures sys.pc == if old(sys.pc.k) + 2 == |sys.txn.t.order| then Barriers({}) else Preparing(old(sys.pc.k) + 1)
      ensures sys.pc.Preparing? ==> sys.pc.k + 1 < |sys.txn.t.order|
    {
      Holds();
      ghost var s0, x := sys, sys.txn.t;
      ghost var t, c := x.order[sys.pc.k], Coordinator(x);
      PrepareOlder(sys.disk, sys.acked, x, sys.pc.k, Prepare(x.info[t].group, c, x.info[c].group));
      sys := DoPrepare(sys);
      Record(s0, PrepareNext);
    }

    /** Abandon the COMMIT: each log is rewound or keeps its dead bytes. */
    method GiveUp()
      requires Valid() && CanAbort(sys)
      modifies this
      ensures Valid() && Continues(old(states), old(events)) && Quiescent(sys) && sys.acked == old(sys.acked)
    {
      var rewound: set<TableId> := *;
      ghost var s0 := sys;
      sys := DoAbort(sys, rewound);
      Record(s0, Abort(rewound));
    }

    /** Issue every participant's barrier, in any order, and join them all. */
    method JoinBarriers(failing: set<TableId>) returns (ok: bool)
      requires Valid() && sys.txn.Open? && sys.pc == Barriers({})
      requires sys.txn.t.order != [] && Coordinator(sys.txn.t) in sys.txn.t.info && MayDecide()
      modifies this
      ensures Valid() && Continues(old(states), old(events)) && sys.acked == old(sys.acked) && sys.txn == old(sys.txn) && sys.pc.Barriers?
      ensures MayDecide() && (ok ==> Earlier(sys.txn.t.order) <= sys.pc.done)
      ensures ok <==> Earlier(sys.txn.t.order) !! failing
    {
      var pending := Earlier(sys.txn.t.order);
      ghost var all, hist, done, acked0, txn0 := pending, states, events, sys.acked, sys.txn;
      ok := true;
      while pending != {}
        invariant Valid() && Continues(hist, done) && sys.acked == acked0 && sys.txn == txn0 && sys.pc.Barriers? && MayDecide()
        invariant pending <= all
        invariant ok ==> all <= pending + sys.pc.done
        invariant ok <==> all - pending !! failing
        decreases pending
      {
        var t :| t in pending;
        pending := pending - {t};
        if t !in failing {
          BarrierReady(t);
          BarrierOlder(sys.disk, sys.txn.t, t);
          ghost var s0 := sys;
          sys := DoBarrier(sys, t);
          Record(s0, Barrier(t));
        } else {
          ok := false;
        }
      }
    }

    /** The decision is written only if no barrier failed; otherwise, or if it
    cannot be appended, the COMMIT is abandoned. */
    method Decision(f: Faults) returns (ok: bool)
      requires Valid() && sys.txn.Open? && sys.pc == Barriers({})
      requires sys.txn.t.order != [] && Coordinator(sys.txn.t) in sys.txn.t.info && MayDecide()
      modifies this
      ensures Valid() && Continues(old(states), old(events)) && sys.acked == old(sys.acked)
      ensures ok <==> !f.point && Earlier(old(sys.txn).t.order) !! f.barriers
      ensures ok ==> sys.txn.Open? && sys.pc.Appended? && sys.pc.next == NextOf(old(sys.acked), old(sys.txn).t)
      ensures !ok ==> Quiescent(sys)
    {
      ok := JoinBarriers(f.barriers);
      ok := ok && !f.point;
      if ok {
        DecideReady();
        if OnlyHarmless(events) { Unguarded(); }
        ghost var s1 := sys;
        sys := DoDecide(sys);
        Record(s1, DecideAll);
      } else {
        GiveUp();
      }
    }
  }

  lemma {:induction false} TwoViews(was: Tables, x: Txn, t: TableId, u: TableId)
    requires t != u && t in was && u in was && x.info.Keys == {t, u}
    ensures NextOf(was, x) == was[t := x.info[t].view][u := x.info[u].view]
  {
  }

  lemma {:induction false} EarlierPair(t: TableId, u: TableId)
    ensures Earlier([t, u]) == {t}
  {
    assert [t, u][0] in Earlier([t, u]);
  }

  /** BEGIN and one write. */
  method StageOne(e: Engine, t: TableId, a: Op)
    requires e.Valid() && Quiescent(e.sys) && t in e.sys.disk
    requires t in e.sys.mem ==> Loggable(a, e.sys.mem[t])
    modifies e
    ensures e.Valid() && e.Continues(old(e.states), old(e.events)) && Healthy(e.sys)
    ensures e.sys.acked == old(e.sys.acked) && e.sys.mem == old(e.sys.mem) && e.sys.disk.Keys == old(e.sys.disk).Keys
    ensures t in e.sys.mem
    ensures var x := e.sys.txn.t;
      x.order == [t] && x.info.Keys == {t} && !x.info[t].fold && x.info[t].view == Apply(a, e.sys.mem[t])
  {
    e.Begin();
    var _ := e.Write(t, a, false);
  }

  /** BEGIN and two writes. */
  method StageBoth(e: Engine, t: TableId, a: Op, u: TableId, b: Op)
    requires e.Valid() && Quiescent(e.sys) && t != u && t in e.sys.disk && u in e.sys.disk
    requires t in e.sys.mem ==> Loggable(a, e.sys.mem[t])
    requires u in e.sys.mem ==> Loggable(b, e.sys.mem[u])
    modifies e
    ensures e.Valid() && e.Continues(old(e.states), old(e.events)) && Healthy(e.sys)
    ensures e.sys.acked == old(e.sys.acked) && e.sys.mem == old(e.sys.mem) && t in e.sys.mem && u in e.sys.mem
    ensures var x := e.sys.txn.t;
      && x.order == [t, u] && x.info.Keys == {t, u} && !x.info[t].fold && !x.info[u].fold
      && x.info[t].view == Apply(a, e.sys.mem[t]) && x.info[u].view == Apply(b, e.sys.mem[u])
  {
    StageOne(e, t, a);
    var _ := e.Write(u, b, false);
  }

  /** BEGIN, two writes and COMMIT, as a client runs them: both tables move or
  neither does, whatever fails. */
  method WriteBoth(e: Engine, t: TableId, a: Op, u: TableId, b: Op, f: Faults) returns (ok: bool)
    requires e.Valid() && OnlyHarmless(e.events) && Quiescent(e.sys) && t != u && t in e.sys.disk && u in e.sys.disk
    requires t in e.sys.acked ==> Loggable(a, e.sys.acked[t])
    requires u in e.sys.acked ==> Loggable(b, e.sys.acked[u])
    modifies e
    ensures e.Valid() && e.Continues(old(e.states), old(e.events)) && Quiescent(e.sys) && e.sys.mem == e.sys.acked
    ensures t in old(e.sys.acked) && u in old(e.sys.acked)
    ensures var was := old(e.sys.acked);
      e.sys.acked == if ok then was[t := Apply(a, was[t])][u := Apply(b, was[u])] else was
    ensures ok ==> Does(a, old(e.sys.acked)[t], e.sys.acked[t]) && Does(b, old(e.sys.acked)[u], e.sys.acked[u])
    ensures ok <==> !f.flush && !f.point && !f.sync && t !in f.prepares + f.barriers
  {
    e.AtRest();
    StageBoth(e, t, a, u, b);
    ghost var was := e.sys.acked;
    TwoViews(was, e.sys.txn.t, t, u);
    ok := CommitBoth(e, t, u, f);
    if ok { BothDone(was, e.sys.acked, t, a, u, b); }
  }

  lemma {:induction false} BothDone(was: Tables, now: Tables, t: TableId, a: Op, u: TableId, b: Op)
    requires t != u && t in was && u in was && Loggable(a, was[t]) && Loggable(b, was[u])
    requires now == was[t := Apply(a, was[t])][u := Apply(b, was[u])]
    ensures Does(a, was[t], now[t]) && Does(b, was[u], now[u])
  {
    ApplyDoes(a, was[t]);
    ApplyDoes(b, was[u]);
  }

  /** COMMIT of two tables, neither of which folds. */
  method CommitBoth(e: Engine, t: TableId, u: TableId, f: Faults) returns (ok: bool)
    requires e.Valid() && OnlyHarmless(e.events) && Healthy(e.sys) && t in e.sys.mem
    requires var x := e.sys.txn.t; x.order == [t, u] && x.info.Keys == {t, u} && !x.info[t].fold && !x.info[u].fold
    modifies e
    ensures e.Valid() && e.Continues(old(e.states), old(e.events)) && Quiescent(e.sys) && e.sys.mem == e.sys.acked
    ensures e.sys.acked == if ok then NextOf(old(e.sys.acked), old(e.sys.txn).t) else old(e.sys.acked)
    ensures ok <==> !f.flush && !f.point && !f.sync && t !in f.prepares + f.barriers
  {
    EarlierPair(t, u);
    var parts := e.sys.mem[t];
    ok := e.Commit(parts, f);
  }
}
