/** The durable half of a database: per table, the committed part list with its
watermark and a segmented log, of which only a prefix is known to be on the
platter. */
module Disk {
  import opened Storage
  import opened Log

  /** One table's log.  Positions count records over the whole stream; `origin`
  is where the active segment starts and its first `carry` records are
  decisions carried over from the segment before.  `headSeq` is the group
  counter the active segment's header recorded. */
  datatype Wal = Wal(recs: seq<Entry>, durable: nat, origin: nat, carry: nat, headSeq: nat, nextSeq: nat)

  /** `parts` is what the table's commit record names, `mark` the log position
  those parts already cover. */
  datatype Home = Home(wal: Wal, parts: Contents, mark: nat)

  type Disk = map<TableId, Home>

  /** The decisions other logs can find here: sealed segments are not searched. */
  function ActiveDecisions(w: Wal): set<nat> {
    set j | w.origin <= j < |w.recs| && w.recs[j].Decide? :: w.recs[j].group
  }

  function Decided(d: Disk): Decisions {
    set t, g | t in d.Keys && g in ActiveDecisions(d[t].wal) :: (t, g)
  }

  function From(recs: seq<Entry>, n: nat): seq<Entry> { if n <= |recs| then recs[n..] else [] }

  /** The records the parts do not cover, which replay starts from. */
  function Uncovered(h: Home): seq<Entry> { From(h.wal.recs, h.mark) }

  /** The records no barrier has made durable. */
  function Unsynced(w: Wal): seq<Entry> { From(w.recs, w.durable) }

  /** The active segment, carried decisions first. */
  function Segment(w: Wal): seq<Entry> { From(w.recs, w.origin) }

  /** The mutations replay applies to table `t`. */
  function Replayed(d: Disk, t: TableId): seq<Op>
    requires t in d
  {
    Survivors(Decided(d), Uncovered(d[t]))
  }

  /** What opening the database rebuilds for table `t`. */
  function Recovered(d: Disk, t: TableId): Contents
    requires t in d
  {
    ApplyAll(Replayed(d, t), d[t].parts)
  }

  // ---------------------------------------------------------------- primitives

  function SetWal(d: Disk, t: TableId, w: Wal): Disk
    requires t in d
  {
    d[t := d[t].(wal := w)]
  }

  function Append(d: Disk, t: TableId, e: Entry): Disk
    requires t in d
  {
    SetWal(d, t, d[t].wal.(recs := d[t].wal.recs + [e]))
  }

  function Fsync(d: Disk, t: TableId): Disk
    requires t in d
  {
    SetWal(d, t, d[t].wal.(durable := |d[t].wal.recs|))
  }

  function BeginGroup(d: Disk, t: TableId): Disk
    requires t in d
  {
    SetWal(d, t, d[t].wal.(nextSeq := d[t].wal.nextSeq + 1))
  }

  function Min(a: nat, b: nat): nat { if a < b then a else b }
  function Max(a: nat, b: nat): nat { if a < b then b else a }

  /** Cut the log back to its first `lsn` records. */
  function Rewind(d: Disk, t: TableId, lsn: nat): Disk
    requires t in d
  {
    var w := d[t].wal;
    if lsn >= |w.recs| then d
    else SetWal(d, t, w.(recs := w.recs[..lsn], durable := Min(w.durable, lsn)))
  }

  /** Something is left to replay, as far as the active segment can tell. */
  predicate Live(h: Home) {
    |h.wal.recs| > Max(h.wal.origin + h.wal.carry, h.mark)
  }

  predicate MayBeCited(d: Disk, t: TableId) {
    exists u :: u in d.Keys && u != t && Live(d[u])
  }

  /** The decisions in a stretch of log, in log order. */
  function DecidesOf(recs: seq<Entry>): (r: seq<Entry>)
    ensures forall e :: e in r <==> e in recs && e.Decide?
  {
    if recs == [] then [] else
      (if recs[0].Decide? then [recs[0]] else []) + DecidesOf(recs[1..])
  }

  /** Seal the active segment and publish its successor in one rename, carrying
  forward the decisions a sibling log may still cite. */
  function RollWal(d: Disk, t: TableId): Wal
    requires t in d
  {
    var w := d[t].wal;
    var empty := |w.recs| == w.origin + w.carry;
    var kept := if MayBeCited(d, t) then DecidesOf(Segment(w)) else [];
    if empty && (w.carry == 0 || kept != []) then w
    else Wal(w.recs + kept, |w.recs| + |kept|, |w.recs|, |kept|, w.nextSeq, w.nextSeq)
  }

  /** The first group number no record mentions. */
  function NextFree(recs: seq<Entry>): (n: nat)
    ensures forall e :: e in recs && !e.Plain? ==> e.group < n
  {
    if recs == [] then 0 else
      var n := NextFree(recs[1..]);
      if recs[0].Plain? then n else Max(n, recs[0].group + 1)
  }

  /** Opening a log after a crash: what is in the file is all there is, and the
  group counter restarts above the header's and above every number seen in the
  active segment. */
  function Reopen(w: Wal): Wal {
    w.(nextSeq := Max(w.headSeq, NextFree(Segment(w))))
  }

  // --------------------------------------------------------------------- crash

  /** A crash keeps each log's durable prefix and any part of its unsynced
  tail, independently per log; parts are published by rename and survive.
  What is found in a file afterwards is on the platter. */
  predicate CrashImage(d: Disk, img: Disk) {
    && img.Keys == d.Keys
    && forall t :: t in d.Keys ==> Survives(d[t], img[t])
  }

  predicate Survives(h: Home, k: Home) {
    && h.wal.durable <= |k.wal.recs| <= |h.wal.recs|
    && k == h.(wal := h.wal.(recs := h.wal.recs[..|k.wal.recs|], durable := |k.wal.recs|))
  }

  // ---------------------------------------------------------------- invariants

  predicate WfHome(h: Home) {
    var w := h.wal;
    && w.origin + w.carry <= w.durable <= |w.recs|
    && h.mark <= w.durable
    && w.headSeq <= w.nextSeq
    && (forall i :: 0 <= i < |w.recs| && !w.recs[i].Plain? ==> w.recs[i].group < w.nextSeq)
    && (forall i :: 0 <= i < w.origin && !w.recs[i].Plain? ==> w.recs[i].group < w.headSeq)
    && (forall i :: w.origin <= i < w.origin + w.carry ==> w.recs[i].Decide?)
    && (forall i, j :: 0 <= i < j < |w.recs| && w.recs[i].Decide? && w.recs[j].Staged? ==> w.recs[i].group != w.recs[j].group)
  }

  /** Every prepare still to be replayed cites another log and, unless it is
  durable, a number that log has already handed out. */
  predicate CitesOld(d: Disk, t: TableId)
    requires t in d
  {
    var h := d[t];
    forall i :: h.mark <= i < |h.wal.recs| && h.wal.recs[i].Prepare? ==>
      && h.wal.recs[i].coord in d && h.wal.recs[i].coord != t
      && (h.wal.durable <= i ==> h.wal.recs[i].cseq < d[h.wal.recs[i].coord].wal.nextSeq)
  }

  predicate WfDisk(d: Disk) {
    forall t {:trigger WfHome(d[t])} {:trigger CitesOld(d, t)} :: t in d.Keys ==> WfHome(d[t]) && CitesOld(d, t)
  }

  /** Nothing a crash could lose matters to recovery. */
  predicate Stable(d: Disk) {
    forall t {:trigger Unsynced(d[t].wal)} :: t in d.Keys ==> AllInert(Decided(d), Unsynced(d[t].wal))
  }

  ghost predicate Agrees(c: map<TableId, Contents>, d: Disk) {
    && c.Keys == d.Keys
    && forall t {:trigger Recovered(d, t)} :: t in d.Keys ==> Agree(c[t], Recovered(d, t))
  }

  // -------------------------------------------------------------------- lemmas

  lemma {:induction false} DecidedIff(d: Disk, t: TableId, g: nat)
    ensures (t, g) in Decided(d) <==>
      t in d && exists j :: d[t].wal.origin <= j < |d[t].wal.recs| && d[t].wal.recs[j] == Decide(g)
  {
    if t in d {
      if g in ActiveDecisions(d[t].wal) {
        var j :| d[t].wal.origin <= j < |d[t].wal.recs| && d[t].wal.recs[j].Decide? && d[t].wal.recs[j].group == g;
        assert d[t].wal.recs[j] == Decide(g);
      }
    }
  }

  /** Two disks whose logs' active segments hold the same decisions. */
  lemma {:induction false} DecidedSame(d: Disk, d': Disk)
    requires d.Keys == d'.Keys
    requires forall t :: t in d.Keys ==> ActiveDecisions(d[t].wal) == ActiveDecisions(d'[t].wal)
    ensures Decided(d) == Decided(d')
  {
  }

  lemma {:induction false} CrashKeepsDecisions(d: Disk, img: Disk, t: TableId)
    requires CrashImage(d, img) && t in d
    requires WfHome(d[t])
    requires AllInert(Decided(d), Unsynced(d[t].wal))
    ensures ActiveDecisions(d[t].wal) == ActiveDecisions(img[t].wal)
  {
    var w, v := d[t].wal, img[t].wal;
    forall j | w.origin <= j < |w.recs| && w.recs[j].Decide? ensures j < |v.recs| && v.recs[j] == w.recs[j] {
    }
    forall j | v.origin <= j < |v.recs| && v.recs[j].Decide? ensures v.recs[j] == w.recs[j] {}
  }

  /** A crash of a stable disk changes nothing recovery can see. */
  lemma {:induction false} StableCrash(d: Disk, img: Disk)
    requires WfDisk(d) && Stable(d) && CrashImage(d, img)
    ensures forall t :: t in d ==> Recovered(img, t) == Recovered(d, t)
    ensures Decided(img) == Decided(d)
  {
    forall t | t in d.Keys ensures ActiveDecisions(d[t].wal) == ActiveDecisions(img[t].wal) {
      CrashKeepsDecisions(d, img, t);
    }
    DecidedSame(d, img);
    forall t | t in d ensures Recovered(img, t) == Recovered(d, t) {
      var h, n := d[t], |img[t].wal.recs|;
      assert WfHome(h);
      var lost := h.wal.recs[n..];
      assert AllInert(Decided(d), lost) by {
        forall i | 0 <= i < |lost| ensures Inert(Decided(d), lost[i]) {
          assert lost[i] == Unsynced(h.wal)[n + i - h.wal.durable];
        }
      }
      assert Uncovered(h) == Uncovered(img[t]) + lost;
      InertSuffix(Decided(d), Uncovered(img[t]), lost);
    }
  }

  lemma {:induction false} StableCrashAgrees(c: map<TableId, Contents>, d: Disk, img: Disk)
    requires WfDisk(d) && Stable(d) && CrashImage(d, img) && Agrees(c, d)
    ensures Agrees(c, img)
  {
    StableCrash(d, img);
  }

  /** Table `t` recovers alike from two disks that hold it alike and answer its
  citations alike. */
  lemma {:induction false} RecoveredAlike(d: Disk, d': Disk, t: TableId)
    requires t in d && t in d'
    requires d'[t].mark == d[t].mark && d'[t].parts == d[t].parts && d'[t].wal.recs == d[t].wal.recs
    requires forall i :: d[t].mark <= i < |d[t].wal.recs| && d[t].wal.recs[i].Prepare? ==>
      ((d[t].wal.recs[i].coord, d[t].wal.recs[i].cseq) in Decided(d)
       <==> (d[t].wal.recs[i].coord, d[t].wal.recs[i].cseq) in Decided(d'))
    ensures Recovered(d', t) == Recovered(d, t)
  {
    SurvivorsCongruent(Decided(d), Decided(d'), Uncovered(d[t]));
  }

  lemma {:induction false} AppendDecisions(d: Disk, t: TableId, e: Entry)
    requires t in d && WfHome(d[t])
    ensures e.Decide? ==> Decided(Append(d, t, e)) == Decided(d) + {(t, e.group)}
    ensures !e.Decide? ==> Decided(Append(d, t, e)) == Decided(d)
  {
    var d' := Append(d, t, e);
    forall u: TableId, g: nat ensures (u, g) in Decided(d') <==> (u, g) in Decided(d) || (e == Decide(g) && u == t) {
      DecidedIff(d, u, g);
      DecidedIff(d', u, g);
      if u == t {
        var r := d[t].wal.recs;
        if (u, g) in Decided(d) {
          var j :| d[t].wal.origin <= j < |r| && r[j] == Decide(g);
          assert d'[t].wal.recs[j] == Decide(g);
        }
        if e == Decide(g) {
          assert d'[t].wal.recs[|r|] == Decide(g);
        }
      }
    }
    assert forall p :: p in Decided(d') ==> (p.0, p.1) in Decided(d');
    assert forall p :: p in Decided(d) ==> (p.0, p.1) in Decided(d);
  }
}
