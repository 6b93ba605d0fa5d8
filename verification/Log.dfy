/** One table's write-ahead log, and what replaying it yields. */
module Log {
  import opened Storage

  type TableId = nat

  /** A framed record.  `Prepare` releases its group only if log `coord` holds
  the decision `cseq`; `Decide` is a commit marker other logs may cite. */
  datatype Entry =
    | Plain(op: Op)
    | Staged(group: nat, op: Op)
    | Commit(group: nat)
    | Decide(group: nat)
    | Prepare(group: nat, coord: TableId, cseq: nat)

  type Decisions = set<(TableId, nat)>

  /** Does `e` release the group `g`, given the decisions of the cited logs? */
  predicate Releases(dec: Decisions, e: Entry, g: nat) {
    match e
    case Commit(s) => s == g
    case Decide(s) => s == g
    case Prepare(s, c, cs) => s == g && (c, cs) in dec
    case _ => false
  }

  predicate ReleasedIn(dec: Decisions, recs: seq<Entry>, g: nat) {
    exists j :: 0 <= j < |recs| && Releases(dec, recs[j], g)
  }

  /** The mutations the log stands for: every plain record, and every staged
  record behind which some marker releases its group, in log order. */
  function Survivors(dec: Decisions, recs: seq<Entry>): seq<Op>
    decreases |recs|
  {
    if recs == [] then [] else
      var rest := Survivors(dec, recs[1..]);
      match recs[0]
      case Plain(op) => [op] + rest
      case Staged(g, op) => if ReleasedIn(dec, recs[1..], g) then [op] + rest else rest
      case _ => rest
  }

  // ------------------------------------------------------------- the replay loop

  /** The loop's state: every mutation scanned so far, and the staged ones
  still waiting for a marker, each with its place in `out`. */
  datatype Scan = Scan(out: seq<Op>, staged: seq<(nat, nat)>)

  function Retain(staged: seq<(nat, nat)>, g: nat): (r: seq<(nat, nat)>)
    ensures forall p :: p in r <==> p in staged && p.0 != g
  {
    if staged == [] then [] else
      (if staged[0].0 != g then [staged[0]] else []) + Retain(staged[1..], g)
  }

  function ScanStep(dec: Decisions, st: Scan, e: Entry): Scan {
    match e
    case Plain(op) => st.(out := st.out + [op])
    case Staged(g, op) => Scan(st.out + [op], st.staged + [(g, |st.out|)])
    case Commit(g) => st.(staged := Retain(st.staged, g))
    case Decide(g) => st.(staged := Retain(st.staged, g))
    case Prepare(g, c, cs) =>
      if (c, cs) in dec then st.(staged := Retain(st.staged, g)) else st
  }

  function ScanAll(dec: Decisions, st: Scan, recs: seq<Entry>): Scan
    decreases |recs|
  {
    if recs == [] then st else ScanAll(dec, ScanStep(dec, st, recs[0]), recs[1..])
  }

  /** `out` without the positions in `dead`. */
  function Strip(out: seq<Op>, dead: set<nat>): seq<Op>
    decreases |out|
  {
    if out == [] then [] else
      var k := |out| - 1;
      Strip(out[..k], dead) + (if k in dead then [] else [out[k]])
  }

  function Orphans(staged: seq<(nat, nat)>): set<nat> { set p | p in staged :: p.1 }

  /** The positions that stay orphaned once the markers in `recs` are seen. */
  ghost function StillDead(dec: Decisions, st: Scan, recs: seq<Entry>): set<nat> {
    set p | p in st.staged && !ReleasedIn(dec, recs, p.0) :: p.1
  }

  lemma {:induction false} StripCongruent(out: seq<Op>, a: set<nat>, b: set<nat>)
    requires forall k :: 0 <= k < |out| ==> (k in a <==> k in b)
    ensures Strip(out, a) == Strip(out, b)
    decreases |out|
  {
    if out != [] { StripCongruent(out[..|out| - 1], a, b); }
  }

  lemma {:induction false} StripSnoc(out: seq<Op>, op: Op, dead: set<nat>)
    ensures Strip(out + [op], dead) == Strip(out, dead) + (if |out| in dead then [] else [op])
  {
    assert (out + [op])[..|out|] == out;
  }

  lemma {:induction false} ReleasedInCons(dec: Decisions, recs: seq<Entry>, g: nat)
    requires recs != []
    ensures ReleasedIn(dec, recs, g) <==> Releases(dec, recs[0], g) || ReleasedIn(dec, recs[1..], g)
  {
    if ReleasedIn(dec, recs, g) && !Releases(dec, recs[0], g) {
      var j :| 0 <= j < |recs| && Releases(dec, recs[j], g);
      assert recs[1..][j - 1] == recs[j];
    }
    if ReleasedIn(dec, recs[1..], g) {
      var j :| 0 <= j < |recs[1..]| && Releases(dec, recs[1..][j], g);
      assert recs[j + 1] == recs[1..][j];
    }
  }

  /** Scanning a mutation leaves the fate of the earlier ones alone. */
  lemma {:induction false} DeadAfterMutation(dec: Decisions, st: Scan, recs: seq<Entry>, k: nat)
    requires recs != [] && (recs[0].Plain? || recs[0].Staged?)
    requires k < |st.out|
    ensures k in StillDead(dec, st, recs) <==> k in StillDead(dec, ScanStep(dec, st, recs[0]), recs[1..])
  {
    var st' := ScanStep(dec, st, recs[0]);
    forall g ensures ReleasedIn(dec, recs, g) <==> ReleasedIn(dec, recs[1..], g) {
      ReleasedInCons(dec, recs, g);
    }
    if k in StillDead(dec, st, recs) {
      var p :| p in st.staged && !ReleasedIn(dec, recs, p.0) && p.1 == k;
      assert p in st'.staged;
    }
    if k in StillDead(dec, st', recs[1..]) {
      var p :| p in st'.staged && !ReleasedIn(dec, recs[1..], p.0) && p.1 == k;
      assert p in st.staged;
    }
  }

  /** The mutation just scanned is orphaned exactly if nothing behind it
  releases its group. */
  lemma {:induction false} NewestDead(dec: Decisions, st: Scan, recs: seq<Entry>)
    requires recs != [] && (recs[0].Plain? || recs[0].Staged?)
    requires forall p :: p in st.staged ==> p.1 < |st.out|
    ensures |st.out| in StillDead(dec, ScanStep(dec, st, recs[0]), recs[1..])
            <==> recs[0].Staged? && !ReleasedIn(dec, recs[1..], recs[0].group)
  {
    var st' := ScanStep(dec, st, recs[0]);
    if recs[0].Staged? {
      assert (recs[0].group, |st.out|) in st'.staged;
    }
  }

  /** A marker's retain and the markers behind it compose. */
  lemma {:induction false} DeadAfterMarker(dec: Decisions, st: Scan, recs: seq<Entry>)
    requires recs != [] && !recs[0].Plain? && !recs[0].Staged?
    ensures StillDead(dec, st, recs) == StillDead(dec, ScanStep(dec, st, recs[0]), recs[1..])
  {
    forall g ensures ReleasedIn(dec, recs, g) <==> Releases(dec, recs[0], g) || ReleasedIn(dec, recs[1..], g) {
      ReleasedInCons(dec, recs, g);
    }
  }

  /** What one scanned record does to the orphan-free output and the mutations
  still to come. */
  lemma {:induction false} ScanStepMeaning(dec: Decisions, st: Scan, recs: seq<Entry>)
    requires recs != [] && forall p :: p in st.staged ==> p.1 < |st.out|
    ensures var st' := ScanStep(dec, st, recs[0]);
      Strip(st'.out, StillDead(dec, st', recs[1..])) + Survivors(dec, recs[1..])
      == Strip(st.out, StillDead(dec, st, recs)) + Survivors(dec, recs)
  {
    var e, rest := recs[0], recs[1..];
    var st' := ScanStep(dec, st, e);
    var dead, dead' := StillDead(dec, st, recs), StillDead(dec, st', rest);
    if e.Plain? || e.Staged? {
      StripSnoc(st.out, e.op, dead');
      NewestDead(dec, st, recs);
      forall k | 0 <= k < |st.out| ensures k in dead <==> k in dead' {
        DeadAfterMutation(dec, st, recs, k);
      }
      StripCongruent(st.out, dead, dead');
    } else {
      DeadAfterMarker(dec, st, recs);
    }
  }

  lemma {:induction false} ScanAllMeaning(dec: Decisions, st: Scan, recs: seq<Entry>)
    requires forall p :: p in st.staged ==> p.1 < |st.out|
    ensures var fin := ScanAll(dec, st, recs);
      Strip(fin.out, Orphans(fin.staged))
      == Strip(st.out, StillDead(dec, st, recs)) + Survivors(dec, recs)
    decreases |recs|
  {
    if recs == [] {
      assert StillDead(dec, st, recs) == Orphans(st.staged);
    } else {
      ScanStepMeaning(dec, st, recs);
      ScanAllMeaning(dec, ScanStep(dec, st, recs[0]), recs[1..]);
    }
  }

  /** The replay primitive: one pass that collects every mutation, drops from
  the waiting list whatever a marker releases, and filters the orphans at the
  end.  It yields exactly the surviving mutations. */
  method ReplayEntries(dec: Decisions, recs: seq<Entry>) returns (ops: seq<Op>)
    ensures ops == Survivors(dec, recs)
  {
    var out: seq<Op> := [];
    var staged: seq<(nat, nat)> := [];
    var i := 0;
    while i < |recs|
      invariant 0 <= i <= |recs|
      invariant ScanAll(dec, Scan(out, staged), recs[i..]) == ScanAll(dec, Scan([], []), recs)
    {
      assert recs[i..][1..] == recs[i + 1..];
      match recs[i] {
        case Plain(op) => out := out + [op];
        case Staged(g, op) =>
          staged := staged + [(g, |out|)];
          out := out + [op];
        case Commit(g) => staged := Retain(staged, g);
        case Decide(g) => staged := Retain(staged, g);
        case Prepare(g, c, cs) =>
          if (c, cs) in dec { staged := Retain(staged, g); }
      }
      i := i + 1;
    }
    ScanAllMeaning(dec, Scan([], []), recs);
    var dead := Orphans(staged);
    ops := [];
    var k := 0;
    while k < |out|
      invariant 0 <= k <= |out|
      invariant ops == Strip(out[..k], dead)
    {
      assert out[..k + 1] == out[..k] + [out[k]];
      StripSnoc(out[..k], out[k], dead);
      if k !in dead { ops := ops + [out[k]]; }
      k := k + 1;
    }
    assert out[..k] == out;
  }

  // ------------------------------------------------------- how a log may be split

  lemma {:induction false} ReleasedInAppend(dec: Decisions, a: seq<Entry>, b: seq<Entry>, g: nat)
    ensures ReleasedIn(dec, a + b, g) <==> ReleasedIn(dec, a, g) || ReleasedIn(dec, b, g)
  {
    var ab := a + b;
    if ReleasedIn(dec, ab, g) {
      var j :| 0 <= j < |ab| && Releases(dec, ab[j], g);
      if j < |a| { assert Releases(dec, a[j], g); } else { assert Releases(dec, b[j - |a|], g); }
    }
    if ReleasedIn(dec, a, g) {
      var j :| 0 <= j < |a| && Releases(dec, a[j], g);
      assert Releases(dec, ab[j], g);
    }
    if ReleasedIn(dec, b, g) {
      var j :| 0 <= j < |b| && Releases(dec, b[j], g);
      assert Releases(dec, ab[j + |a|], g);
    }
  }

  /** A suffix that releases nothing staged before it contributes on its own. */
  lemma {:induction false} SurvivorsSplit(dec: Decisions, a: seq<Entry>, b: seq<Entry>)
    requires forall i :: 0 <= i < |a| && a[i].Staged? ==> !ReleasedIn(dec, b, a[i].group)
    ensures Survivors(dec, a + b) == Survivors(dec, a) + Survivors(dec, b)
    decreases |a|
  {
    if a == [] {
      assert a + b == b;
    } else {
      assert (a + b)[1..] == a[1..] + b;
      forall i | 0 <= i < |a[1..]| && a[1..][i].Staged? ensures !ReleasedIn(dec, b, a[1..][i].group) {
        assert a[1..][i] == a[i + 1];
      }
      SurvivorsSplit(dec, a[1..], b);
      if a[0].Staged? { ReleasedInAppend(dec, a[1..], b, a[0].group); }
    }
  }

  /** Two sets of decisions that answer every citation in `recs` alike replay
  `recs` alike. */
  lemma {:induction false} SurvivorsCongruent(dec: Decisions, dec': Decisions, recs: seq<Entry>)
    requires forall i :: 0 <= i < |recs| && recs[i].Prepare? ==>
      ((recs[i].coord, recs[i].cseq) in dec <==> (recs[i].coord, recs[i].cseq) in dec')
    ensures Survivors(dec, recs) == Survivors(dec', recs)
    decreases |recs|
  {
    if recs != [] {
      var rest := recs[1..];
      forall i | 0 <= i < |rest| && rest[i].Prepare?
        ensures (rest[i].coord, rest[i].cseq) in dec <==> (rest[i].coord, rest[i].cseq) in dec'
      {
        assert rest[i] == recs[i + 1];
      }
      SurvivorsCongruent(dec, dec', rest);
      if recs[0].Staged? {
        forall i | 0 <= i < |rest|
          ensures Releases(dec, rest[i], recs[0].group) <==> Releases(dec', rest[i], recs[0].group)
        {
          assert rest[i] == recs[i + 1];
        }
      }
    }
  }

  // ------------------------------------------------------ more decisions, more released

  /** Record `j` is staged, and released by the decisions `more` but not by
  `less`. */
  predicate Hinges(less: Decisions, more: Decisions, recs: seq<Entry>, j: nat) {
    && j < |recs| && recs[j].Staged?
    && !ReleasedIn(less, recs[j + 1..], recs[j].group)
    && ReleasedIn(more, recs[j + 1..], recs[j].group)
  }

  predicate SameFate(less: Decisions, more: Decisions, recs: seq<Entry>) {
    forall j :: 0 <= j < |recs| ==> !Hinges(less, more, recs, j)
  }

  lemma {:induction false} ReleasedMore(less: Decisions, more: Decisions, recs: seq<Entry>, g: nat)
    requires less <= more && ReleasedIn(less, recs, g)
    ensures ReleasedIn(more, recs, g)
  {
    var j :| 0 <= j < |recs| && Releases(less, recs[j], g);
    assert Releases(more, recs[j], g);
  }

  lemma {:induction false} HingesLater(less: Decisions, more: Decisions, recs: seq<Entry>, j: nat)
    requires j + 1 < |recs|
    ensures Hinges(less, more, recs[1..], j) <==> Hinges(less, more, recs, j + 1)
  {
    assert recs[1..][j + 1..] == recs[j + 2..];
  }

  lemma {:induction false} SameFateCons(less: Decisions, more: Decisions, recs: seq<Entry>)
    requires recs != []
    ensures SameFate(less, more, recs) <==> !Hinges(less, more, recs, 0) && SameFate(less, more, recs[1..])
  {
    forall j: nat | j + 1 < |recs| ensures Hinges(less, more, recs[1..], j) <==> Hinges(less, more, recs, j + 1) {
      HingesLater(less, more, recs, j);
    }
    if !Hinges(less, more, recs, 0) && SameFate(less, more, recs[1..]) {
      forall j | 0 <= j < |recs| ensures !Hinges(less, more, recs, j) {
        if j > 0 { HingesLater(less, more, recs, j - 1); }
      }
    }
  }

  /** More decisions replay more, and exactly as much if and only if no staged
  record hinges on the difference. */
  lemma {:induction false} FateDecides(less: Decisions, more: Decisions, recs: seq<Entry>)
    requires less <= more
    ensures |Survivors(less, recs)| <= |Survivors(more, recs)|
    ensures Survivors(less, recs) == Survivors(more, recs) <==> SameFate(less, more, recs)
    ensures !SameFate(less, more, recs) ==> |Survivors(less, recs)| < |Survivors(more, recs)|
    decreases |recs|
  {
    if recs != [] {
      FateDecides(less, more, recs[1..]);
      SameFateCons(less, more, recs);
      if recs[0].Staged? && ReleasedIn(less, recs[1..], recs[0].group) {
        ReleasedMore(less, more, recs[1..], recs[0].group);
      }
    }
  }

  /** The records one transaction staged: `ops` under group `g`. */
  function Group(g: nat, ops: seq<Op>): (r: seq<Entry>)
    ensures |r| == |ops|
    ensures forall i :: 0 <= i < |r| ==> r[i] == Staged(g, ops[i])
  {
    seq(|ops|, i requires 0 <= i < |ops| => Staged(g, ops[i]))
  }

  /** A group and the marker that releases it replay as the group's mutations. */
  lemma {:induction false} GroupReleased(dec: Decisions, g: nat, ops: seq<Op>, m: Entry)
    requires Releases(dec, m, g)
    ensures Survivors(dec, Group(g, ops) + [m]) == ops
    decreases |ops|
  {
    var recs := Group(g, ops) + [m];
    if ops == [] {
      assert recs == [m];
      assert Survivors(dec, recs[1..]) == [];
    } else {
      assert recs[1..] == Group(g, ops[1..]) + [m];
      GroupReleased(dec, g, ops[1..], m);
      assert Releases(dec, recs[1..][|ops| - 1], g);
    }
  }

  /** A suffix of staged records, or of prepares citing no decision. */
  predicate Inert(dec: Decisions, e: Entry) {
    e.Staged? || (e.Prepare? && (e.coord, e.cseq) !in dec)
  }

  predicate AllInert(dec: Decisions, recs: seq<Entry>) {
    forall i :: 0 <= i < |recs| ==> Inert(dec, recs[i])
  }

  lemma {:induction false} InertReplaysNothing(dec: Decisions, recs: seq<Entry>)
    requires AllInert(dec, recs)
    ensures Survivors(dec, recs) == []
    ensures forall g :: !ReleasedIn(dec, recs, g)
    decreases |recs|
  {
    if recs != [] {
      assert AllInert(dec, recs[1..]) by {
        forall i | 0 <= i < |recs[1..]| ensures Inert(dec, recs[1..][i]) { assert recs[1..][i] == recs[i + 1]; }
      }
      InertReplaysNothing(dec, recs[1..]);
      forall g ensures !ReleasedIn(dec, recs, g) { ReleasedInCons(dec, recs, g); }
    }
  }

  /** Losing an inert suffix loses nothing. */
  lemma {:induction false} InertSuffix(dec: Decisions, a: seq<Entry>, b: seq<Entry>)
    requires AllInert(dec, b)
    ensures Survivors(dec, a + b) == Survivors(dec, a)
  {
    InertReplaysNothing(dec, b);
    SurvivorsSplit(dec, a, b);
  }
}
