/** Stable sorting by labels, stated once: item `j` ends up at `Pos(ls, j)`. */
module Stable {
  import opened Counting

  /** `out` is `items` in order of label, equal labels in order of arrival. */
  predicate Rearranged<T(==)>(out: seq<T>, items: seq<T>, ls: seq<nat>) {
    && |out| == |items| == |ls|
    && forall j {:trigger Pos(ls, j)} :: 0 <= j < |ls| ==> Pos(ls, j) < |out| && out[Pos(ls, j)] == items[j]
  }

  /** The first `i` items are at their places. */
  predicate Partial<T(==)>(buf: seq<T>, items: seq<T>, ls: seq<nat>, i: nat)
    requires i <= |items| == |ls|
  {
    |buf| == |ls| && forall j :: 0 <= j < i ==> Pos(ls, j) < |buf| && buf[Pos(ls, j)] == items[j]
  }

  lemma {:induction false} PartialStep<T>(buf: seq<T>, items: seq<T>, ls: seq<nat>, i: nat)
    requires i < |items| == |ls| && Partial(buf, items, ls, i)
    ensures Pos(ls, i) < |buf| && Partial(buf[Pos(ls, i) := items[i]], items, ls, i + 1)
  {
    PosInRun(ls, i);
    forall j | 0 <= j < i ensures Pos(ls, j) != Pos(ls, i) { PosDistinct(ls, j, i); }
  }

  function Positions(ls: seq<nat>): (ps: seq<nat>)
    ensures |ps| == |ls| && forall j :: 0 <= j < |ls| ==> ps[j] == Pos(ls, j)
  {
    seq(|ls|, j requires 0 <= j < |ls| => Pos(ls, j))
  }

  /** A rearrangement of `[0, n)`. */
  predicate Permutes(f: seq<nat>) { Injective(f) && forall i :: 0 <= i < |f| ==> f[i] < |f| }

  lemma {:induction false} PositionsPermute(ls: seq<nat>)
    ensures Permutes(Positions(ls))
  {
    var ps := Positions(ls);
    forall j | 0 <= j < |ps| ensures ps[j] < |ps| { PosInRun(ls, j); }
    forall j, k | 0 <= j < k < |ps| ensures ps[j] != ps[k] { PosDistinct(ls, j, k); }
  }

  // --------------------------------------------------------------- one order, one place

  /** `f` and `g` put items in the same order. */
  predicate SameOrder(f: seq<nat>, g: seq<nat>)
    requires |f| == |g|
  {
    forall j, k :: 0 <= j < |f| && 0 <= k < |f| ==> (f[j] < f[k] <==> g[j] < g[k])
  }

  /** Two rearrangements that agree on order agree on every place. */
  lemma {:induction false} OrderDecides(f: seq<nat>, g: seq<nat>, j: nat)
    requires |f| == |g| && Permutes(f) && Permutes(g) && SameOrder(f, g) && j < |f|
    ensures f[j] == g[j]
    decreases f[j]
  {
    if g[j] < f[j] {
      var k := Reaches(f, g[j]);
      OrderDecides(f, g, k);
    } else if g[j] > f[j] {
      var k := Reaches(g, f[j]);
      assert g[k] < g[j];
      OrderDecides(f, g, k);
    }
  }

  // ---------------------------------------------------------------- what it means

  /** The labels come out ascending. */
  lemma {:induction false} OutAscends(ls: seq<nat>, out: seq<nat>, p: nat, q: nat)
    requires Rearranged(out, ls, ls) && p < q < |ls|
    ensures out[p] <= out[q]
  {
    PositionsPermute(ls);
    var j := Reaches(Positions(ls), p);
    var k := Reaches(Positions(ls), q);
    PosOrder(ls, j, k);
  }

  /** `f` names, for each place, the item that goes there: every item once,
  labels ascending, equal labels in order of arrival. */
  predicate StableAscending(f: seq<nat>, ls: seq<nat>) {
    && |f| == |ls| && Permutes(f)
    && forall p, q :: 0 <= p < q < |f| ==> ls[f[p]] < ls[f[q]] || (ls[f[p]] == ls[f[q]] && f[p] < f[q])
  }

  function Then(f: seq<nat>, g: seq<nat>): (h: seq<nat>)
    requires forall i :: 0 <= i < |f| ==> f[i] < |g|
    ensures |h| == |f| && forall i :: 0 <= i < |f| ==> h[i] == g[f[i]]
  {
    seq(|f|, i requires 0 <= i < |f| => g[f[i]])
  }

  lemma {:induction false} ThenPermutes(f: seq<nat>, g: seq<nat>)
    requires Permutes(f) && Permutes(g) && |f| == |g|
    ensures Permutes(Then(f, g))
  {
    var h := Then(f, g);
    forall i, j | 0 <= i < j < |h| ensures h[i] != h[j] {
      assert f[i] != f[j];
    }
  }

  function Identity(n: nat): (f: seq<nat>)
    ensures |f| == n && forall i :: 0 <= i < n ==> f[i] == i
  {
    seq(n, i => i)
  }

  /** There is exactly one stable ascending arrangement, and the rearranged
  output is it. */
  lemma {:induction false} StableIsUnique<T>(out: seq<T>, items: seq<T>, ls: seq<nat>, f: seq<nat>)
    requires Rearranged(out, items, ls) && StableAscending(f, ls)
    ensures forall p :: 0 <= p < |f| ==> out[p] == items[f[p]]
  {
    PositionsPermute(ls);
    var h, id := Then(f, Positions(ls)), Identity(|f|);
    ThenPermutes(f, Positions(ls));
    forall p, q | 0 <= p < |f| && 0 <= q < |f| ensures h[p] < h[q] <==> id[p] < id[q] {
      PosOrder(ls, f[p], f[q]);
    }
    forall p | 0 <= p < |f| ensures out[p] == items[f[p]] {
      OrderDecides(h, id, p);
      assert Pos(ls, f[p]) == p;
    }
  }

  /** And there is one: the item at each place. */
  lemma {:induction false} StableExists(ls: seq<nat>) returns (f: seq<nat>)
    ensures StableAscending(f, ls) && Rearranged(f, Identity(|ls|), ls)
  {
    var n := |ls|;
    var ps := Positions(ls);
    PositionsPermute(ls);
    f := [];
    while |f| < n
      invariant |f| <= n
      invariant forall p :: 0 <= p < |f| ==> f[p] < n && ps[f[p]] == p
    {
      var j := Reaches(ps, |f|);
      f := f + [j];
    }
    forall j | 0 <= j < n ensures Pos(ls, j) < n && f[Pos(ls, j)] == j {
      assert ps[j] < n;
      assert ps[f[ps[j]]] == ps[j];
    }
    forall p, q | 0 <= p < q < n
      ensures f[p] != f[q] && (ls[f[p]] < ls[f[q]] || (ls[f[p]] == ls[f[q]] && f[p] < f[q]))
    {
      assert ps[f[p]] == p && ps[f[q]] == q;
      PosOrder(ls, f[p], f[q]);
    }
  }

  // ------------------------------------------------------------- sorting in passes

  /** The label `hi` first, then `lo`. */
  predicate Combined(c: seq<nat>, hi: seq<nat>, lo: seq<nat>) {
    && |c| == |hi| == |lo|
    && forall j, k :: 0 <= j < |c| && 0 <= k < |c| ==>
      (c[j] < c[k] <==> hi[j] < hi[k] || (hi[j] == hi[k] && lo[j] < lo[k]))
  }

  lemma {:induction false} CombinedEqual(c: seq<nat>, hi: seq<nat>, lo: seq<nat>, j: nat, k: nat)
    requires Combined(c, hi, lo) && j < |c| && k < |c|
    ensures c[j] == c[k] <==> hi[j] == hi[k] && lo[j] == lo[k]
  {
    assert c[j] < c[k] <==> hi[j] < hi[k] || (hi[j] == hi[k] && lo[j] < lo[k]);
    assert c[k] < c[j] <==> hi[k] < hi[j] || (hi[k] == hi[j] && lo[k] < lo[j]);
  }

  /** A stable pass by `hi` over items already sorted by `lo` sorts by both. */
  lemma {:induction false} PassesCompose<T>(out: seq<T>, mid: seq<T>, items: seq<T>, lo: seq<nat>, hi: seq<nat>, hi': seq<nat>, c: seq<nat>)
    requires Rearranged(mid, items, lo) && Rearranged(hi', hi, lo) && Rearranged(out, mid, hi')
    requires Combined(c, hi, lo) && |c| == |items|
    ensures Rearranged(out, items, c)
  {
    PositionsPermute(lo);
    PositionsPermute(hi');
    PositionsPermute(c);
    var both, once := Then(Positions(lo), Positions(hi')), Positions(c);
    ThenPermutes(Positions(lo), Positions(hi'));
    forall j, k | 0 <= j < |c| && 0 <= k < |c| ensures both[j] < both[k] <==> once[j] < once[k] {
      OrderComposes(lo, hi, hi', c, j, k);
    }
    forall j | 0 <= j < |c| ensures Pos(c, j) < |out| && out[Pos(c, j)] == items[j] {
      OrderDecides(both, once, j);
      assert Pos(c, j) == Pos(hi', Pos(lo, j));
    }
  }

  lemma {:induction false} OrderComposes(lo: seq<nat>, hi: seq<nat>, hi': seq<nat>, c: seq<nat>, j: nat, k: nat)
    requires Rearranged(hi', hi, lo) && Combined(c, hi, lo) && j < |c| && k < |c|
    ensures Pos(hi', Pos(lo, j)) < Pos(hi', Pos(lo, k)) <==> Pos(c, j) < Pos(c, k)
  {
    PosOrder(hi', Pos(lo, j), Pos(lo, k));
    PosOrder(lo, j, k);
    PosOrder(c, j, k);
    CombinedEqual(c, hi, lo, j, k);
  }

  /** A pass by a label everything shares may be skipped. */
  lemma {:induction false} UniformSkips<T>(out: seq<T>, items: seq<T>, lo: seq<nat>, hi: seq<nat>, c: seq<nat>)
    requires Rearranged(out, items, lo) && Combined(c, hi, lo) && |c| == |items|
    requires forall j, k :: 0 <= j < k < |hi| ==> hi[j] == hi[k]
    ensures Rearranged(out, items, c)
  {
    PositionsPermute(lo);
    PositionsPermute(c);
    var a, b := Positions(lo), Positions(c);
    forall j, k | 0 <= j < |c| && 0 <= k < |c| ensures a[j] < a[k] <==> b[j] < b[k] {
      PosOrder(lo, j, k);
      PosOrder(c, j, k);
      CombinedEqual(c, hi, lo, j, k);
    }
    forall j | 0 <= j < |c| ensures Pos(c, j) == Pos(lo, j) {
      OrderDecides(a, b, j);
    }
  }

  /** Items that share one label stay where they are. */
  lemma {:induction false} NothingMoves<T>(items: seq<T>, ls: seq<nat>)
    requires |items| == |ls| && forall j, k :: 0 <= j < k < |ls| ==> ls[j] == ls[k]
    ensures Rearranged(items, items, ls)
  {
    PositionsPermute(ls);
    var ps, id := Positions(ls), Identity(|ls|);
    forall j, k | 0 <= j < |ls| && 0 <= k < |ls| ensures ps[j] < ps[k] <==> id[j] < id[k] {
      PosOrder(ls, j, k);
    }
    forall j | 0 <= j < |ls| ensures Pos(ls, j) == j {
      OrderDecides(ps, id, j);
    }
  }
}
