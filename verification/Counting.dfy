/** Counting sort: where each item of a list goes when items are grouped by a
small label, in order of label and, within a label, in order of arrival. */
module Counting {
  /** How many of the labels are `b`. */
  function CountEq(ls: seq<nat>, b: nat): (c: nat)
    ensures c <= |ls|
  {
    if ls == [] then 0 else CountEq(ls[..|ls| - 1], b) + if ls[|ls| - 1] == b then 1 else 0
  }

  /** How many of the labels are below `b`. */
  function CountLess(ls: seq<nat>, b: nat): (c: nat)
    ensures c <= |ls|
  {
    if ls == [] then 0 else CountLess(ls[..|ls| - 1], b) + if ls[|ls| - 1] < b then 1 else 0
  }

  /** Where item `j` goes. */
  function Pos(ls: seq<nat>, j: nat): nat
    requires j < |ls|
  {
    CountLess(ls, ls[j]) + CountEq(ls[..j], ls[j])
  }

  lemma {:induction false} CountNext(ls: seq<nat>, b: nat)
    ensures CountLess(ls, b + 1) == CountLess(ls, b) + CountEq(ls, b)
  {
    if ls != [] { CountNext(ls[..|ls| - 1], b); }
  }

  lemma {:induction false} CountLessMono(ls: seq<nat>, a: nat, b: nat)
    requires a <= b
    ensures CountLess(ls, a) <= CountLess(ls, b)
  {
    if a < b {
      CountLessMono(ls, a, b - 1);
      CountNext(ls, b - 1);
    }
  }

  lemma {:induction false} CountAll(ls: seq<nat>, n: nat)
    requires forall i :: 0 <= i < |ls| ==> ls[i] < n
    ensures CountLess(ls, n) == |ls|
  {
    if ls != [] { CountAll(ls[..|ls| - 1], n); }
  }

  lemma {:induction false} CountNone(ls: seq<nat>)
    ensures CountLess(ls, 0) == 0
  {
    if ls != [] { CountNone(ls[..|ls| - 1]); }
  }

  lemma {:induction false} CountEqNext(ls: seq<nat>, i: nat, b: nat)
    requires i < |ls|
    ensures CountEq(ls[..i + 1], b) == CountEq(ls[..i], b) + if ls[i] == b then 1 else 0
  {
    assert ls[..i + 1][..i] == ls[..i];
  }

  lemma {:induction false} CountEqPrefix(ls: seq<nat>, i: nat, j: nat, b: nat)
    requires i <= j <= |ls|
    ensures CountEq(ls[..i], b) <= CountEq(ls[..j], b)
  {
    if i < j {
      CountEqPrefix(ls, i, j - 1, b);
      CountEqNext(ls, j - 1, b);
    }
  }

  /** An item stays in its label's run. */
  lemma {:induction false} PosInRun(ls: seq<nat>, j: nat)
    requires j < |ls|
    ensures CountLess(ls, ls[j]) <= Pos(ls, j) < CountLess(ls, ls[j] + 1) <= |ls|
  {
    var b := ls[j];
    RoomAfter(ls, j, b);
    CountNext(ls, b);
  }

  lemma {:induction false} RoomAfter(ls: seq<nat>, j: nat, b: nat)
    requires j < |ls| && ls[j] == b
    ensures CountEq(ls[..j], b) < CountEq(ls, b)
  {
    CountEqNext(ls, j, b);
    CountEqPrefix(ls, j + 1, |ls|, b);
    assert ls[..|ls|] == ls;
  }

  /** Positions are in order of label, then of arrival; in particular no two
  items share one. */
  lemma {:induction false} PosOrder(ls: seq<nat>, j: nat, k: nat)
    requires j < |ls| && k < |ls|
    ensures Pos(ls, j) < Pos(ls, k) <==> ls[j] < ls[k] || (ls[j] == ls[k] && j < k)
  {
    if ls[j] < ls[k] {
      PosLess(ls, j, k);
    } else if ls[k] < ls[j] {
      PosLess(ls, k, j);
    } else if j < k {
      CountEqNext(ls, j, ls[j]);
      CountEqPrefix(ls, j + 1, k, ls[j]);
    } else {
      CountEqPrefix(ls, k, j, ls[j]);
    }
  }

  lemma {:induction false} PosLess(ls: seq<nat>, j: nat, k: nat)
    requires j < |ls| && k < |ls| && ls[j] < ls[k]
    ensures Pos(ls, j) < Pos(ls, k)
  {
    PosInRun(ls, j);
    PosInRun(ls, k);
    CountLessMono(ls, ls[j] + 1, ls[k]);
  }

  lemma {:induction false} PosDistinct(ls: seq<nat>, j: nat, k: nat)
    requires j < |ls| && k < |ls| && j != k
    ensures Pos(ls, j) != Pos(ls, k)
  {
    PosOrder(ls, j, k);
    PosOrder(ls, k, j);
  }

  // ------------------------------------------------------------------ pigeonhole

  predicate Injective(f: seq<nat>) { forall i, j :: 0 <= i < j < |f| ==> f[i] != f[j] }

  /** Close the gap at a value that is never taken. */
  function Squeeze(f: seq<nat>, s: nat): (g: seq<nat>)
    ensures |g| == |f|
  {
    seq(|f|, i requires 0 <= i < |f| => if f[i] > s then f[i] - 1 else f[i])
  }

  lemma {:induction false} SqueezeKeeps(f: seq<nat>, s: nat)
    requires Injective(f) && forall i :: 0 <= i < |f| ==> f[i] != s
    ensures Injective(Squeeze(f, s))
  {
    var g := Squeeze(f, s);
    forall i, j | 0 <= i < j < |g| ensures g[i] != g[j] {
      assert f[i] != f[j] && f[i] != s && f[j] != s;
    }
  }

  /** A one-to-one map of `[0, n)` into itself reaches everything. */
  lemma {:induction false} Reaches(f: seq<nat>, s: nat) returns (i: nat)
    requires Injective(f) && (forall i :: 0 <= i < |f| ==> f[i] < |f|) && s < |f|
    ensures i < |f| && f[i] == s
  {
    if k :| 0 <= k < |f| && f[k] == s {
      i := k;
    } else {
      i := 0;
      SqueezeKeeps(f, s);
      NotTooMany(Squeeze(f, s), |f| - 1);
      assert false;
    }
  }

  /** No one-to-one list is longer than its range. */
  lemma {:induction false} NotTooMany(g: seq<nat>, n: nat)
    requires Injective(g) && forall i :: 0 <= i < |g| ==> g[i] < n
    ensures |g| <= n
    decreases n
  {
    if g != [] {
      assert g[0] < n;
      var rest := Refill(g, n);
      NotTooMany(rest, n - 1);
    }
  }

  /** Drop the last value, putting it where the largest was. */
  lemma {:induction false} Refill(g: seq<nat>, n: nat) returns (rest: seq<nat>)
    requires g != [] && n > 0 && Injective(g) && forall i :: 0 <= i < |g| ==> g[i] < n
    ensures |rest| == |g| - 1 && Injective(rest) && forall i :: 0 <= i < |rest| ==> rest[i] < n - 1
  {
    var last := g[|g| - 1];
    rest := seq(|g| - 1, i requires 0 <= i < |g| - 1 => if g[i] == n - 1 then last else g[i]);
    forall i | 0 <= i < |rest| ensures rest[i] < n - 1 {
      assert g[i] != last;
    }
    forall i, j | 0 <= i < j < |rest| ensures rest[i] != rest[j] {
      assert g[i] != g[j] && g[i] != last && g[j] != last;
    }
  }
}
