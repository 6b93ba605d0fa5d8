/** Matching names against `LIKE` patterns: the greedy loop with one backtrack
point, against the recursive meaning of `%` and `_`. */
module Like {
  import opened Basics

  const ANY: byte := 37   // %
  const ONE: byte := 95   // _

  function Fold(c: byte): byte { if 65 <= c <= 90 then c + 32 else c }

  /** `c` and `d` are the two cases of one of the 26 letters. */
  predicate TwoCases(c: byte, d: byte) { 'A' <= c as char <= 'Z' && d == c + 32 }

  /** Folding identifies a byte with itself and a letter with its other case, and
  nothing else. */
  lemma {:induction false} FoldIff(c: byte, d: byte)
    ensures Fold(c) == Fold(d) <==> c == d || TwoCases(c, d) || TwoCases(d, c)
  {
  }

  /** `_` takes any byte; anything else takes itself, whatever its case. */
  predicate Takes(p: byte, c: byte) { p == ONE || Fold(p) == Fold(c) }

  /** `p[i..]` matches `t[j..]`. */
  predicate Matches(p: seq<byte>, i: nat, t: seq<byte>, j: nat)
    requires i <= |p| && j <= |t|
    decreases |p| - i, |t| - j
  {
    if i == |p| then j == |t|
    else if p[i] == ANY then Matches(p, i + 1, t, j) || (j < |t| && Matches(p, i, t, j + 1))
    else j < |t| && Takes(p[i], t[j]) && Matches(p, i + 1, t, j + 1)
  }

  predicate AllAny(p: seq<byte>, i: nat)
    requires i <= |p|
  {
    forall k :: i <= k < |p| ==> p[k] == ANY
  }

  /** The loop's answer from a state; `star` is -1 until a `%` has been met. */
  predicate Greedy(p: seq<byte>, t: seq<byte>, pi: nat, ti: nat, star: int, mark: nat)
    requires -1 <= star < pi <= |p| || (star == -1 && pi == 0)
    requires mark <= ti <= |t|
    decreases |p| - star, |t| - mark, |t| - ti
  {
    if ti == |t| then AllAny(p, pi)
    else if pi < |p| && Takes(p[pi], t[ti]) then Greedy(p, t, pi + 1, ti + 1, star, mark)
    else if pi < |p| && p[pi] == ANY then Greedy(p, t, pi + 1, ti, pi, ti)
    else if star >= 0 then Greedy(p, t, star + 1, mark + 1, star, mark + 1)
    else false
  }

  method LikeMatch(p: seq<byte>, t: seq<byte>) returns (r: bool)
    ensures r == Greedy(p, t, 0, 0, -1, 0)
    ensures ANY !in t ==> r == Matches(p, 0, t, 0)
  {
    if ANY !in t { GreedyIsRight(p, t); }
    var pi, ti, star, mark := 0, 0, -1, 0;
    while ti < |t|
      invariant -1 <= star < pi <= |p| || (star == -1 && pi == 0)
      invariant 0 <= mark <= ti <= |t|
      invariant Greedy(p, t, 0, 0, -1, 0) == Greedy(p, t, pi, ti, star, mark)
      decreases |p| - star, |t| - mark, |t| - ti
    {
      if pi < |p| && (p[pi] == ONE || Fold(p[pi]) == Fold(t[ti])) {
        pi, ti := pi + 1, ti + 1;
      } else if pi < |p| && p[pi] == ANY {
        star := pi;
        pi := pi + 1;
        mark := ti;
      } else if star != -1 {
        pi := star + 1;
        mark := mark + 1;
        ti := mark;
      } else {
        return false;
      }
    }
    r := true;
    for k := pi to |p|
      invariant r <==> forall i :: pi <= i < k ==> p[i] == ANY
    {
      if p[k] != ANY { r := false; }
    }
  }

  // ------------------------------------------------------------------ correctness

  predicate NoAny(p: seq<byte>, a: nat, b: nat)
    requires a <= b <= |p|
  {
    forall k :: a <= k < b ==> p[k] != ANY
  }

  /** A run without `%` takes as many bytes as it is long. */
  lemma {:induction false} Consumes(p: seq<byte>, a: nat, b: nat, t: seq<byte>, m: nat)
    requires a <= b <= |p| && NoAny(p, a, b) && m <= |t| && Matches(p, a, t, m)
    ensures m + (b - a) <= |t| && Matches(p, b, t, m + (b - a))
    decreases b - a
  {
    if a < b { Consumes(p, a + 1, b, t, m + 1); }
  }

  /** A `%` that matches later matches now. */
  lemma {:induction false} Absorbs(p: seq<byte>, i: nat, t: seq<byte>, j: nat, j': nat)
    requires i < |p| && p[i] == ANY && j <= j' <= |t| && Matches(p, i, t, j')
    ensures Matches(p, i, t, j)
    decreases j' - j
  {
    if j < j' { Absorbs(p, i, t, j + 1, j'); }
  }

  /** What follows a `%` matches somewhere from here on. */
  lemma {:induction false} Somewhere(p: seq<byte>, i: nat, t: seq<byte>, j: nat) returns (m: nat)
    requires i < |p| && p[i] == ANY && j <= |t| && Matches(p, i, t, j)
    ensures j <= m <= |t| && Matches(p, i + 1, t, m)
    decreases |t| - j
  {
    if Matches(p, i + 1, t, j) {
      m := j;
    } else {
      m := Somewhere(p, i, t, j + 1);
    }
  }

  lemma {:induction false} AtEnd(p: seq<byte>, i: nat, t: seq<byte>)
    requires i <= |p|
    ensures Matches(p, i, t, |t|) <==> AllAny(p, i)
    decreases |p| - i
  {
    if i < |p| { AtEnd(p, i + 1, t); }
  }

  /** The match can still be had by backtracking to the last `%`. */
  predicate Backtracks(p: seq<byte>, t: seq<byte>, star: int, mark: nat)
    requires -1 <= star < |p| && mark <= |t|
  {
    star >= 0 && mark < |t| && Matches(p, star, t, mark + 1)
  }

  /** Since the last `%`, the pattern and the subject have advanced in step. */
  predicate InStep(p: seq<byte>, t: seq<byte>, pi: nat, ti: nat, star: int, mark: nat)
    requires pi <= |p|
  {
    star >= 0 ==> star < pi && p[star] == ANY && NoAny(p, star + 1, pi) && pi - (star + 1) == ti - mark
  }

  /** A later alternative for the run since the last `%` lands later too. */
  lemma {:induction false} LandsLater(p: seq<byte>, t: seq<byte>, pi: nat, ti: nat, star: int, mark: nat) returns (j: nat)
    requires 0 <= star < pi <= |p| && mark <= ti <= |t| && InStep(p, t, pi, ti, star, mark)
    requires Backtracks(p, t, star, mark)
    ensures ti < j <= |t| && Matches(p, pi, t, j)
  {
    var m := Somewhere(p, star, t, mark + 1);
    Consumes(p, star + 1, pi, t, m);
    j := m + (pi - (star + 1));
  }

  /** The loop keeps exactly the alternatives that matter: the current one, and
  the last `%` taking one byte more. */
  lemma {:induction false} GreedyMeans(p: seq<byte>, t: seq<byte>, pi: nat, ti: nat, star: int, mark: nat)
    requires -1 <= star < pi <= |p| || (star == -1 && pi == 0)
    requires mark <= ti <= |t| && ANY !in t && InStep(p, t, pi, ti, star, mark) && star < |p|
    ensures Greedy(p, t, pi, ti, star, mark) <==> Matches(p, pi, t, ti) || Backtracks(p, t, star, mark)
    decreases |p| - star, |t| - mark, |t| - ti
  {
    if ti == |t| {
      AtEnd(p, pi, t);
      if Backtracks(p, t, star, mark) {
        var j := LandsLater(p, t, pi, ti, star, mark);
        assert false;
      }
    } else if pi < |p| && Takes(p[pi], t[ti]) {
      NotAny(p[pi], t, ti);
      GreedyMeans(p, t, pi + 1, ti + 1, star, mark);
    } else if pi < |p| && p[pi] == ANY {
      GreedyMeans(p, t, pi + 1, ti, pi, ti);
      if Backtracks(p, t, star, mark) {
        var j := LandsLater(p, t, pi, ti, star, mark);
        Absorbs(p, pi, t, ti, j);
      }
    } else if star >= 0 {
      GreedyMeans(p, t, star + 1, mark + 1, star, mark + 1);
    }
  }

  /** A `%` in the pattern takes no byte literally when the subject has none. */
  lemma {:induction false} NotAny(c: byte, t: seq<byte>, ti: nat)
    requires ti < |t| && ANY !in t && Takes(c, t[ti])
    ensures c != ANY
  {
  }

  lemma {:induction false} GreedyIsRight(p: seq<byte>, t: seq<byte>)
    requires ANY !in t
    ensures Greedy(p, t, 0, 0, -1, 0) == Matches(p, 0, t, 0)
  {
    if p == [] {
      AtEnd(p, 0, t);
    } else {
      GreedyMeans(p, t, 0, 0, -1, 0);
    }
  }

  // --------------------------------------------------------------- where it is wrong

  function Ones(n: nat): (s: seq<byte>)
    ensures |s| == n && forall i :: 0 <= i < n ==> s[i] == ONE
  {
    seq(n, _ => ONE)
  }

  /** As many `_` as stand before position `at`, then `%`, then one `_` for each
  byte from `at` on. */
  function Trap(t: seq<byte>, at: nat): seq<byte>
    requires at < |t|
  {
    Ones(at) + [ANY] + Ones(|t| - at)
  }

  lemma {:induction false} OnesMatch(p: seq<byte>, i: nat, t: seq<byte>, j: nat)
    requires i <= |p| && j <= |t| && |p| - i == |t| - j && forall k :: i <= k < |p| ==> p[k] == ONE
    ensures Matches(p, i, t, j)
    decreases |t| - j
  {
    if j < |t| { OnesMatch(p, i + 1, t, j + 1); }
  }

  lemma {:induction false} TrapMatches(t: seq<byte>, at: nat, i: nat)
    requires at < |t| && i <= at
    ensures Matches(Trap(t, at), i, t, i)
    decreases at - i
  {
    if i < at {
      TrapMatches(t, at, i + 1);
    } else {
      OnesMatch(Trap(t, at), at + 1, t, at);
    }
  }

  /** The loop takes the subject's `%` for the pattern's, and runs out. */
  lemma {:induction false} TrapFails(t: seq<byte>, at: nat, i: nat)
    requires at < |t| && t[at] == ANY && i <= |t|
    ensures !Greedy(Trap(t, at), t, i, i, -1, 0)
    decreases |t| - i
  {
    var p := Trap(t, at);
    if i == |t| {
      assert p[|t|] == ONE;
    } else {
      assert p[i] == if i == at then ANY else ONE;
      TrapFails(t, at, i + 1);
    }
  }

  /** The loop is right for every pattern exactly on subjects without `%`. */
  lemma {:induction false} RightIff(t: seq<byte>)
    ensures (forall p :: Greedy(p, t, 0, 0, -1, 0) == Matches(p, 0, t, 0)) <==> ANY !in t
  {
    if ANY !in t {
      forall p ensures Greedy(p, t, 0, 0, -1, 0) == Matches(p, 0, t, 0) { GreedyIsRight(p, t); }
    } else {
      var at :| 0 <= at < |t| && t[at] == ANY;
      TrapMatches(t, at, 0);
      TrapFails(t, at, 0);
      assert Greedy(Trap(t, at), t, 0, 0, -1, 0) != Matches(Trap(t, at), 0, t, 0);
    }
  }
}
