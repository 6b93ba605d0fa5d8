/** An occupancy bitmap over 64-bit words. */
module Bitmap {
  import opened Bits

  function Bit(x: nat, j: nat): bool { if j == 0 then x % 2 == 1 else Bit(x / 2, j - 1) }

  lemma {:induction false} ShiftedBit(x: nat, j: nat)
    ensures Bit(x, j) <==> Shr(x, j) % 2 == 1
  {
    if j > 0 {
      ShiftedBit(x / 2, j - 1);
      DivDiv(x, 2, Pow2(j - 1));
    }
  }

  lemma {:induction false} OrBits(x: nat, y: nat, j: nat)
    ensures Bit(Or(x, y), j) <==> Bit(x, j) || Bit(y, j)
  {
    if x == 0 && y == 0 {
      ZeroBits(j);
    } else if j > 0 {
      OrBits(x / 2, y / 2, j - 1);
    }
  }

  lemma {:induction false} ZeroBits(j: nat)
    ensures !Bit(0, j)
  {
    if j > 0 { ZeroBits(j - 1); }
  }

  lemma {:induction false} OneBit(k: nat, j: nat)
    ensures Bit(Pow2(k), j) <==> j == k
  {
    if k == 0 {
      if j > 0 { ZeroBits(j - 1); }
    } else if j > 0 {
      OneBit(k - 1, j - 1);
    }
  }

  lemma {:induction false} OrBound(x: nat, y: nat, n: nat)
    requires x < Pow2(n) && y < Pow2(n)
    ensures Or(x, y) < Pow2(n)
  {
    if n > 0 && !(x == 0 && y == 0) { OrBound(x / 2, y / 2, n - 1); }
  }

  /** Is slot `p` taken? */
  function Taken(occ: seq<u64>, p: nat): bool
    requires p < 64 * |occ|
  {
    And(Shr(occ[p / 64], p % 64), 1) == 1
  }

  /** Take slot `p`. */
  function Take(occ: seq<u64>, p: nat): seq<u64>
    requires p < 64 * |occ|
  {
    TakenWord(occ[p / 64], p % 64);
    occ[p / 64 := Or(occ[p / 64], Shl(1, p % 64))]
  }

  lemma {:induction false} TakenIsBit(w: nat, k: nat)
    ensures And(Shr(w, k), 1) == 1 <==> Bit(w, k)
  {
    assert Pow2(1) == 2;
    AndMask(Shr(w, k), 1);
    ShiftedBit(w, k);
  }

  lemma {:induction false} TakenWord(w: u64, k: nat)
    requires k < 64
    ensures Shl(1, k) == Pow2(k) && Or(w, Shl(1, k)) < TOP
  {
    Pow2Top();
    Pow2Mono(k + 1, 64);
    SmallShift(1, k);
    OrBound(w, Pow2(k), 64);
  }

  /** Taking a slot takes that slot and no other. */
  lemma {:induction false} TakeExact(occ: seq<u64>, p: nat, q: nat)
    requires p < 64 * |occ| && q < 64 * |occ|
    ensures |Take(occ, p)| == |occ|
    ensures Taken(Take(occ, p), q) <==> q == p || Taken(occ, q)
  {
    TakenWord(occ[p / 64], p % 64);
    TakenIsBit(occ[q / 64], q % 64);
    TakenIsBit(Take(occ, p)[q / 64], q % 64);
    OrBits(occ[p / 64], Pow2(p % 64), q % 64);
    OneBit(p % 64, q % 64);
  }

  lemma {:induction false} NoneTaken(occ: seq<u64>, q: nat)
    requires q < 64 * |occ| && occ[q / 64] == 0
    ensures !Taken(occ, q)
  {
    TakenIsBit(0, q % 64);
    ZeroBits(q % 64);
  }

  /** The taken slots are exactly `s`. */
  ghost predicate Marks(occ: seq<u64>, n: nat, s: set<nat>) {
    n <= 64 * |occ| && forall q: nat :: q < n ==> (Taken(occ, q) <==> q in s)
  }

  lemma {:induction false} TakeMarks(occ: seq<u64>, n: nat, s: set<nat>, p: nat)
    requires Marks(occ, n, s) && p < n
    ensures Marks(Take(occ, p), n, s + {p})
  {
    forall q: nat | q < n ensures |Take(occ, p)| == |occ| && (Taken(Take(occ, p), q) <==> q in s + {p}) {
      TakeExact(occ, p, q);
    }
  }
}
