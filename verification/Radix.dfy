/** Least-significant-digit radix sort of keys and row ids held in parallel
arrays: four stable 16-bit passes, any of them skipped when its digits agree. */
module Radix {
  import opened Bits
  import opened Counting
  import opened Stable

  const DIGITS: nat := 0x1_0000

  function Digit(k: u64, shift: nat): nat { And(Shr(k, shift), 0xFFFF) }

  lemma {:induction false} DigitIs(k: u64, shift: nat)
    ensures Digit(k, shift) == k / Pow2(shift) % DIGITS
  {
    assert Pow2(8) == 256;
    Pow2Add(8, 8);
    AndMask(Shr(k, shift), 16);
  }

  function DigitsOf(keys: seq<u64>, shift: nat): (ls: seq<nat>)
    ensures |ls| == |keys| && forall j :: 0 <= j < |keys| ==> ls[j] == Digit(keys[j], shift)
  {
    seq(|keys|, j requires 0 <= j < |keys| => Digit(keys[j], shift))
  }

  /** What the passes below `shift` have looked at. */
  function LowBits(keys: seq<u64>, shift: nat): (ls: seq<nat>)
    ensures |ls| == |keys| && forall j :: 0 <= j < |keys| ==> ls[j] == Rem(keys[j], Pow2(shift))
  {
    seq(|keys|, j requires 0 <= j < |keys| => Rem(keys[j], Pow2(shift)))
  }

  /** Digits above, bits below: together the bits of one more pass. */
  lemma {:induction false} NextBits(k: u64, shift: nat)
    ensures Rem(k, Pow2(shift + 16)) == Digit(k, shift) * Pow2(shift) + Rem(k, Pow2(shift))
  {
    DigitIs(k, shift);
    SixteenMore(shift);
    SplitMod(k, Pow2(shift), DIGITS);
  }

  lemma {:induction false} SixteenMore(shift: nat)
    ensures Pow2(shift + 16) == Pow2(shift) * DIGITS
  {
    Pow2Add(shift, 16);
    assert Pow2(8) == 256;
    Pow2Add(8, 8);
  }

  lemma {:induction false} SplitMod(k: nat, p: nat, d: nat)
    requires p > 0 && d > 0
    ensures p * d > 0 && k % (p * d) == k / p % d * p + k % p
  {
    DivDiv(k, p, d);
    var m := k % (p * d);
    assert m == m / p * p + m % p;
    NestedRem(k, p, d);
  }

  lemma {:induction false} NestedRem(k: nat, p: nat, d: nat)
    requires p > 0 && d > 0 && p * d > 0
    ensures k % (p * d) % p == k % p
  {
    var t := p * d;
    Associate(k / t, d, p);
    MulMod(k % t, k / t * d, p);
    assert k == k % t + k / t * t;
  }

  /** `h * p + l` orders as the pair `(h, l)`. */
  lemma {:induction false} PairOrder(h: nat, l: nat, h': nat, l': nat, p: nat)
    requires l < p && l' < p
    ensures h * p + l < h' * p + l' <==> h < h' || (h == h' && l < l')
  {
    if h < h' {
      MulMono(h + 1, h', p);
      Distribute(h, 1, p);
    } else if h' < h {
      MulMono(h' + 1, h, p);
      Distribute(h', 1, p);
    }
  }

  lemma {:induction false} PassCombines(keys: seq<u64>, shift: nat)
    ensures Combined(LowBits(keys, shift + 16), DigitsOf(keys, shift), LowBits(keys, shift))
  {
    var c, hi, lo := LowBits(keys, shift + 16), DigitsOf(keys, shift), LowBits(keys, shift);
    forall j, k | 0 <= j < |c| && 0 <= k < |c|
      ensures c[j] < c[k] <==> hi[j] < hi[k] || (hi[j] == hi[k] && lo[j] < lo[k])
    {
      NextBits(keys[j], shift);
      NextBits(keys[k], shift);
      PairOrder(hi[j], lo[j], hi[k], lo[k], Pow2(shift));
    }
  }

  // -------------------------------------------------------------------- one pass

  /** Count every digit, then turn the counts into starting places. */
  method DigitStarts(keys: array<u64>, counts: array<nat>, shift: nat, ghost ls: seq<nat>)
    requires counts.Length == DIGITS && ls == DigitsOf(keys[..], shift) && forall j :: 0 <= j < |ls| ==> ls[j] < DIGITS
    modifies counts
    ensures forall d :: 0 <= d < DIGITS ==> counts[d] == CountLess(ls, d)
  {
    forall d | 0 <= d < DIGITS { counts[d] := 0; }
    for i := 0 to keys.Length
      invariant forall d :: 0 <= d < DIGITS ==> counts[d] == CountEq(ls[..i], d)
    {
      var at := Digit(keys[i], shift);
      assert at == ls[i];
      forall d | 0 <= d < DIGITS ensures CountEq(ls[..i + 1], d) == CountEq(ls[..i], d) + if at == d then 1 else 0 {
        CountEqNext(ls, i, d);
      }
      counts[at] := counts[at] + 1;
    }
    assert ls[..|ls|] == ls;
    CountNone(ls);
    var sum := 0;
    for d := 0 to DIGITS
      invariant sum == CountLess(ls, d)
      invariant forall e :: 0 <= e < d ==> counts[e] == CountLess(ls, e)
      invariant forall e :: d <= e < DIGITS ==> counts[e] == CountEq(ls, e)
    {
      CountNext(ls, d);
      var t := counts[d];
      counts[d] := sum;
      sum := sum + t;
    }
  }

  /** Move every pair to its digit's next place. */
  method ScatterPairs(keys: array<u64>, idx: array<nat>, kbuf: array<u64>, ibuf: array<nat>, counts: array<nat>, shift: nat, ghost ls: seq<nat>)
    requires keys.Length == idx.Length == kbuf.Length == ibuf.Length && counts.Length == DIGITS
    requires kbuf != keys && ibuf != idx && ibuf != counts && idx != counts
    requires ls == DigitsOf(keys[..], shift) && forall j :: 0 <= j < |ls| ==> ls[j] < DIGITS
    requires forall d :: 0 <= d < DIGITS ==> counts[d] == CountLess(ls, d)
    modifies kbuf, ibuf, counts
    ensures Rearranged(kbuf[..], keys[..], ls) && Rearranged(ibuf[..], idx[..], ls)
  {
    for i := 0 to keys.Length
      invariant forall d :: 0 <= d < DIGITS ==> counts[d] == CountLess(ls, d) + CountEq(ls[..i], d)
      invariant Partial(kbuf[..], keys[..], ls, i) && Partial(ibuf[..], idx[..], ls, i)
    {
      var d := Digit(keys[i], shift);
      assert d == ls[i];
      var at := counts[d];
      assert at == Pos(ls, i);
      Advance(ls, i);
      PlaceBoth(keys, idx, kbuf, ibuf, i, at, ls);
      counts[d] := counts[d] + 1;
    }
  }

  lemma {:induction false} Advance(ls: seq<nat>, i: nat)
    requires i < |ls|
    ensures forall e: nat :: CountEq(ls[..i + 1], e) == CountEq(ls[..i], e) + if ls[i] == e then 1 else 0
  {
    forall e: nat ensures CountEq(ls[..i + 1], e) == CountEq(ls[..i], e) + if ls[i] == e then 1 else 0 {
      CountEqNext(ls, i, e);
    }
  }

  method PlaceBoth(keys: array<u64>, idx: array<nat>, kbuf: array<u64>, ibuf: array<nat>, i: nat, at: nat, ghost ls: seq<nat>)
    requires i < keys.Length == idx.Length == |ls| && kbuf != keys && ibuf != idx && at == Pos(ls, i)
    requires Partial(kbuf[..], keys[..], ls, i) && Partial(ibuf[..], idx[..], ls, i)
    modifies kbuf, ibuf
    ensures Partial(kbuf[..], keys[..], ls, i + 1) && Partial(ibuf[..], idx[..], ls, i + 1)
  {
    PartialStep(kbuf[..], keys[..], ls, i);
    PartialStep(ibuf[..], idx[..], ls, i);
    ghost var k, v := kbuf[..], ibuf[..];
    kbuf[at] := keys[i];
    ibuf[at] := idx[i];
    assert kbuf[..] == k[at := keys[i]] && ibuf[..] == v[at := idx[i]];
  }

  method AllAlike(keys: array<u64>, shift: nat) returns (alike: bool)
    requires keys.Length > 0
    ensures alike <==> forall j :: 0 <= j < keys.Length ==> Digit(keys[j], shift) == Digit(keys[0], shift)
  {
    var first := Digit(keys[0], shift);
    for i := 0 to keys.Length
      invariant forall j :: 0 <= j < i ==> Digit(keys[j], shift) == first
    {
      if Digit(keys[i], shift) != first { return false; }
    }
    return true;
  }

  // -------------------------------------------------------------------- the sort

  /** Keys and ids are the originals, sorted by the bits below `shift`. */
  ghost predicate SortedTo(keys: seq<u64>, idx: seq<nat>, keys0: seq<u64>, idx0: seq<nat>, shift: nat) {
    Rearranged(keys, keys0, LowBits(keys0, shift)) && Rearranged(idx, idx0, LowBits(keys0, shift))
  }

  lemma {:induction false} DigitsFollow(keys: seq<u64>, keys0: seq<u64>, lo: seq<nat>, shift: nat)
    requires Rearranged(keys, keys0, lo)
    ensures Rearranged(DigitsOf(keys, shift), DigitsOf(keys0, shift), lo)
  {
  }

  lemma {:induction false} PassSorts(k1: seq<u64>, i1: seq<nat>, k2: seq<u64>, i2: seq<nat>, keys0: seq<u64>, idx0: seq<nat>, shift: nat)
    requires SortedTo(k1, i1, keys0, idx0, shift)
    requires Rearranged(k2, k1, DigitsOf(k1, shift)) && Rearranged(i2, i1, DigitsOf(k1, shift))
    ensures SortedTo(k2, i2, keys0, idx0, shift + 16)
  {
    var lo, hi, hi', c := LowBits(keys0, shift), DigitsOf(keys0, shift), DigitsOf(k1, shift), LowBits(keys0, shift + 16);
    DigitsFollow(k1, keys0, lo, shift);
    PassCombines(keys0, shift);
    PassesCompose(k2, k1, keys0, lo, hi, hi', c);
    PassesCompose(i2, i1, idx0, lo, hi, hi', c);
  }

  lemma {:induction false} SkipSorts(k1: seq<u64>, i1: seq<nat>, keys0: seq<u64>, idx0: seq<nat>, shift: nat)
    requires SortedTo(k1, i1, keys0, idx0, shift) && |k1| > 0
    requires forall j :: 0 <= j < |k1| ==> Digit(k1[j], shift) == Digit(k1[0], shift)
    ensures SortedTo(k1, i1, keys0, idx0, shift + 16)
  {
    var lo, hi, c := LowBits(keys0, shift), DigitsOf(keys0, shift), LowBits(keys0, shift + 16);
    PassCombines(keys0, shift);
    forall j | 0 <= j < |hi| ensures hi[j] == Digit(k1[0], shift) {
      assert k1[Pos(lo, j)] == keys0[j];
    }
    UniformSkips(k1, keys0, lo, hi, c);
    UniformSkips(i1, idx0, lo, hi, c);
  }

  lemma {:induction false} StartSorted(keys: seq<u64>, idx: seq<nat>)
    requires |keys| == |idx|
    ensures SortedTo(keys, idx, keys, idx, 0)
  {
    NothingMoves(keys, LowBits(keys, 0));
    NothingMoves(idx, LowBits(keys, 0));
  }

  lemma {:induction false} AllBits(keys: seq<u64>)
    ensures LowBits(keys, 64) == keys
  {
    Pow2Top();
  }

  /** The two arrays, rearranged together into the one stable order of keys. */
  method RadixSortSoa(keys: array<u64>, idx: array<nat>) returns (ks: array<u64>, vs: array<nat>)
    requires keys.Length == idx.Length
    modifies keys, idx
    ensures Rearranged(ks[..], old(keys[..]), old(keys[..]))
    ensures Rearranged(vs[..], old(idx[..]), old(keys[..]))
    ensures (ks == keys || fresh(ks)) && (vs == idx || fresh(vs))
  {
    if keys.Length < 128 {
      ks, vs := SortSmall(keys, idx);
    } else {
      ks, vs := SortByPasses(keys, idx);
    }
  }

  /** Four passes of sixteen bits, between the arrays and two buffers. */
  method SortByPasses(keys: array<u64>, idx: array<nat>) returns (ks: array<u64>, vs: array<nat>)
    requires 0 < keys.Length == idx.Length
    modifies keys, idx
    ensures Rearranged(ks[..], old(keys[..]), old(keys[..]))
    ensures Rearranged(vs[..], old(idx[..]), old(keys[..]))
    ensures (ks == keys || fresh(ks)) && (vs == idx || fresh(vs))
  {
    var n := keys.Length;
    ghost var keys0, idx0 := keys[..], idx[..];
    ks, vs := keys, idx;
    var kbuf, ibuf := new u64[n](_ => 0), new nat[n](_ => 0);
    var counts := new nat[DIGITS];
    StartSorted(keys0, idx0);
    var shift := 0;
    for pass := 0 to 4
      invariant shift == pass * 16
      invariant ks.Length == vs.Length == kbuf.Length == ibuf.Length == n
      invariant ks != kbuf && vs != ibuf && counts != vs && counts != ibuf
      invariant fresh(counts) && (ks == keys || fresh(ks)) && (vs == idx || fresh(vs))
      invariant (kbuf == keys || fresh(kbuf)) && (ibuf == idx || fresh(ibuf))
      invariant SortedTo(ks[..], vs[..], keys0, idx0, shift)
    {
      var moved := DoPass(ks, vs, kbuf, ibuf, counts, shift, keys0, idx0);
      if moved {
        ks, kbuf := kbuf, ks;
        vs, ibuf := ibuf, vs;
      }
      shift := shift + 16;
    }
    AllBits(keys0);
  }

  /** One pass into the buffers, or none if every digit is the same. */
  method DoPass(ks: array<u64>, vs: array<nat>, kbuf: array<u64>, ibuf: array<nat>, counts: array<nat>, shift: nat,
                ghost keys0: seq<u64>, ghost idx0: seq<nat>) returns (moved: bool)
    requires 0 < ks.Length == vs.Length == kbuf.Length == ibuf.Length && counts.Length == DIGITS
    requires kbuf != ks && ibuf != vs && ibuf != counts && vs != counts
    requires SortedTo(ks[..], vs[..], keys0, idx0, shift)
    modifies kbuf, ibuf, counts
    ensures moved ==> SortedTo(kbuf[..], ibuf[..], keys0, idx0, shift + 16)
    ensures !moved ==> SortedTo(ks[..], vs[..], keys0, idx0, shift + 16)
  {
    var alike := AllAlike(ks, shift);
    if alike {
      SkipSorts(ks[..], vs[..], keys0, idx0, shift);
      return false;
    }
    RadixPass(ks, vs, kbuf, ibuf, counts, shift);
    PassSorts(ks[..], vs[..], kbuf[..], ibuf[..], keys0, idx0, shift);
    return true;
  }

  lemma {:induction false} DigitSmall(k: u64, shift: nat)
    ensures Digit(k, shift) < DIGITS
  {
    DigitIs(k, shift);
  }

  method RadixPass(keys: array<u64>, idx: array<nat>, kbuf: array<u64>, ibuf: array<nat>, counts: array<nat>, shift: nat)
    requires keys.Length == idx.Length == kbuf.Length == ibuf.Length && counts.Length == DIGITS
    requires kbuf != keys && ibuf != idx && ibuf != counts && idx != counts
    modifies kbuf, ibuf, counts
    ensures Rearranged(kbuf[..], keys[..], DigitsOf(keys[..], shift))
    ensures Rearranged(ibuf[..], idx[..], DigitsOf(keys[..], shift))
  {
    ghost var ls := DigitsOf(keys[..], shift);
    forall j | 0 <= j < |ls| ensures ls[j] < DIGITS { DigitSmall(keys[j], shift); }
    DigitStarts(keys, counts, shift, ls);
    ScatterPairs(keys, idx, kbuf, ibuf, counts, shift, ls);
  }

  /** Short inputs: a stable comparison sort of the positions, then a gather. */
  method SortSmall(keys: array<u64>, idx: array<nat>) returns (ks: array<u64>, vs: array<nat>)
    requires keys.Length == idx.Length
    ensures Rearranged(ks[..], keys[..], keys[..]) && Rearranged(vs[..], idx[..], keys[..])
    ensures fresh(ks) && fresh(vs)
  {
    var n := keys.Length;
    var order := StableOrder(keys[..]);
    ks, vs := new u64[n](_ => 0), new nat[n](_ => 0);
    for p := 0 to n
      invariant forall q :: 0 <= q < p ==> ks[q] == keys[order[q]] && vs[q] == idx[order[q]]
    {
      ks[p], vs[p] := keys[order[p]], idx[order[p]];
    }
    Gathered(ks[..], keys[..], keys[..], order);
    Gathered(vs[..], idx[..], keys[..], order);
  }

  /** The positions `0..n` in stable order of key, by insertion. */
  method StableOrder(keys: seq<u64>) returns (order: seq<nat>)
    ensures |order| == |keys| && StableAscending(order, keys) && Rearranged(order, Identity(|keys|), keys)
  {
    order := [];
    for j := 0 to |keys|
      invariant |order| == j && Permutes(order) && InOrder(keys, order)
    {
      var p := j;
      while p > 0 && keys[order[p - 1]] > keys[j]
        invariant 0 <= p <= j
        invariant forall q :: p <= q < j ==> keys[order[q]] > keys[j]
      {
        p := p - 1;
      }
      InsertKeeps(keys, order, p);
      order := order[..p] + [j] + order[p..];
    }
    var f := StableExists(keys);
    StableIsUnique(f, Identity(|keys|), keys, order);
    assert order == f;
  }

  predicate InOrder(keys: seq<u64>, order: seq<nat>) {
    && (forall p :: 0 <= p < |order| ==> order[p] < |keys|)
    && forall p, q :: 0 <= p < q < |order| ==> Before(keys, order[p], order[q])
  }

  /** Inserting the next position after the last key that is not larger. */
  lemma {:induction false} InsertKeeps(keys: seq<u64>, order: seq<nat>, p: nat)
    requires p <= |order| < |keys| && Permutes(order) && InOrder(keys, order)
    requires forall q :: p <= q < |order| ==> keys[order[q]] > keys[|order|]
    requires p > 0 ==> keys[order[p - 1]] <= keys[|order|]
    ensures var more := order[..p] + [|order|] + order[p..]; Permutes(more) && InOrder(keys, more)
  {
    var j, more := |order|, order[..p] + [|order|] + order[p..];
    forall q | 0 <= q < p ensures Before(keys, order[q], j) {
      if q < p - 1 { assert Before(keys, order[q], order[p - 1]); }
    }
  }

  predicate Before(keys: seq<u64>, a: nat, b: nat)
    requires a < |keys| && b < |keys|
  {
    keys[a] < keys[b] || (keys[a] == keys[b] && a < b)
  }

  // --------------------------------------------------------------- keyed rows

  datatype KeyedRow = KeyedRow(key: u64, row: nat)

  function KeysOf(rows: seq<KeyedRow>): (ks: seq<u64>)
    ensures |ks| == |rows| && forall i :: 0 <= i < |rows| ==> ks[i] == rows[i].key
  {
    seq(|rows|, i requires 0 <= i < |rows| => rows[i].key)
  }

  function RowsOf(rows: seq<KeyedRow>): (vs: seq<nat>)
    ensures |vs| == |rows| && forall i :: 0 <= i < |rows| ==> vs[i] == rows[i].row
  {
    seq(|rows|, i requires 0 <= i < |rows| => rows[i].row)
  }

  /** Sort rows in place by key, ascending and stable. */
  method RadixSort(rows: array<KeyedRow>)
    modifies rows
    ensures Rearranged(rows[..], old(rows[..]), KeysOf(old(rows[..])))
  {
    ghost var before := rows[..];
    if rows.Length < 128 {
      SortRowsSmall(rows);
      return;
    }
    var keys, idx := Split(rows);
    var ks, vs := RadixSortSoa(keys, idx);
    ghost var k, v := ks[..], vs[..];
    for i := 0 to rows.Length
      invariant ks[..] == k && vs[..] == v
      invariant forall j :: 0 <= j < i ==> rows[j] == KeyedRow(k[j], v[j])
    {
      rows[i] := KeyedRow(ks[i], vs[i]);
    }
    Zip(rows[..], k, v, before);
  }

  method Split(rows: array<KeyedRow>) returns (keys: array<u64>, idx: array<nat>)
    ensures fresh(keys) && fresh(idx) && keys[..] == KeysOf(rows[..]) && idx[..] == RowsOf(rows[..])
  {
    var n := rows.Length;
    keys, idx := new u64[n](_ => 0), new nat[n](_ => 0);
    for i := 0 to n
      invariant forall j :: 0 <= j < i ==> keys[j] == rows[j].key && idx[j] == rows[j].row
    {
      keys[i], idx[i] := rows[i].key, rows[i].row;
    }
  }

  method SortRowsSmall(rows: array<KeyedRow>)
    modifies rows
    ensures Rearranged(rows[..], old(rows[..]), KeysOf(old(rows[..])))
  {
    var before := rows[..];
    var order := StableOrder(KeysOf(before));
    for p := 0 to rows.Length
      invariant forall q :: 0 <= q < p ==> rows[q] == before[order[q]]
    {
      rows[p] := before[order[p]];
    }
    Gathered(rows[..], before, KeysOf(before), order);
  }

  lemma {:induction false} Gathered<T>(out: seq<T>, items: seq<T>, ls: seq<nat>, order: seq<nat>)
    requires |out| == |items| == |ls| == |order| && Rearranged(order, Identity(|ls|), ls)
    requires forall p :: 0 <= p < |out| ==> order[p] < |items| && out[p] == items[order[p]]
    ensures Rearranged(out, items, ls)
  {
    forall j | 0 <= j < |ls| ensures Pos(ls, j) < |ls| && out[Pos(ls, j)] == items[j] {
      assert order[Pos(ls, j)] == Identity(|ls|)[j];
    }
  }

  lemma {:induction false} Zip(rows: seq<KeyedRow>, ks: seq<u64>, vs: seq<nat>, before: seq<KeyedRow>)
    requires |rows| == |ks| == |vs| == |before|
    requires forall i :: 0 <= i < |rows| ==> rows[i] == KeyedRow(ks[i], vs[i])
    requires Rearranged(ks, KeysOf(before), KeysOf(before)) && Rearranged(vs, RowsOf(before), KeysOf(before))
    ensures Rearranged(rows, before, KeysOf(before))
  {
    forall j | 0 <= j < |before| ensures rows[Pos(KeysOf(before), j)] == before[j] {
      assert ks[Pos(KeysOf(before), j)] == KeysOf(before)[j];
      assert vs[Pos(KeysOf(before), j)] == RowsOf(before)[j];
    }
  }

  // -------------------------------------------------------------- composite keys

  datatype CompositeRow = CompositeRow(key: seq<u64>, row: nat)

  predicate Wide(rows: seq<CompositeRow>, ncols: nat) { forall i :: 0 <= i < |rows| ==> |rows[i].key| >= ncols }

  /** Components `c..ncols` as one number, most significant first. */
  function Rank(key: seq<u64>, c: nat, ncols: nat): nat
    requires c <= ncols <= |key|
    decreases ncols - c
  {
    if c == ncols then 0 else key[c] * Pow2((ncols - c - 1) * 64) + Rank(key, c + 1, ncols)
  }

  /** Component by component, from `c` on. */
  predicate LexLess(a: seq<u64>, b: seq<u64>, c: nat, ncols: nat)
    requires c <= ncols <= |a| && ncols <= |b|
    decreases ncols - c
  {
    c < ncols && (a[c] < b[c] || (a[c] == b[c] && LexLess(a, b, c + 1, ncols)))
  }

  lemma {:induction false} RankBound(key: seq<u64>, c: nat, ncols: nat)
    requires c <= ncols <= |key|
    ensures Rank(key, c, ncols) < Pow2((ncols - c) * 64)
    decreases ncols - c
  {
    if c < ncols {
      RankBound(key, c + 1, ncols);
      Pow2Top();
      PowNext(ncols - c - 1, 64);
      BoundStep(Rank(key, c + 1, ncols), key[c], Pow2((ncols - c - 1) * 64), TOP);
    }
  }

  /** Ranks compare exactly as the components do. */
  lemma {:induction false} RankOrder(a: seq<u64>, b: seq<u64>, c: nat, ncols: nat)
    requires c <= ncols <= |a| && ncols <= |b|
    ensures Rank(a, c, ncols) < Rank(b, c, ncols) <==> LexLess(a, b, c, ncols)
    decreases ncols - c
  {
    if c < ncols {
      RankOrder(a, b, c + 1, ncols);
      RankBound(a, c + 1, ncols);
      RankBound(b, c + 1, ncols);
      PairOrder(a[c], Rank(a, c + 1, ncols), b[c], Rank(b, c + 1, ncols), Pow2((ncols - c - 1) * 64));
    }
  }

  function Ranks(rows: seq<CompositeRow>, c: nat, ncols: nat): (ls: seq<nat>)
    requires c <= ncols && Wide(rows, ncols)
    ensures |ls| == |rows| && forall i :: 0 <= i < |rows| ==> ls[i] == Rank(rows[i].key, c, ncols)
  {
    seq(|rows|, i requires 0 <= i < |rows| => Rank(rows[i].key, c, ncols))
  }

  function Column(rows: seq<CompositeRow>, c: nat, ncols: nat): (ls: seq<u64>)
    requires c < ncols && Wide(rows, ncols)
    ensures |ls| == |rows| && forall i :: 0 <= i < |rows| ==> ls[i] == rows[i].key[c]
  {
    seq(|rows|, i requires 0 <= i < |rows| => rows[i].key[c])
  }

  lemma {:induction false} ColumnCombines(rows: seq<CompositeRow>, c: nat, ncols: nat)
    requires c < ncols && Wide(rows, ncols)
    ensures Combined(Ranks(rows, c, ncols), Column(rows, c, ncols), Ranks(rows, c + 1, ncols))
  {
    forall j, k | 0 <= j < |rows| && 0 <= k < |rows|
      ensures Ranks(rows, c, ncols)[j] < Ranks(rows, c, ncols)[k] <==>
        rows[j].key[c] < rows[k].key[c]
        || (rows[j].key[c] == rows[k].key[c] && Ranks(rows, c + 1, ncols)[j] < Ranks(rows, c + 1, ncols)[k])
    {
      RankBound(rows[j].key, c + 1, ncols);
      RankBound(rows[k].key, c + 1, ncols);
      PairOrder(rows[j].key[c], Rank(rows[j].key, c + 1, ncols), rows[k].key[c], Rank(rows[k].key, c + 1, ncols),
                Pow2((ncols - c - 1) * 64));
    }
  }

  /** Sort by one component: key each row's position, sort, gather. */
  method SortColumn(rows: seq<CompositeRow>, c: nat, ncols: nat) returns (out: seq<CompositeRow>)
    requires c < ncols && Wide(rows, ncols)
    ensures Rearranged(out, rows, Column(rows, c, ncols))
  {
    var n := |rows|;
    var keyed := new KeyedRow[n](i requires 0 <= i < n => KeyedRow(rows[i].key[c], i));
    ghost var before := keyed[..];
    assert KeysOf(before) == Column(rows, c, ncols);
    RadixSort(keyed);
    ghost var ls := Column(rows, c, ncols);
    RowsInRange(keyed[..], before);
    out := seq(n, p requires 0 <= p < n && keyed[p].row < n reads keyed => rows[keyed[p].row]);
    forall j | 0 <= j < n ensures Pos(ls, j) < n && out[Pos(ls, j)] == rows[j] {
      assert keyed[..][Pos(ls, j)] == before[j];
    }
  }

  lemma {:induction false} RowsInRange(after: seq<KeyedRow>, before: seq<KeyedRow>)
    requires Rearranged(after, before, KeysOf(before)) && forall i :: 0 <= i < |before| ==> before[i].row < |before|
    ensures forall p :: 0 <= p < |after| ==> after[p].row < |after|
  {
    var ls := KeysOf(before);
    PositionsPermute(ls);
    forall p | 0 <= p < |after| ensures after[p].row < |after| {
      var j := Reaches(Positions(ls), p);
      assert after[Pos(ls, j)] == before[j];
    }
  }

  /** One stable sort per component, last component first, comes to the unique
  stable arrangement in lexicographic order. */
  method RadixSortComposite(rows: seq<CompositeRow>, ncols: nat) returns (out: seq<CompositeRow>)
    requires Wide(rows, ncols)
    ensures Rearranged(out, rows, Ranks(rows, 0, ncols))
  {
    out := rows;
    NothingMoves(rows, Ranks(rows, ncols, ncols));
    if |rows| < 2 || ncols == 0 {
      if |rows| < 2 { NothingMoves(rows, Ranks(rows, 0, ncols)); }
      return;
    }
    var c: nat := ncols;
    while c > 0
      invariant c <= ncols && Rearranged(out, rows, Ranks(rows, c, ncols))
    {
      StillWide(out, rows, Ranks(rows, c, ncols), ncols);
      c := c - 1;
      var next := SortColumn(out, c, ncols);
      ColumnFollows(out, rows, Ranks(rows, c + 1, ncols), c, ncols);
      ColumnCombines(rows, c, ncols);
      PassesCompose(next, out, rows, Ranks(rows, c + 1, ncols), Column(rows, c, ncols), Column(out, c, ncols), Ranks(rows, c, ncols));
      out := next;
    }
  }

  lemma {:induction false} StillWide(out: seq<CompositeRow>, rows: seq<CompositeRow>, ls: seq<nat>, ncols: nat)
    requires Rearranged(out, rows, ls) && Wide(rows, ncols)
    ensures Wide(out, ncols)
  {
    PositionsPermute(ls);
    forall p | 0 <= p < |out| ensures |out[p].key| >= ncols {
      var j := Reaches(Positions(ls), p);
      assert out[Pos(ls, j)] == rows[j];
    }
  }

  lemma {:induction false} ColumnFollows(out: seq<CompositeRow>, rows: seq<CompositeRow>, ls: seq<nat>, c: nat, ncols: nat)
    requires Rearranged(out, rows, ls) && Wide(rows, ncols) && Wide(out, ncols) && c < ncols
    ensures Rearranged(Column(out, c, ncols), Column(rows, c, ncols), ls)
  {
  }
}
