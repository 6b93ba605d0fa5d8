/** Frame-of-reference packing in its three layouts, random access by a
reciprocal multiply or one wide load, bulk decode, and a lower bound searched
directly over the packed words. */
module BitPack {
  import opened Bits

  datatype Packed = Packed(base: u64, width: nat, per: nat, recip: nat, mask: u64, words: seq<u64>)

  const MAX_ROWS: nat := 0x400_0000 // 2^26: where the reciprocal is exact

  function MaskOf(width: nat): u64
    requires width <= 64
  {
    if width == 0 then 0 else if width == 64 then TOP - 1 else (Shl(1, width) - 1) % TOP
  }

  function Recip(per: nat): nat
    requires per > 0
  {
    (0x1_0000_0000 + per - 1) / per
  }

  /** Rebuild the derived fields from the stored ones. */
  function FromParts(base: u64, width: nat, words: seq<u64>): Packed
    requires width <= 64
  {
    if width == 0 || width > 32 then Packed(base, width, 0, 0, MaskOf(width), words)
    else Packed(base, width, 64 / width, Recip(64 / width), MaskOf(width), words)
  }

  // ------------------------------------------------------------------ random access

  /** `i / per` by a wrapping multiply and a shift. */
  function Quotient(p: Packed, i: u64): nat { Shr((i * p.recip) % TOP, 32) }

  /** Where value `i` of a straddled layout begins. */
  function BitOf(i: nat, width: nat): nat { i * width }

  /** Every word the access touches is there. */
  predicate Readable(p: Packed, i: u64) {
    if p.per != 0 then Quotient(p, i) * p.per <= i && Quotient(p, i) < |p.words|
    else p.width == 0 || BitOf(i, p.width) / 64 + 1 < |p.words|
  }

  /** Lane `r` of a word. */
  function Lane(word: u64, r: nat, width: nat, mask: u64): nat { And(Shr(word, r * width), mask) }

  /** A value at `off` in a 128-bit load of two words. */
  function Wide(lo: u64, hi: u64, off: nat, mask: u64): nat { And(Low(Shr(Or(lo, hi * TOP), off)), mask) }

  function Get(p: Packed, i: u64): u64
    requires Readable(p, i)
  {
    if p.per != 0 then
      var q := Quotient(p, i);
      WrapAdd(p.base, Low(Lane(p.words[q], i - q * p.per, p.width, p.mask)))
    else if p.width == 0 then p.base
    else
      var bit := BitOf(i, p.width);
      WrapAdd(p.base, Low(Wide(p.words[bit / 64], p.words[bit / 64 + 1], bit % 64, p.mask)))
  }

  /** A cast to 64 bits. */
  function Low(x: nat): u64 { x % TOP }

  function ValueCeiling(p: Packed): u64 { WrapAdd(p.base, p.mask) }

  // ------------------------------------------------------------------- the layouts

  function Deltas(vals: seq<u64>, base: u64): (ds: seq<nat>)
    requires forall i :: 0 <= i < |vals| ==> base <= vals[i]
    ensures |ds| == |vals| && forall i :: 0 <= i < |vals| ==> ds[i] == vals[i] - base
  {
    seq(|vals|, i requires 0 <= i < |vals| => vals[i] - base)
  }

  function Min(a: nat, b: nat): nat { if a < b then a else b }

  /** The `q`-th group of `per` among the first `n` values. */
  function Chunk(ds: seq<nat>, q: nat, per: nat, n: nat): seq<nat>
    requires n <= |ds|
  {
    if n <= q * per then [] else ds[q * per..Min((q + 1) * per, n)]
  }

  /** A word holds the `q`-th group, one value a lane. */
  predicate HoldsGroup(word: u64, ds: seq<nat>, q: nat, width: nat, per: nat, n: nat)
    requires n <= |ds|
  {
    word == Number(Chunk(ds, q, per, n), width)
  }

  /** Lanes: each word holds its own group of values and straddles nothing. */
  predicate LaneWords(words: seq<u64>, ds: seq<nat>, width: nat, per: nat, n: nat)
    requires n <= |ds|
  {
    forall q {:trigger HoldsGroup(words[q], ds, q, width, per, n)} :: 0 <= q < |words| ==> HoldsGroup(words[q], ds, q, width, per, n)
  }

  /** `p` holds exactly these values. */
  predicate Holds(p: Packed, vals: seq<u64>) {
    && p.width <= 64 && p == FromParts(p.base, p.width, p.words)
    && (forall i :: 0 <= i < |vals| ==> p.base <= vals[i] && vals[i] - p.base < Pow2(p.width))
    && var ds := Deltas(vals, p.base);
      if p.width == 0 then true
      else if p.width <= 32 then |p.words| * p.per >= |vals| && LaneWords(p.words, ds, p.width, p.per, |ds|)
      else |p.words| * 64 >= |vals| * p.width + 64 && Number(p.words, 64) == Number(ds, p.width)
  }

  lemma {:induction false} MaskIs(width: nat)
    requires width <= 64
    ensures MaskOf(width) == Pow2(width) - 1
  {
    if width == 64 {
      Pow2Top();
    } else {
      OneShifted(width);
    }
  }

  lemma {:induction false} OneShifted(width: nat)
    requires width < 64
    ensures Shl(1, width) == Pow2(width) < TOP
  {
    Pow2Top();
    Pow2Mono(width + 1, 64);
    SmallShift(1, width);
  }

  // ------------------------------------------------------------- the reciprocal

  const HALF: nat := 0x1_0000_0000

  lemma {:induction false} HalfIs()
    ensures Pow2(32) == HALF
  {
    assert Pow2(8) == 256;
    Pow2Add(8, 8);
    Pow2Add(16, 16);
  }

  /** The rounded-up reciprocal overshoots by less than one lane. */
  lemma {:induction false} RecipIs(per: nat)
    requires 0 < per
    ensures HALF <= Recip(per) * per < HALF + per
  {
  }

  lemma {:induction false} Product(q: nat, per: nat, r: nat, recip: nat, e: nat)
    requires recip * per == HALF + e
    ensures (q * per + r) * recip == q * HALF + (q * e + r * recip)
  {
    Distribute(q * per, r, recip);
    Associate(q, per, recip);
    Distribute(HALF, e, q);
    assert per * recip == HALF + e;
  }

  lemma {:induction false} Remainder(q: nat, e: nat, r: nat, recip: nat, per: nat)
    requires 1 < per <= 64 && e < per && r < per && recip * per == HALF + e
    requires q * per < MAX_ROWS
    ensures q * e + r * recip < HALF
  {
    MulMono(r, per - 1, recip);
    Distribute(per, -1, recip);
    assert r * recip <= HALF + e - recip;
    MulMono(e, per - 1, q);
    Distribute(per, -1, q);
    assert q * e <= q * per - q;
    if per == 64 {
      assert e == 0;
    } else if recip <= 0x410_0000 {
      MulMono(recip, 0x410_0000, per);
      assert false;
    }
  }

  /** The carry left after multiplying by the rounded-up reciprocal never
  reaches the next quotient below 2^26. */
  lemma {:induction false} ReciprocalExact(i: nat, per: nat)
    requires i < MAX_ROWS && 1 < per <= 64
    ensures (i * Recip(per)) % TOP / Pow2(32) == Over(i, per)
  {
    RecipIs(per);
    ByReciprocal(i, Over(i, per), Rem(i, per), per, Recip(per));
    HalfIs();
  }

  lemma {:induction false} ByReciprocal(i: nat, q: nat, r: nat, per: nat, recip: nat)
    requires 1 < per <= 64 && r < per && i == q * per + r && i < MAX_ROWS
    requires HALF <= recip * per < HALF + per
    ensures (i * recip) % TOP / HALF == q
  {
    var e := recip * per - HALF;
    Product(q, per, r, recip, e);
    Remainder(q, e, r, recip, per);
    assert q < MAX_ROWS by { MulMono(1, per, q); }
    SmallProduct(q, q * e + r * recip);
  }

  lemma {:induction false} SmallProduct(q: nat, low: nat)
    requires q < MAX_ROWS && low < HALF
    ensures (q * HALF + low) % TOP / HALF == q
  {
  }

  // ----------------------------------------------------------------- lossless access

  lemma {:induction false} InChunk(i: nat, per: nat)
    requires per > 0
    ensures i == Over(i, per) * per + Rem(i, per)
  {
  }

  /** A lane extracted from its word. */
  lemma {:induction false} LaneOf(c: seq<nat>, w: nat, r: nat, word: u64, mask: u64)
    requires Digits(c, w) && r < |c| && mask == Pow2(w) - 1 && word == Number(c, w)
    ensures Lane(word, r, w, mask) == c[r]
  {
    DigitAt(c, w, r);
    AndMask(Shr(word, r * w), w);
  }

  lemma {:induction false} ChunkAt(ds: seq<nat>, q: nat, r: nat, per: nat, w: nat)
    requires r < per && q * per + r < |ds| && Digits(ds, w)
    ensures var c := Chunk(ds, q, per, |ds|); r < |c| && c[r] == ds[q * per + r] && Digits(c, w)
  {
    var s := q * per;
    assert (q + 1) * per == s + per by { Distribute(q, 1, per); }
    assert Chunk(ds, q, per, |ds|) == ds[s..Min(s + per, |ds|)];
  }

  lemma {:induction false} WordInBounds(i: nat, n: nat, per: nat, len: nat)
    requires per > 0 && i < n && len * per >= n
    ensures Over(i, per) < len
  {
    InChunk(i, per);
    if Over(i, per) >= len { MulMono(len, Over(i, per), per); assert false; }
  }

  lemma {:induction false} LaneIs(word: u64, ds: seq<nat>, q: nat, r: nat, per: nat, width: nat)
    requires r < per && q * per + r < |ds| && Digits(ds, width) && width <= 64
    requires word == Number(Chunk(ds, q, per, |ds|), width)
    ensures Lane(word, r, width, MaskOf(width)) == ds[q * per + r]
  {
    ChunkAt(ds, q, r, per, width);
    MaskIs(width);
    LaneOf(Chunk(ds, q, per, |ds|), width, r, word, MaskOf(width));
  }

  lemma {:induction false} Rebased(base: u64, v: u64)
    requires base <= v
    ensures WrapAdd(base, Low(v - base)) == v
  {
  }

  /** The access to a lane, once the quotient is known. */
  lemma {:induction false} LaneGet(p: Packed, vals: seq<u64>, i: nat, q: nat, r: nat)
    requires Holds(p, vals) && 0 < p.width <= 32 && i < |vals| <= MAX_ROWS
    requires Quotient(p, i) == q < |p.words| && r < p.per && i == q * p.per + r
    ensures Readable(p, i) && Get(p, i) == vals[i]
  {
    assert HoldsGroup(p.words[q], Deltas(vals, p.base), q, p.width, p.per, |vals|);
    LaneIs(p.words[q], Deltas(vals, p.base), q, r, p.per, p.width);
    Rebased(p.base, vals[i]);
  }

  lemma {:induction false} LaneAt(p: Packed, vals: seq<u64>, i: nat)
    requires Holds(p, vals) && 0 < p.width <= 32 && i < |vals| <= MAX_ROWS
    ensures Readable(p, i) && Get(p, i) == vals[i]
  {
    LanesFit(p.width);
    var q := Over(i, p.per);
    assert Quotient(p, i) == q by { ReciprocalExact(i, p.per); }
    assert q < |p.words| by { WordInBounds(i, |vals|, p.per, |p.words|); }
    InChunk(i, p.per);
    LaneGet(p, vals, i, q, Rem(i, p.per));
  }

  lemma {:induction false} LanesFit(width: nat)
    requires 0 < width <= 32
    ensures 1 < 64 / width <= 64 && 64 / width * width <= 64
  {
    var per := 64 / width;
    assert 64 == per * width + 64 % width;
    if per <= 1 { MulMono(per, 1, width); assert false; }
  }

  lemma {:induction false} WideReadable(n: nat, i: nat, width: nat, len: nat)
    requires i < n && 32 < width <= 64 && len * 64 >= n * width + 64
    ensures BitOf(i, width) / 64 + 1 < len
  {
    MulMono(i + 1, n, width);
    Distribute(i, 1, width);
  }

  /** What is a multiple of `a * w` never reaches a value below it. */
  lemma {:induction false} AboveValue(pair: nat, a: nat, w: nat, rest: nat)
    requires a > 0 && w > 0
    ensures (pair + a * (w * rest)) / a % w == pair / a % w
  {
    MulMod(pair, w * rest, a);
    MulMod(pair / a, rest, w);
    assert (w * rest) * a == a * (w * rest);
    assert rest * w == w * rest;
  }

  /** Bits above a pair never reach a value within it. */
  lemma {:induction false} AbovePair(pair: nat, rest: nat, off: nat, width: nat)
    requires off + width <= 128
    ensures (pair + Pow2(128) * rest) / Pow2(off) % Pow2(width) == pair / Pow2(off) % Pow2(width)
  {
    var k := 128 - off - width;
    var a, w, h := Pow2(off), Pow2(width), Pow2(k);
    assert Pow2(128) == a * (w * h) by {
      Pow2Add(off, width + k);
      Pow2Add(width, k);
    }
    Regrouped(a, w, h, rest);
    AboveValue(pair, a, w, h * rest);
  }

  lemma {:induction false} Regrouped(a: nat, w: nat, h: nat, rest: nat)
    ensures a * (w * h) * rest == a * (w * (h * rest)) && h * rest >= 0
  {
    Associate(a, w * h, rest);
    Associate(w, h, rest);
  }

  lemma {:induction false} PairOf(tail: seq<nat>) returns (rest: nat)
    requires |tail| >= 2
    ensures Number(tail, 64) == tail[0] + tail[1] * TOP + Pow2(128) * rest
  {
    rest := Number(tail[2..], 64);
    assert tail[1..][1..] == tail[2..];
    Pow2Top();
    Pow2Add(64, 64);
    Distribute(tail[1], TOP * rest, TOP);
    Associate(TOP, TOP, rest);
  }

  /** Two neighbouring words, shifted, hold any straddled value. */
  lemma {:induction false} PairHolds(words: seq<nat>, bit: nat, width: nat)
    requires Digits(words, 64) && bit / 64 + 1 < |words| && width <= 64
    ensures var pair := words[bit / 64] + words[bit / 64 + 1] * TOP;
      pair / Pow2(bit % 64) % Pow2(width) == Number(words, 64) / Pow2(bit) % Pow2(width)
  {
    var wi, off := bit / 64, bit % 64;
    NumberShift(words, 64, wi);
    var rest := PairOf(words[wi..]);
    Pow2Add(wi * 64, off);
    DivDiv(Number(words, 64), Pow2(wi * 64), Pow2(off));
    AbovePair(words[wi] + words[wi + 1] * TOP, rest, off, width);
  }

  lemma {:induction false} ModMod(x: nat, width: nat)
    requires width <= 64
    ensures x % TOP % Pow2(width) == x % Pow2(width)
  {
    Pow2Top();
    Pow2Add(width, 64 - width);
    var p, h := Pow2(width), Pow2(64 - width);
    NestedMod(x, TOP, p, h);
  }

  lemma {:induction false} NestedMod(x: nat, t: nat, p: nat, h: nat)
    requires p > 0 && t == p * h && t > 0
    ensures x % t % p == x % p
  {
    Associate(x / t, h, p);
    MulMod(x % t, x / t * h, p);
    assert x == x % t + x / t * t;
  }

  /** A value masked out of a shifted pair. */
  lemma {:induction false} WideIs(lo: u64, hi: u64, off: nat, width: nat, mask: u64)
    requires width <= 64 && mask == Pow2(width) - 1
    ensures Wide(lo, hi, off, mask) == (lo + hi * TOP) / Pow2(off) % Pow2(width)
  {
    Pow2Top();
    OrDisjoint(lo, 64, hi);
    var x := Shr(lo + hi * TOP, off);
    AndMask(Low(x), width);
    ModMod(x, width);
  }

  lemma {:induction false} WideIsValue(words: seq<u64>, ds: seq<nat>, i: nat, bit: nat, width: nat)
    requires i < |ds| && Digits(ds, width) && width <= 64 && bit == BitOf(i, width)
    requires bit / 64 + 1 < |words| && Number(words, 64) == Number(ds, width)
    ensures Wide(words[bit / 64], words[bit / 64 + 1], bit % 64, MaskOf(width)) == ds[i]
  {
    WordsAreDigits(words);
    PairHolds(words, bit, width);
    DigitAt(ds, width, i);
    MaskIs(width);
    WideIs(words[bit / 64], words[bit / 64 + 1], bit % 64, width, MaskOf(width));
  }

  /** The access to a straddled value, once its bit position is known. */
  lemma {:induction false} WideGet(p: Packed, vals: seq<u64>, i: nat, bit: nat)
    requires Holds(p, vals) && 32 < p.width <= 64 && i < |vals| <= MAX_ROWS
    requires bit == BitOf(i, p.width) && bit / 64 + 1 < |p.words|
    ensures Readable(p, i) && Get(p, i) == vals[i]
  {
    WideIsValue(p.words, Deltas(vals, p.base), i, bit, p.width);
    Rebased(p.base, vals[i]);
  }

  lemma {:induction false} StraddledAt(p: Packed, vals: seq<u64>, i: nat)
    requires Holds(p, vals) && 32 < p.width <= 64 && i < |vals| <= MAX_ROWS
    ensures Readable(p, i) && Get(p, i) == vals[i]
  {
    WideReadable(|vals|, i, p.width, |p.words|);
    WideGet(p, vals, i, BitOf(i, p.width));
  }

  lemma {:induction false} WordsAreDigits(words: seq<u64>)
    ensures Digits(words, 64)
  {
    Pow2Top();
  }

  /** Packing loses nothing: any value comes back from any layout, and every
  word the access reads is in bounds. */
  lemma {:induction false} GetExact(p: Packed, vals: seq<u64>, i: nat)
    requires Holds(p, vals) && i < |vals| <= MAX_ROWS
    ensures Readable(p, i) && Get(p, i) == vals[i]
  {
    if p.width == 0 {
    } else if p.width <= 32 {
      LaneAt(p, vals, i);
    } else {
      StraddledAt(p, vals, i);
    }
  }

  lemma {:induction false} MaskedSmall(x: nat, width: nat)
    requires width <= 64
    ensures And(x, MaskOf(width)) <= MaskOf(width)
  {
    MaskIs(width);
    AndMask(x, width);
  }

  lemma {:induction false} InFrame(base: u64, mask: u64, x: nat)
    requires base + mask < TOP && x <= mask
    ensures base <= WrapAdd(base, Low(x)) <= WrapAdd(base, mask)
  {
  }

  lemma {:induction false} MaskedInFrame(base: u64, x: nat, width: nat)
    requires width <= 64 && base + MaskOf(width) < TOP
    ensures base <= WrapAdd(base, Low(And(x, MaskOf(width)))) <= WrapAdd(base, MaskOf(width))
  {
    MaskedSmall(x, width);
    InFrame(base, MaskOf(width), And(x, MaskOf(width)));
  }

  /** Whatever the words, a value stays within the frame when the frame does
  not wrap. */
  lemma {:induction false} WithinFrame(p: Packed, i: u64)
    requires p.width <= 64 && p == FromParts(p.base, p.width, p.words) && Readable(p, i)
    requires p.base + p.mask < TOP
    ensures p.base <= Get(p, i) <= ValueCeiling(p)
  {
    if p.per != 0 {
      LaneInFrame(p.base, p.words[Quotient(p, i)], i - Quotient(p, i) * p.per, p.width);
    } else if p.width > 0 {
      var bit := BitOf(i, p.width);
      WideInFrame(p.base, p.words[bit / 64], p.words[bit / 64 + 1], bit % 64, p.width);
    }
  }

  lemma {:induction false} LaneInFrame(base: u64, word: u64, r: nat, width: nat)
    requires width <= 64 && base + MaskOf(width) < TOP
    ensures base <= WrapAdd(base, Low(Lane(word, r, width, MaskOf(width)))) <= WrapAdd(base, MaskOf(width))
  {
    MaskedInFrame(base, Shr(word, r * width), width);
  }

  lemma {:induction false} WideInFrame(base: u64, lo: u64, hi: u64, off: nat, width: nat)
    requires width <= 64 && base + MaskOf(width) < TOP
    ensures base <= WrapAdd(base, Low(Wide(lo, hi, off, MaskOf(width)))) <= WrapAdd(base, MaskOf(width))
  {
    MaskedInFrame(base, Low(Shr(Or(lo, hi * TOP), off)), width);
  }

  /** The ceiling bounds the packed values exactly when `base + mask` does not
  wrap; when it does, no value at all is below it. */
  lemma {:induction false} CeilingIff(p: Packed, vals: seq<u64>)
    requires Holds(p, vals) && |vals| > 0
    ensures (forall i :: 0 <= i < |vals| ==> vals[i] <= ValueCeiling(p)) <==> p.base + p.mask < TOP
  {
    MaskIs(p.width);
    if p.base + p.mask >= TOP {
      assert p.base <= vals[0];
    }
  }

  /** A column whose frame wraps, as packing two values two bits apart at the top
  of the range writes it, spare word included.  Its ceiling is 0. */
  function TopColumn(): Packed { FromParts(TOP - 3, 2, [8, 0]) }

  lemma {:induction false} CeilingWraps()
    ensures Holds(TopColumn(), [TOP - 3, TOP - 1])
    ensures ValueCeiling(TopColumn()) == 0
  {
    var vals: seq<u64> := [TOP - 3, TOP - 1];
    var p := TopColumn();
    assert Pow2(2) == 4;
    MaskIs(2);
    var ds := Deltas(vals, p.base);
    assert ds == [0, 2];
    assert ds[1..] == [2] && ds[1..][1..] == [];
    assert Number(ds[1..], 2) == 2;
    assert Number(ds, 2) == 8;
    assert Chunk(ds, 0, 32, 2) == ds;
    assert HoldsGroup(p.words[0], ds, 0, 2, 32, 2);
  }
}
