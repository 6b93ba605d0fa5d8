/** Writing packed columns word by word, decoding ranges of them in bulk, and
searching them: the loops, each proved against the column's meaning. */
module Packing {
  import opened Bits
  import opened BitPack

  // --------------------------------------------------------------- filling lanes

  /** A value joins its own group and no other. */
  lemma {:induction false} ChunkGrows(ds: seq<nat>, per: nat, i: nat, q: nat, r: nat)
    requires i < |ds| && r < per && i == q * per + r
    ensures |Chunk(ds, q, per, i)| == r && Chunk(ds, q, per, i + 1) == Chunk(ds, q, per, i) + [ds[i]]
  {
    var s := q * per;
    assert (q + 1) * per == s + per by { Distribute(q, 1, per); }
    assert Chunk(ds, q, per, i) == ds[s..i];
    assert Chunk(ds, q, per, i + 1) == ds[s..i + 1];
  }

  lemma {:induction false} ChunkStays(ds: seq<nat>, per: nat, i: nat, q: nat, r: nat, other: nat)
    requires i < |ds| && r < per && i == q * per + r && other != q
    ensures Chunk(ds, other, per, i + 1) == Chunk(ds, other, per, i)
  {
    if other < q {
      MulMono(other + 1, q, per);
      assert (other + 1) * per <= i;
    } else {
      MulMono(q + 1, other, per);
      Distribute(q, 1, per);
      assert other * per >= i + 1;
    }
  }

  lemma {:induction false} FitsWord(n: nat, width: nat, per: nat)
    requires n <= per && per * width <= 64
    ensures Pow2(n * width) <= TOP
  {
    MulMono(n, per, width);
    Pow2Mono(n * width, 64);
    Pow2Top();
  }

  lemma {:induction false} WordBound(c: seq<nat>, width: nat, per: nat)
    requires Digits(c, width) && |c| <= per && per * width <= 64
    ensures Number(c, width) < TOP
  {
    NumberBound(c, width);
    FitsWord(|c|, width, per);
  }

  lemma {:induction false} OrInto(x: nat, d: u64, k: nat)
    requires x < Pow2(k) && x + d * Pow2(k) < TOP
    ensures Or(x, Shl(d, k)) == x + d * Pow2(k)
  {
    SmallShift(d, k);
    OrDisjoint(x, k, d);
  }

  lemma {:induction false} LanePut(c: seq<nat>, d: u64, width: nat, per: nat, k: nat)
    requires Digits(c, width) && d < Pow2(width) && |c| < per && per * width <= 64 && k == |c| * width
    ensures Or(Number(c, width), Shl(d, k)) == Number(c + [d], width) < TOP
  {
    NumberAppend(c, d, width);
    WordBound(c + [d], width, per);
    NumberBound(c, width);
    OrInto(Number(c, width), d, k);
  }

  lemma {:induction false} OthersStay(words: seq<u64>, ds: seq<nat>, width: nat, per: nat, i: nat, q: nat, r: nat)
    requires i < |ds| && r < per && i == q * per + r && LaneWords(words, ds, width, per, i)
    ensures forall k {:trigger HoldsGroup(words[k], ds, k, width, per, i + 1)} ::
      0 <= k < |words| && k != q ==> HoldsGroup(words[k], ds, k, width, per, i + 1)
  {
    forall k | 0 <= k < |words| && k != q ensures HoldsGroup(words[k], ds, k, width, per, i + 1) {
      assert HoldsGroup(words[k], ds, k, width, per, i);
      ChunkStays(ds, per, i, q, r, k);
    }
  }

  /** The word that takes the next value. */
  lemma {:induction false} OneLane(c: seq<nat>, d: u64, word: u64, width: nat, per: nat, k: nat) returns (x: u64)
    requires word == Number(c, width) && Digits(c, width) && d < Pow2(width)
    requires |c| < per && per * width <= 64 && k == |c| * width
    ensures x == Or(word, Shl(d, k)) == Number(c + [d], width)
  {
    LanePut(c, d, width, per, k);
    x := Or(word, Shl(d, k));
  }

  lemma {:induction false} Reassembled(words: seq<u64>, ds: seq<nat>, width: nat, per: nat, n: nat, q: nat, x: u64)
    requires n <= |ds| && q < |words| && HoldsGroup(x, ds, q, width, per, n)
    requires forall k {:trigger HoldsGroup(words[k], ds, k, width, per, n)} ::
      0 <= k < |words| && k != q ==> HoldsGroup(words[k], ds, k, width, per, n)
    ensures LaneWords(words[q := x], ds, width, per, n)
  {
    var more := words[q := x];
    forall k | 0 <= k < |words| ensures HoldsGroup(more[k], ds, k, width, per, n) {
      if k != q { assert HoldsGroup(words[k], ds, k, width, per, n); }
    }
  }

  lemma {:induction false} LaneStep(words: seq<u64>, ds: seq<nat>, width: nat, per: nat, i: nat, q: nat, r: nat) returns (x: u64)
    requires i < |ds| && LaneWords(words, ds, width, per, i) && Digits(ds, width)
    requires r < per && i == q * per + r && q < |words| && per * width <= 64 && ds[i] < TOP
    ensures x == Or(words[q], Shl(ds[i], r * width)) && LaneWords(words[q := x], ds, width, per, i + 1)
  {
    assert HoldsGroup(words[q], ds, q, width, per, i);
    var c := Chunk(ds, q, per, i);
    ChunkGrows(ds, per, i, q, r);
    x := OneLane(c, ds[i], words[q], width, per, r * width);
    OthersStay(words, ds, width, per, i, q, r);
    Reassembled(words, ds, width, per, i + 1, q, x);
  }

  lemma {:induction false} LanesStart(words: seq<u64>, ds: seq<nat>, width: nat, per: nat)
    requires forall k :: 0 <= k < |words| ==> words[k] == 0
    ensures LaneWords(words, ds, width, per, 0)
  {
    forall q: nat | q < |words| ensures Chunk(ds, q, per, 0) == [] {
      assert 0 <= q * per;
    }
  }

  // ---------------------------------------------------------- filling a bit stream

  /** One value written at `bit`, into one word or across two. */
  function Put(words: seq<u64>, d: u64, bit: nat, width: nat): (r: seq<nat>)
    requires bit / 64 + 1 < |words|
    ensures |r| == |words|
  {
    var wi, off := bit / 64, bit % 64;
    var before: seq<nat> := words;
    var first := before[wi := Or(words[wi], Shl(d, off))];
    if off + width > 64 then first[wi + 1 := Or(first[wi + 1], Shr(d, 64 - off))] else first
  }

  /** A digit times its place is no more than the number. */
  lemma {:induction false} DigitBelow(words: seq<nat>, k: nat)
    requires Digits(words, 64) && k < |words|
    ensures words[k] * Pow2(k * 64) <= Number(words, 64)
  {
    NumberShift(words, 64, k);
    var tail := words[k..];
    assert Number(tail, 64) == words[k] + Pow2(64) * Number(tail[1..], 64);
    QuotientBelow(Number(words, 64), Pow2(k * 64), words[k], Pow2(64), Number(tail[1..], 64));
  }

  lemma {:induction false} QuotientBelow(n: nat, p: nat, w: nat, b: nat, rest: nat)
    requires p > 0 && n / p == w + b * rest
    ensures w * p <= n
  {
    assert n == n / p * p + n % p;
    MulMono(w, n / p, p);
  }

  /** A stream of `bit` bits leaves everything above them clear. */
  lemma {:induction false} ClearAbove(words: seq<nat>, bit: nat, k: nat)
    requires Digits(words, 64) && Number(words, 64) < Pow2(bit) && bit / 64 <= k < |words|
    ensures words[k] < (if k == bit / 64 then Pow2(bit % 64) else 1)
  {
    DigitBelow(words, k);
    var p := Pow2(k * 64);
    if k == bit / 64 {
      Pow2Add(bit % 64, k * 64);
      if words[k] >= Pow2(bit % 64) { MulMono(Pow2(bit % 64), words[k], p); assert false; }
    } else {
      Pow2Mono(bit, k * 64);
      if words[k] >= 1 { MulMono(1, words[k], p); assert false; }
    }
  }

  lemma {:induction false} ShiftFits(d: u64, off: nat, width: nat)
    requires off + width <= 64 && d < Pow2(width)
    ensures d * Pow2(off) < TOP
  {
    Pow2Top();
    Pow2Add(off, width);
    Pow2Mono(off + width, 64);
    BoundStep(0, d, Pow2(off), Pow2(width));
  }

  lemma {:induction false} CarryOver(d: nat, p: nat, h: nat)
    requires p > 0 && h > 0
    ensures p * h > 0 && (d * p) / (p * h) == d / h
  {
    DivDiv(d * p, p, h);
    MulMod(0, d, p);
  }

  /** A shifted value fits one word, or carries its top bits to the next. */
  lemma {:induction false} CarryIs(d: u64, off: nat, width: nat)
    requires off < 64 && width <= 64 && d < Pow2(width)
    ensures d * Pow2(off) / TOP == if off + width > 64 then Shr(d, 64 - off) else 0
  {
    if off + width <= 64 {
      ShiftFits(d, off, width);
    } else {
      Pow2Top();
      Pow2Add(off, 64 - off);
      CarryOver(d, Pow2(off), Pow2(64 - off));
    }
  }

  /** What stays in the first word is a multiple of its place. */
  lemma {:induction false} LowPart(d: u64, off: nat) returns (y: nat)
    requires off < 64
    ensures Shl(d, off) == y * Pow2(off)
  {
    Pow2Top();
    Pow2Add(off, 64 - off);
    y := LowStays(d, Pow2(off), Pow2(64 - off));
  }

  lemma {:induction false} LowStays(d: nat, p: nat, h: nat) returns (y: nat)
    requires p > 0 && h > 0
    ensures p * h > 0 && (d * p) % (p * h) == y * p
  {
    var x := d * p;
    DivDiv(x, p, h);
    NestedMod(x, p * h, p, h);
    MulMod(0, d, p);
    y := x % (p * h) / p;
  }

  /** A stream written so far leaves the next value's place clear. */
  lemma {:induction false} EndIsClear(words: seq<u64>, ds: seq<nat>, width: nat, bit: nat)
    requires Digits(ds, width) && bit == |ds| * width && bit / 64 + 1 < |words|
    requires Number(words, 64) == Number(ds, width)
    ensures words[bit / 64] < Pow2(bit % 64) && words[bit / 64 + 1] == 0
  {
    WordsAreDigits(words);
    NumberBound(ds, width);
    ClearAbove(words, bit, bit / 64);
    ClearAbove(words, bit, bit / 64 + 1);
  }

  /** The two halves of a value added to their words. */
  function Halves(words: seq<nat>, wi: nat, lo: nat, hi: nat): seq<nat>
    requires wi + 1 < |words|
  {
    words[wi := words[wi] + lo][wi + 1 := hi]
  }

  /** Adding the two halves to their words adds the value at its place. */
  lemma {:induction false} HalvesAdd(words: seq<nat>, d: nat, lo: nat, hi: nat, wi: nat, off: nat, bit: nat)
    requires bit == wi * 64 + off && wi + 1 < |words| && words[wi + 1] == 0 && d * Pow2(off) == lo + TOP * hi
    ensures Number(Halves(words, wi, lo, hi), 64) == Number(words, 64) + d * Pow2(bit)
  {
    HalvesNumber(words, wi, lo, hi);
    Place(d, lo, hi, wi, off, bit);
  }

  lemma {:induction false} HalvesNumber(words: seq<nat>, wi: nat, lo: nat, hi: nat)
    requires wi + 1 < |words| && words[wi + 1] == 0
    ensures Number(Halves(words, wi, lo, hi), 64) == Number(words, 64) + (lo * Pow2(wi * 64) + hi * Pow2((wi + 1) * 64))
  {
    NumberAdd(words, wi, lo);
    NumberAdd(words[wi := words[wi] + lo], wi + 1, hi);
  }

  lemma {:induction false} NumberAdd(words: seq<nat>, i: nat, d: nat)
    requires i < |words|
    ensures Number(words[i := words[i] + d], 64) == Number(words, 64) + d * Pow2(i * 64)
  {
    NumberUpdate(words, 64, i, words[i] + d);
  }

  /** Writing a value at the end of the stream appends it. */
  lemma {:induction false} PutAppends(words: seq<u64>, ds: seq<nat>, d: u64, width: nat, bit: nat)
    requires Digits(ds, width) && width <= 64 && d < Pow2(width)
    requires bit == |ds| * width && bit / 64 + 1 < |words| && Number(words, 64) == Number(ds, width)
    ensures Number(Put(words, d, bit, width), 64) == Number(ds + [d], width)
    ensures AllWords(Put(words, d, bit, width))
  {
    EndIsClear(words, ds, width, bit);
    PutNumber(words, d, bit, width);
    NumberAppend(ds, d, width);
  }

  predicate AllWords(words: seq<nat>) { forall k :: 0 <= k < |words| ==> words[k] < TOP }

  lemma {:induction false} HalvesSmall(words: seq<nat>, wi: nat, lo: nat, hi: nat)
    requires AllWords(words) && wi + 1 < |words| && words[wi] + lo < TOP && hi < TOP
    ensures AllWords(Halves(words, wi, lo, hi))
  {
  }

  lemma {:induction false} PutNumber(words: seq<u64>, d: u64, bit: nat, width: nat)
    requires bit / 64 + 1 < |words| && width <= 64 && d < Pow2(width)
    requires words[bit / 64] < Pow2(bit % 64) && words[bit / 64 + 1] == 0
    ensures Number(Put(words, d, bit, width), 64) == Number(words, 64) + d * Pow2(bit)
    ensures AllWords(Put(words, d, bit, width))
  {
    var lo, hi := PutSplits(words, d, bit, width);
    HalvesAdd(words, d, lo, hi, bit / 64, bit % 64, bit);
    WordsAreDigits(words);
    HalvesSmall(words, bit / 64, lo, hi);
  }

  /** The two halves of a value, each at its word's place. */
  lemma {:induction false} Place(d: nat, lo: nat, hi: nat, wi: nat, off: nat, bit: nat)
    requires bit == wi * 64 + off && d * Pow2(off) == lo + TOP * hi
    ensures lo * Pow2(wi * 64) + hi * Pow2((wi + 1) * 64) == d * Pow2(bit)
  {
    Pow2Top();
    PowNext(wi, 64);
    Pow2Add(wi * 64, off);
    var p := Pow2(wi * 64);
    Associate(hi, TOP, p);
    Associate(d, Pow2(off), p);
    Distribute(lo, TOP * hi, p);
  }

  /** What `Put` writes: the low half onto clear bits, the high half into a
  clear word. */
  lemma {:induction false} PutSplits(words: seq<u64>, d: u64, bit: nat, width: nat) returns (lo: nat, hi: nat)
    requires bit / 64 + 1 < |words| && width <= 64 && d < Pow2(width)
    requires words[bit / 64] < Pow2(bit % 64) && words[bit / 64 + 1] == 0
    ensures d * Pow2(bit % 64) == lo + TOP * hi && words[bit / 64] + lo < TOP && hi < TOP
    ensures Put(words, d, bit, width) == Halves(words, bit / 64, lo, hi)
  {
    var wi, off := bit / 64, bit % 64;
    lo := Shl(d, off);
    hi := d * Pow2(off) / TOP;
    var y := LowPart(d, off);
    OrDisjoint(words[wi], off, y);
    CarryIs(d, off, width);
    OrZero(hi);
    OnTop(words[wi], off, y);
  }

  lemma {:induction false} OnTop(x: nat, off: nat, y: nat)
    requires off < 64 && x < Pow2(off) && y * Pow2(off) < TOP
    ensures x + y * Pow2(off) < TOP
  {
    Pow2Top();
    Pow2Add(off, 64 - off);
    Below(x, y, Pow2(off), Pow2(64 - off));
  }

  lemma {:induction false} Below(x: nat, y: nat, p: nat, h: nat)
    requires x < p && y * p < p * h
    ensures x + y * p < p * h
  {
    if y >= h { MulMono(h, y, p); assert false; }
    BoundStep(x, y, p, h);
  }

  // -------------------------------------------------------------------- packing

  lemma {:induction false} LaneRoom(n: nat, per: nat)
    requires per > 0
    ensures ((n + per - 1) / per + 1) * per >= n
    ensures forall i: nat :: i < n ==> Over(i, per) < (n + per - 1) / per + 1
  {
    var m := (n + per - 1) / per;
    Distribute(m, 1, per);
    assert n + per - 1 == m * per + (n + per - 1) % per;
    forall i: nat | i < n ensures Over(i, per) < m + 1 {
      WordInBounds(i, n, per, m + 1);
    }
  }

  /** Pack `vals` against a base, in the layout its range calls for. */
  method PackWithBase(vals: seq<u64>, base: u64, range: u64) returns (p: Packed)
    requires forall i :: 0 <= i < |vals| ==> base <= vals[i] && vals[i] - base <= range
    ensures Holds(p, vals)
  {
    var width := BitLen(range);
    WidthFits(range, width);
    if width == 0 {
      return Packed(base, 0, 0, 0, MaskOf(width), [0, 0]);
    }
    if width <= 32 {
      var words := PackLanes(vals, base, width);
      return FromParts(base, width, words);
    }
    var words := PackStream(vals, base, width);
    return FromParts(base, width, words);
  }

  lemma {:induction false} WidthFits(range: u64, width: nat)
    requires width == BitLen(range)
    ensures width <= 64
  {
    Pow2Top();
    if width > 64 { Pow2Mono(64, width - 1); assert false; }
  }

  method PackLanes(vals: seq<u64>, base: u64, width: nat) returns (words: seq<u64>)
    requires forall i :: 0 <= i < |vals| ==> base <= vals[i] && vals[i] - base < Pow2(width)
    requires 0 < width <= 32
    ensures LaneWords(words, Deltas(vals, base), width, 64 / width, |vals|)
    ensures |words| * (64 / width) >= |vals|
  {
    var n, per := |vals|, 64 / width;
    LanesFit(width);
    LaneRoom(n, per);
    var ws := new u64[(n + per - 1) / per + 1](_ => 0);
    LanesStart(ws[..], Deltas(vals, base), width, per);
    FillLanes(ws, vals, base, width, per);
    words := ws[..];
  }

  method FillLanes(ws: array<u64>, vals: seq<u64>, base: u64, width: nat, per: nat)
    requires forall i :: 0 <= i < |vals| ==> base <= vals[i] && vals[i] - base < Pow2(width)
    requires per > 0 && per * width <= 64 && forall i: nat :: i < |vals| ==> Over(i, per) < ws.Length
    requires LaneWords(ws[..], Deltas(vals, base), width, per, 0)
    modifies ws
    ensures LaneWords(ws[..], Deltas(vals, base), width, per, |vals|)
  {
    ghost var ds := Deltas(vals, base);
    for i := 0 to |vals|
      invariant LaneWords(ws[..], ds, width, per, i)
    {
      InChunk(i, per);
      OrLane(ws, vals[i] - base, width, per, i, Over(i, per), Rem(i, per), ds);
    }
  }

  method OrLane(ws: array<u64>, d: u64, width: nat, per: nat, i: nat, q: nat, r: nat, ghost ds: seq<nat>)
    requires i < |ds| && ds[i] == d && Digits(ds, width) && per * width <= 64
    requires r < per && i == q * per + r && q < ws.Length && LaneWords(ws[..], ds, width, per, i)
    modifies ws
    ensures LaneWords(ws[..], ds, width, per, i + 1)
  {
    ghost var before := ws[..];
    ghost var x := LaneStep(before, ds, width, per, i, q, r);
    ws[q] := Or(ws[q], Shl(d, r * width));
    assert ws[..] == before[q := x];
  }

  /** Write one value into the stream, across two words if it straddles. */
  method PutInto(ws: array<u64>, d: u64, bit: nat, width: nat, ghost done: seq<nat>)
    requires Digits(done, width) && 32 < width <= 64 && d < Pow2(width)
    requires bit == |done| * width && bit / 64 + 1 < ws.Length && Number(ws[..], 64) == Number(done, width)
    modifies ws
    ensures Number(ws[..], 64) == Number(done + [d], width)
  {
    var wi, off := bit / 64, bit % 64;
    ghost var before := ws[..];
    PutAppends(before, done, d, width, bit);
    ghost var after := Put(before, d, bit, width);
    assert after[wi] < TOP && after[wi + 1] < TOP;
    ws[wi] := Or(ws[wi], Shl(d, off));
    if off + width > 64 {
      ws[wi + 1] := Or(ws[wi + 1], Shr(d, 64 - off));
    }
    assert ws[..] == after;
  }

  method PackStream(vals: seq<u64>, base: u64, width: nat) returns (words: seq<u64>)
    requires forall i :: 0 <= i < |vals| ==> base <= vals[i] && vals[i] - base < Pow2(width)
    requires 32 < width <= 64
    ensures Number(words, 64) == Number(Deltas(vals, base), width)
    ensures |words| * 64 >= |vals| * width + 64
  {
    var len := (BitOf(|vals|, width) + 63) / 64 + 1;
    var ws := new u64[if len < 2 then 2 else len](_ => 0);
    NumberOfZeros(ws[..], 64);
    FillStream(ws, vals, base, width);
    words := ws[..];
  }

  method FillStream(ws: array<u64>, vals: seq<u64>, base: u64, width: nat)
    requires forall i :: 0 <= i < |vals| ==> base <= vals[i] && vals[i] - base < Pow2(width)
    requires 32 < width <= 64 && Number(ws[..], 64) == 0 && ws.Length * 64 >= |vals| * width + 64
    modifies ws
    ensures Number(ws[..], 64) == Number(Deltas(vals, base), width)
  {
    ghost var ds := Deltas(vals, base);
    var bit := 0;
    for i := 0 to |vals|
      invariant bit == BitOf(i, width) && Number(ws[..], 64) == Number(ds[..i], width)
    {
      WideReadable(|vals|, i, width, ws.Length);
      assert ds[..i + 1] == ds[..i] + [ds[i]];
      PutInto(ws, vals[i] - base, bit, width, ds[..i]);
      Distribute(i, 1, width);
      bit := bit + width;
    }
    assert ds[..|vals|] == ds;
  }

  /** Pack against the smallest value.  Every value reads back, and so it does
  from the stored fields alone. */
  method Pack(vals: seq<u64>) returns (p: Packed)
    ensures Holds(p, vals) && p == FromParts(p.base, p.width, p.words)
    ensures |vals| == 0 ==> p.width == 0
    ensures |vals| <= MAX_ROWS ==> forall i :: 0 <= i < |vals| ==> Readable(p, i) && Get(p, i) == vals[i]
  {
    if |vals| == 0 { return Packed(0, 0, 0, 0, 0, [0, 0]); }
    var lo, hi := vals[0], vals[0];
    for i := 1 to |vals|
      invariant forall j :: 0 <= j < i ==> lo <= vals[j] <= hi
    {
      if vals[i] < lo { lo := vals[i]; }
      if vals[i] > hi { hi := vals[i]; }
    }
    p := PackWithBase(vals, lo, hi - lo);
    forall i | 0 <= i < |vals| <= MAX_ROWS ensures Readable(p, i) && Get(p, i) == vals[i] {
      GetExact(p, vals, i);
    }
  }

  // --------------------------------------------------------------- bulk decoding

  /** The value in lane `r` of word `q`, without the reciprocal. */
  lemma {:induction false} LaneDirect(p: Packed, vals: seq<u64>, i: nat, q: nat, r: nat)
    requires Holds(p, vals) && 0 < p.width <= 32 && i < |vals| && r < p.per && i == q * p.per + r
    ensures q < |p.words| && WrapAdd(p.base, Low(Lane(p.words[q], r, p.width, p.mask))) == vals[i]
  {
    assert q < |p.words| by {
      if q >= |p.words| { MulMono(|p.words|, q, p.per); assert false; }
    }
    assert HoldsGroup(p.words[q], Deltas(vals, p.base), q, p.width, p.per, |vals|);
    LaneIs(p.words[q], Deltas(vals, p.base), q, r, p.per, p.width);
    Rebased(p.base, vals[i]);
  }

  /** The first `n` places of `out` hold the values from `s` on. */
  ghost predicate Decoded(out: array<u64>, vals: seq<u64>, s: nat, n: nat)
    requires s + n <= |vals| && n <= out.Length
    reads out
  {
    out[..n] == vals[s..s + n]
  }

  /** One decoded value. */
  method Emit(out: array<u64>, ghost vals: seq<u64>, ghost s: nat, at: nat, v: u64)
    requires s + at < |vals| && at < out.Length && Decoded(out, vals, s, at) && v == vals[s + at]
    modifies out
    ensures Decoded(out, vals, s, at + 1)
    ensures forall j :: at < j < out.Length ==> out[j] == old(out[j])
  {
    out[at] := v;
    assert vals[s..s + (at + 1)] == vals[s..s + at] + [v];
    assert out[..at] == old(out[..at]);
    assert out[..at + 1] == out[..at] + [v];
  }

  /** One whole word, each lane in turn. */
  method UnpackWord(p: Packed, ghost vals: seq<u64>, ghost s: nat, q: nat, out: array<u64>, k: nat)
    requires Holds(p, vals) && 0 < p.width <= 32 && s + k == q * p.per && q < |p.words|
    requires s + k + p.per <= |vals| && k + p.per <= out.Length && Decoded(out, vals, s, k)
    modifies out
    ensures Decoded(out, vals, s, k + p.per)
    ensures forall j :: k + p.per <= j < out.Length ==> out[j] == old(out[j])
  {
    for l := 0 to p.per
      invariant Decoded(out, vals, s, k + l)
      invariant forall j :: k + p.per <= j < out.Length ==> out[j] == old(out[j])
    {
      LaneDirect(p, vals, s + k + l, q, l);
      Emit(out, vals, s, k + l, WrapAdd(p.base, Low(Lane(p.words[q], l, p.width, p.mask))));
    }
  }

  method UnpackWords(p: Packed, ghost vals: seq<u64>, ghost s: nat, fw: nat, nwords: nat, out: array<u64>, k: nat, ghost end: nat)
    requires Holds(p, vals) && 0 < p.width <= 32 && s + k == fw * p.per
    requires end == k + nwords * p.per && s + end <= |vals| && end <= out.Length
    requires Decoded(out, vals, s, k)
    modifies out
    ensures Decoded(out, vals, s, end)
    ensures forall j :: end <= j < out.Length ==> out[j] == old(out[j])
  {
    var at := k;
    for wi := 0 to nwords
      invariant at == k + wi * p.per <= end
      invariant Decoded(out, vals, s, at)
      invariant forall j :: end <= j < out.Length ==> out[j] == old(out[j])
    {
      ghost var next := WordPlace(p, vals, s, k, fw, wi, nwords, at, end);
      UnpackWord(p, vals, s, fw + wi, out, at);
      at := at + p.per;
      assert at == next;
    }
  }

  /** Where the `wi`-th whole word begins and ends. */
  lemma {:induction false} WordPlace(p: Packed, vals: seq<u64>, s: nat, k: nat, fw: nat, wi: nat, nwords: nat, at: nat, end: nat)
    returns (next: nat)
    requires Holds(p, vals) && 0 < p.width <= 32 && wi < nwords && at == k + wi * p.per
    requires s + k == fw * p.per && end == k + nwords * p.per && s + end <= |vals|
    ensures s + at == (fw + wi) * p.per && fw + wi < |p.words|
    ensures next == at + p.per == k + (wi + 1) * p.per <= end
  {
    WordRoom(wi, nwords, p.per);
    Distribute(fw, wi, p.per);
    WordHeld(p, vals, s + at, fw + wi);
    next := at + p.per;
  }

  lemma {:induction false} WordHeld(p: Packed, vals: seq<u64>, i: nat, q: nat)
    requires Holds(p, vals) && 0 < p.width <= 32 && i == q * p.per && i + p.per <= |vals|
    ensures q < |p.words| && p.per > 0
  {
    LanesFit(p.width);
    if q >= |p.words| { MulMono(|p.words|, q, p.per); assert false; }
  }

  lemma {:induction false} WordRoom(wi: nat, nwords: nat, per: nat)
    requires wi < nwords
    ensures (wi + 1) * per == wi * per + per && (wi + 1) * per <= nwords * per
  {
    Distribute(wi, 1, per);
    MulMono(wi + 1, nwords, per);
  }

  /** The values `s..e`, decoded into the front of `out`; the rest of `out` is
  left alone. */
  method UnpackRange(p: Packed, ghost vals: seq<u64>, s: nat, e: nat, out: array<u64>)
    requires Holds(p, vals) && s <= e <= |vals| <= MAX_ROWS && e - s <= out.Length
    modifies out
    ensures out[..e - s] == vals[s..e]
    ensures forall k :: s <= k < e ==> Readable(p, k) && out[k - s] == Get(p, k)
    ensures forall j :: e - s <= j < out.Length ==> out[j] == old(out[j])
  {
    if p.per != 0 {
      UnpackLanes(p, vals, s, e, out);
    } else if p.width == 0 {
      for k := 0 to e - s
        invariant Decoded(out, vals, s, k)
        invariant forall j :: k <= j < out.Length ==> out[j] == old(out[j])
      {
        Emit(out, vals, s, k, p.base);
      }
    } else {
      UnpackStream(p, vals, s, e, out);
    }
    assert out[..e - s] == vals[s..s + (e - s)];
    forall k | s <= k < e ensures Readable(p, k) && out[k - s] == Get(p, k) {
      GetExact(p, vals, k);
      assert out[..e - s][k - s] == vals[s..e][k - s];
    }
  }

  method UnpackStream(p: Packed, ghost vals: seq<u64>, s: nat, e: nat, out: array<u64>)
    requires Holds(p, vals) && p.width > 32 && s <= e <= |vals| <= MAX_ROWS && e - s <= out.Length
    modifies out
    ensures Decoded(out, vals, s, e - s)
    ensures forall j :: e - s <= j < out.Length ==> out[j] == old(out[j])
  {
    var bit := BitOf(s, p.width);
    for k := 0 to e - s
      invariant Decoded(out, vals, s, k) && bit == BitOf(s + k, p.width)
      invariant forall j :: k <= j < out.Length ==> out[j] == old(out[j])
    {
      WideReadable(|vals|, s + k, p.width, |p.words|);
      var v := WrapAdd(p.base, Low(Wide(p.words[bit / 64], p.words[bit / 64 + 1], bit % 64, p.mask)));
      WideNext(p, vals, s + k, bit, v);
      Emit(out, vals, s, k, v);
      bit := bit + p.width;
    }
  }

  lemma {:induction false} WideNext(p: Packed, vals: seq<u64>, i: nat, bit: nat, v: u64)
    requires Holds(p, vals) && p.width > 32 && i < |vals| <= MAX_ROWS && bit == BitOf(i, p.width) && bit / 64 + 1 < |p.words|
    requires v == WrapAdd(p.base, Low(Wide(p.words[bit / 64], p.words[bit / 64 + 1], bit % 64, p.mask)))
    ensures v == vals[i] && bit + p.width == BitOf(i + 1, p.width)
  {
    WideGet(p, vals, i, bit);
    Distribute(i, 1, p.width);
  }

  /** Single lanes up to a word boundary, then whole words, then the rest. */
  method UnpackLanes(p: Packed, ghost vals: seq<u64>, s: nat, e: nat, out: array<u64>)
    requires Holds(p, vals) && 0 < p.width <= 32 && s <= e <= |vals| && e - s <= out.Length
    modifies out
    ensures Decoded(out, vals, s, e - s)
    ensures forall j :: e - s <= j < out.Length ==> out[j] == old(out[j])
  {
    var per := p.per;
    LanesFit(p.width);
    var i, k := s, 0;
    while i < e && Rem(i, per) != 0
      invariant s <= i <= e && k == i - s && Decoded(out, vals, s, k)
      invariant forall j :: k <= j < out.Length ==> out[j] == old(out[j])
    {
      UnpackOne(p, vals, s, i, out, k);
      i, k := i + 1, k + 1;
    }
    i := UnpackMiddle(p, vals, s, i, e, out, k);
    UnpackRest(p, vals, s, i, e, out);
  }

  /** What is left of the last word. */
  method UnpackRest(p: Packed, ghost vals: seq<u64>, s: nat, i0: nat, e: nat, out: array<u64>)
    requires Holds(p, vals) && 0 < p.width <= 32 && s <= i0 <= e <= |vals| && e - s <= out.Length
    requires Decoded(out, vals, s, i0 - s)
    modifies out
    ensures Decoded(out, vals, s, e - s)
    ensures forall j :: e - s <= j < out.Length ==> out[j] == old(out[j])
  {
    for i := i0 to e
      invariant Decoded(out, vals, s, i - s)
      invariant forall j :: i - s <= j < out.Length ==> out[j] == old(out[j])
    {
      UnpackOne(p, vals, s, i, out, i - s);
    }
  }

  lemma {:induction false} WordsFit(i0: nat, e: nat, per: nat, n: nat, i: nat)
    requires per > 0 && i0 <= e && n == Over(e - i0, per) > 0 && i == i0 + n * per
    ensures i0 < i <= e
  {
    InChunk(e - i0, per);
    MulMono(1, n, per);
  }

  /** As many whole words as fit before `e`. */
  method UnpackMiddle(p: Packed, ghost vals: seq<u64>, s: nat, i0: nat, e: nat, out: array<u64>, k: nat) returns (i: nat)
    requires Holds(p, vals) && 0 < p.width <= 32 && i0 <= e <= |vals| && i0 == s + k && e - s <= out.Length
    requires p.per > 0 && (i0 == e || Rem(i0, p.per) == 0) && Decoded(out, vals, s, k)
    modifies out
    ensures i0 <= i <= e && Decoded(out, vals, s, i - s)
    ensures forall j :: i - s <= j < out.Length ==> out[j] == old(out[j])
  {
    var nwords := Over(e - i0, p.per);
    if nwords == 0 { return i0; }
    i := i0 + nwords * p.per;
    WordsFit(i0, e, p.per, nwords, i);
    InChunk(i0, p.per);
    UnpackWords(p, vals, s, Over(i0, p.per), nwords, out, k, i - s);
  }

  method UnpackOne(p: Packed, ghost vals: seq<u64>, ghost s: nat, i: nat, out: array<u64>, k: nat)
    requires Holds(p, vals) && 0 < p.width <= 32 && i < |vals| && i == s + k && k < out.Length && Decoded(out, vals, s, k)
    modifies out
    ensures Decoded(out, vals, s, k + 1)
    ensures forall j :: k < j < out.Length ==> out[j] == old(out[j])
  {
    LanesFit(p.width);
    var q, r := Over(i, p.per), Rem(i, p.per);
    InChunk(i, p.per);
    LaneDirect(p, vals, i, q, r);
    Emit(out, vals, s, k, WrapAdd(p.base, Low(Lane(p.words[q], r, p.width, p.mask))));
  }

  // ------------------------------------------------------------------- searching

  predicate ReadableTo(p: Packed, len: u64) { forall i: u64 :: 0 <= i < len ==> Readable(p, i) }

  ghost predicate SortedTo(p: Packed, len: u64)
    requires ReadableTo(p, len)
  {
    forall i: u64, j: u64 :: 0 <= i <= j < len ==> Get(p, i) <= Get(p, j)
  }

  /** An interpolated step never leaves the interval. */
  lemma {:induction false} StepInRange(t: nat, span: nat, range: nat)
    requires t <= range && range > 0
    ensures 0 <= t * span / range <= span
  {
    MulMono(t, range, span);
    DivBound(t * span, span, range);
  }

  lemma {:induction false} DivBound(x: nat, span: nat, range: nat)
    requires range > 0 && x <= range * span
    ensures x / range <= span
  {
    if x / range > span {
      MulMono(span + 1, x / range, range);
      Distribute(span, 1, range);
      assert false;
    }
  }

  function Clamp(x: nat, lo: nat, hi: nat): nat
    requires lo <= hi
  {
    if x < lo then lo else if x > hi then hi else x
  }

  /** The first position whose value is not below the target, over any sorted
  column. */
  method LowerBound(p: Packed, len: u64, target: u64) returns (lo: u64)
    requires ReadableTo(p, len) && SortedTo(p, len)
    ensures lo <= len
    ensures forall i: u64 :: 0 <= i < lo ==> Get(p, i) < target
    ensures forall i: u64 :: lo <= i < len ==> Get(p, i) >= target
  {
    lo := 0;
    var hi := len;
    while lo < hi
      invariant lo <= hi <= len
      invariant forall i: u64 :: 0 <= i < lo ==> Get(p, i) < target
      invariant forall i: u64 :: hi <= i < len ==> Get(p, i) >= target
      decreases hi - lo
    {
      var mid := Probe(p, lo, hi, len, target);
      mid := Clamp(mid, lo, hi - 1);
      if Get(p, mid) < target {
        lo := mid + 1;
      } else {
        hi := mid;
      }
    }
  }

  /** Where to look next: interpolated between the ends of a wide interval, the
  middle of a narrow or flat one.  Inside the interval before any clamping. */
  method Probe(p: Packed, lo: u64, hi: u64, ghost len: u64, target: u64) returns (mid: u64)
    requires lo < hi <= len && ReadableTo(p, len)
    ensures lo <= mid < hi
  {
    mid := lo + (hi - lo) / 2;
    if hi - lo > 8 {
      var klo, khi := Get(p, lo), Get(p, hi - 1);
      if khi > klo {
        var t := Clamp(target, klo, khi);
        StepInRange(t - klo, hi - lo - 1, khi - klo);
        mid := lo + (t - klo) * (hi - lo - 1) / (khi - klo);
      }
    }
  }
}
