/** The word-at-a-time byte scan. */
module Scanning {
  import opened Basics

  /** The first index at or after `i` that holds `a` or `c`, or the length. */
  function FirstOf(b: seq<byte>, i: nat, a: byte, c: byte): (r: nat)
    requires i <= |b|
    ensures i <= r <= |b|
    ensures forall j :: i <= j < r ==> b[j] != a && b[j] != c
    ensures r < |b| ==> b[r] == a || b[r] == c
    decreases |b| - i
  {
    if i == |b| || b[i] == a || b[i] == c then i else FirstOf(b, i + 1, a, c)
  }

  lemma {:induction false} FirstOfIs(b: seq<byte>, i: nat, a: byte, c: byte, r: nat)
    requires i <= r <= |b|
    requires forall j :: i <= j < r ==> b[j] != a && b[j] != c
    requires r < |b| ==> b[r] == a || b[r] == c
    ensures FirstOf(b, i, a, c) == r
  {
  }

  const ONES: bv64 := 0x0101_0101_0101_0101
  const HIGH: bv64 := 0x8080_8080_8080_8080

  /** Eight bytes as a little-endian word. */
  function Word(b: seq<byte>): bv64
    requires |b| == 8
  {
    (b[0] as bv64) | ((b[1] as bv64) << 8) | ((b[2] as bv64) << 16) | ((b[3] as bv64) << 24)
    | ((b[4] as bv64) << 32) | ((b[5] as bv64) << 40) | ((b[6] as bv64) << 48) | ((b[7] as bv64) << 56)
  }

  /** A byte in every lane of a word. */
  function Spread(a: byte): bv64 { ONES * (a as bv64) }

  /** The zero-byte test: a high bit where a lane of `x` may be zero. */
  function ZeroMask(x: bv64): bv64 { (x - ONES) & !x & HIGH }

  function TrailingZeros(x: bv64): (r: nat)
    ensures r <= 64
  {
    Trailing(x, 64)
  }

  /** Zero bits below the lowest set bit of `x`, looking at `width` bits. */
  function Trailing(x: bv64, width: nat): (r: nat)
    ensures r <= width
  {
    if width == 0 || x & 1 == 1 then 0 else 1 + Trailing(x >> 1, width - 1)
  }

  /** The word without its lowest `k` lanes. */
  function Above(x: bv64, k: nat): bv64
    requires k < 8
  {
    match k
    case 0 => x
    case 1 => x >> 8
    case 2 => x >> 16
    case 3 => x >> 24
    case 4 => x >> 32
    case 5 => x >> 40
    case 6 => x >> 48
    case 7 => x >> 56
  }

  lemma {:induction false} TrailingByte(x: bv64, width: nat)
    requires width >= 8
    ensures x & 0xff == 0x80 ==> Trailing(x, width) == 7
    ensures x & 0xff == 0 ==> Trailing(x, width) == 8 + Trailing(x >> 8, width - 8)
  {
    assert (x >> 1) >> 1 == x >> 2;
    assert (x >> 2) >> 1 == x >> 3;
    assert (x >> 3) >> 1 == x >> 4;
    assert (x >> 4) >> 1 == x >> 5;
    assert (x >> 5) >> 1 == x >> 6;
    assert (x >> 6) >> 1 == x >> 7;
    assert (x >> 7) >> 1 == x >> 8;
    var t := Trailing;
    assert t(x, width) == if x & 1 == 1 then 0 else 1 + t(x >> 1, width - 1);
    assert t(x >> 1, width - 1) == if (x >> 1) & 1 == 1 then 0 else 1 + t(x >> 2, width - 2);
    assert t(x >> 2, width - 2) == if (x >> 2) & 1 == 1 then 0 else 1 + t(x >> 3, width - 3);
    assert t(x >> 3, width - 3) == if (x >> 3) & 1 == 1 then 0 else 1 + t(x >> 4, width - 4);
    assert t(x >> 4, width - 4) == if (x >> 4) & 1 == 1 then 0 else 1 + t(x >> 5, width - 5);
    assert t(x >> 5, width - 5) == if (x >> 5) & 1 == 1 then 0 else 1 + t(x >> 6, width - 6);
    assert t(x >> 6, width - 6) == if (x >> 6) & 1 == 1 then 0 else 1 + t(x >> 7, width - 7);
    assert t(x >> 7, width - 7) == if (x >> 7) & 1 == 1 then 0 else 1 + t(x >> 8, width - 8);
  }

  /** Lane `k` of the word is zero. */
  predicate Zero(x: bv64, k: nat)
    requires k < 8
  {
    match k
    case 0 => x & 0xff == 0
    case 1 => x & 0xff00 == 0
    case 2 => x & 0xff_0000 == 0
    case 3 => x & 0xff00_0000 == 0
    case 4 => x & 0xff_0000_0000 == 0
    case 5 => x & 0xff00_0000_0000 == 0
    case 6 => x & 0xff_0000_0000_0000 == 0
    case 7 => x & 0xff00_0000_0000_0000 == 0
  }

  /** Lane by lane, the mask below and at the first true hit `k` holds exactly
  that hit: a false one, borrowed from it, can only lie above. */
  lemma {:induction false} MaskBelow(xa: bv64, xc: bv64, k: nat)
    requires k < 8 && (Zero(xa, k) || Zero(xc, k))
    requires forall j :: 0 <= j < k ==> !Zero(xa, j) && !Zero(xc, j)
    ensures LowestIs(ZeroMask(xa) | ZeroMask(xc), k)
  {
    var hit := ZeroMask(xa) | ZeroMask(xc);
    assert k > 0 ==> !Zero(xa, 0) && !Zero(xc, 0);
    assert k > 1 ==> !Zero(xa, 1) && !Zero(xc, 1);
    assert k > 2 ==> !Zero(xa, 2) && !Zero(xc, 2);
    assert k > 3 ==> !Zero(xa, 3) && !Zero(xc, 3);
    assert k > 4 ==> !Zero(xa, 4) && !Zero(xc, 4);
    assert k > 5 ==> !Zero(xa, 5) && !Zero(xc, 5);
    assert k > 6 ==> !Zero(xa, 6) && !Zero(xc, 6);
    match k
    case 0 => assert hit & 0xff == 0x80;
    case 1 => assert hit & 0xffff == 0x8000;
    case 2 => assert hit & 0xff_ffff == 0x80_0000;
    case 3 => assert hit & 0xffff_ffff == 0x8000_0000;
    case 4 => assert hit & 0xff_ffff_ffff == 0x80_0000_0000;
    case 5 => assert hit & 0xffff_ffff_ffff == 0x8000_0000_0000;
    case 6 => assert hit & 0xff_ffff_ffff_ffff == 0x80_0000_0000_0000;
    case 7 => assert hit == 0x8000_0000_0000_0000;
  }

  lemma {:induction false} NoFalseAlarm(xa: bv64, xc: bv64)
    requires forall j :: 0 <= j < 8 ==> !Zero(xa, j) && !Zero(xc, j)
    ensures ZeroMask(xa) | ZeroMask(xc) == 0
  {
    assert !Zero(xa, 0) && !Zero(xa, 1) && !Zero(xa, 2) && !Zero(xa, 3);
    assert !Zero(xa, 4) && !Zero(xa, 5) && !Zero(xa, 6) && !Zero(xa, 7);
    assert !Zero(xc, 0) && !Zero(xc, 1) && !Zero(xc, 2) && !Zero(xc, 3);
    assert !Zero(xc, 4) && !Zero(xc, 5) && !Zero(xc, 6) && !Zero(xc, 7);
    assert ZeroMask(xa) == 0;
    assert ZeroMask(xc) == 0;
  }

  lemma {:induction false} ShiftTwice(x: bv64)
    ensures (x >> 8) >> 8 == x >> 16 && (x >> 16) >> 8 == x >> 24 && (x >> 24) >> 8 == x >> 32
    ensures (x >> 32) >> 8 == x >> 40 && (x >> 40) >> 8 == x >> 48 && (x >> 48) >> 8 == x >> 56
  {
  }

  lemma {:induction false} AboveNext(x: bv64, k: nat)
    requires k < 7
    ensures Above(x >> 8, k) == Above(x, k + 1)
  {
    ShiftTwice(x);
    match k
    case 0 =>
    case 1 =>
    case 2 =>
    case 3 =>
    case 4 =>
    case 5 =>
    case 6 =>
  }

  /** Lane `k` holds a lone high bit and every lane below is empty. */
  predicate LowestIs(x: bv64, k: nat)
    requires k < 8
  {
    forall j :: 0 <= j <= k ==> Above(x, j) & 0xff == if j == k then 0x80 else 0
  }

  lemma {:induction false} LowestNext(x: bv64, k: nat)
    requires k < 8 && LowestIs(x, k)
    ensures x & 0xff == if k == 0 then 0x80 else 0
    ensures k > 0 ==> LowestIs(x >> 8, k - 1)
  {
    assert Above(x, 0) == x;
    if k > 0 {
      var y := x >> 8;
      forall i: nat | i < k ensures Above(y, i) == Above(x, i + 1) {
        AboveNext(x, i);
      }
    }
  }

  lemma {:induction false} TrailingLane(x: bv64, k: nat, width: nat)
    requires k < 8 && width >= 8 * k + 8 && LowestIs(x, k)
    ensures Trailing(x, width) == 8 * k + 7
  {
    LowestNext(x, k);
    TrailingByte(x, width);
    if k > 0 {
      TrailingLane(x >> 8, k - 1, width - 8);
    }
  }

  lemma {:induction false} LaneOfByte(b: seq<byte>, a: byte, k: nat)
    requires |b| == 8 && k < 8
    ensures Zero(Word(b) ^ Spread(a), k) <==> b[k] == a
  {
    match k
    case 0 =>
    case 1 =>
    case 2 =>
    case 3 =>
    case 4 =>
    case 5 =>
    case 6 =>
    case 7 =>
  }

  /** The bytes of a word that are `a` or `c`, one high bit each (and perhaps
  more above the lowest of them). */
  function Hits(b: seq<byte>, ma: bv64, mc: bv64): bv64
    requires |b| == 8
  {
    ZeroMask(Word(b) ^ ma) | ZeroMask(Word(b) ^ mc)
  }

  lemma {:induction false} ZeroAbove(k: nat)
    requires k < 8
    ensures Above(0, k) == 0
  {
  }

  /** The zero lanes of `x` are the bytes of `b` equal to `a`. */
  predicate Marks(b: seq<byte>, a: byte, x: bv64)
    requires |b| == 8
  {
    forall j :: 0 <= j < 8 ==> (Zero(x, j) <==> b[j] == a)
  }

  /** What a word's mask says of the first byte that is `a` or `c`. */
  predicate Finds(b: seq<byte>, a: byte, c: byte, hit: bv64)
    requires |b| == 8
  {
    var k := FirstOf(b, 0, a, c);
    (hit == 0 <==> k == 8) && (hit != 0 ==> TrailingZeros(hit) / 8 == k)
  }

  /** Wherever the first matching byte is, the lowest set bit of the mask is
  that byte's high bit. */
  lemma {:induction false} MaskAt(b: seq<byte>, a: byte, c: byte, xa: bv64, xc: bv64)
    requires |b| == 8 && Marks(b, a, xa) && Marks(b, c, xc) && FirstOf(b, 0, a, c) < 8
    ensures LowestIs(ZeroMask(xa) | ZeroMask(xc), FirstOf(b, 0, a, c))
  {
    MaskBelow(xa, xc, FirstOf(b, 0, a, c));
  }

  lemma {:induction false} MaskScan(b: seq<byte>, a: byte, c: byte, xa: bv64, xc: bv64)
    requires |b| == 8 && Marks(b, a, xa) && Marks(b, c, xc)
    ensures Finds(b, a, c, ZeroMask(xa) | ZeroMask(xc))
  {
    if FirstOf(b, 0, a, c) == 8 {
      NoFalseAlarm(xa, xc);
    } else {
      MaskAt(b, a, c, xa, xc);
      LowestFinds(b, a, c, ZeroMask(xa) | ZeroMask(xc));
    }
  }

  lemma {:induction false} LowestFinds(b: seq<byte>, a: byte, c: byte, hit: bv64)
    requires |b| == 8 && FirstOf(b, 0, a, c) < 8 && LowestIs(hit, FirstOf(b, 0, a, c))
    ensures Finds(b, a, c, hit)
  {
    var k := FirstOf(b, 0, a, c);
    TrailingLane(hit, k, 64);
    ZeroAbove(k);
    assert Above(hit, k) & 0xff == 0x80;
  }

  /** Comparing against the word `m` marks the bytes equal to `a`. */
  ghost predicate Selects(a: byte, m: bv64) {
    forall b: seq<byte> | |b| == 8 :: Marks(b, a, Word(b) ^ m)
  }

  lemma {:induction false} SpreadSelects(a: byte)
    ensures Selects(a, Spread(a))
  {
    forall b: seq<byte> | |b| == 8 ensures Marks(b, a, Word(b) ^ Spread(a)) {
      forall j | 0 <= j < 8 ensures Zero(Word(b) ^ Spread(a), j) <==> b[j] == a {
        LaneOfByte(b, a, j);
      }
    }
  }

  /** A word of eight bytes answers the position of the first of them that is
  `a` or `c`, and answers nothing exactly when none is. */
  lemma {:induction false} WordScan(b: seq<byte>, a: byte, c: byte, ma: bv64, mc: bv64)
    requires |b| == 8 && Selects(a, ma) && Selects(c, mc)
    ensures Finds(b, a, c, Hits(b, ma, mc))
  {
    MaskScan(b, a, c, Word(b) ^ ma, Word(b) ^ mc);
  }

  /** No byte of `b[i..j]` is `a` or `c`. */
  predicate Clear(b: seq<byte>, i: nat, j: nat, a: byte, c: byte)
    requires i <= j <= |b|
  {
    forall k :: i <= k < j ==> b[k] != a && b[k] != c
  }

  lemma {:induction false} FoundAt(b: seq<byte>, start: nat, i: nat, a: byte, c: byte, hit: bv64)
    requires start <= i && i + 8 <= |b| && Clear(b, start, i, a, c) && Finds(b[i..i + 8], a, c, hit)
    ensures if hit != 0 then FirstOf(b, start, a, c) == i + TrailingZeros(hit) / 8 else Clear(b, start, i + 8, a, c)
  {
    var eight := b[i..i + 8];
    var k := FirstOf(eight, 0, a, c);
    assert forall j :: i <= j < i + k ==> b[j] == eight[j - i];
    assert k < 8 ==> b[i + k] == eight[k];
    if k < 8 { FirstOfIs(b, start, a, c, i + k); }
  }

  method Find2(b: seq<byte>, start: nat, a: byte, c: byte) returns (i: nat)
    requires start <= |b|
    ensures i == FirstOf(b, start, a, c)
  {
    SpreadSelects(a);
    SpreadSelects(c);
    i := ScanWords(b, start, a, c, Spread(a), Spread(c));
  }

  method ScanWords(b: seq<byte>, start: nat, a: byte, c: byte, ma: bv64, mc: bv64) returns (i: nat)
    requires start <= |b| && Selects(a, ma) && Selects(c, mc)
    ensures i == FirstOf(b, start, a, c)
  {
    i := start;
    while i + 8 <= |b|
      invariant start <= i <= |b| && Clear(b, start, i, a, c)
    {
      var hit := Hits(b[i..i + 8], ma, mc);
      WordScan(b[i..i + 8], a, c, ma, mc);
      FoundAt(b, start, i, a, c, hit);
      if hit != 0 {
        return i + TrailingZeros(hit) / 8;
      }
      i := i + 8;
    }
    while i < |b| && b[i] != a && b[i] != c
      invariant start <= i <= |b| && Clear(b, start, i, a, c)
    {
      i := i + 1;
    }
    FirstOfIs(b, start, a, c, i);
  }

  method Find1(b: seq<byte>, start: nat, a: byte) returns (i: nat)
    requires start <= |b|
    ensures i == FirstOf(b, start, a, a)
  {
    i := Find2(b, start, a, a);
  }
}
