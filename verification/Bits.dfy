/** 64-bit words as numbers: the bit operations written out, and numbers in a
power-of-two base, which is what every packed layout is. */
module Bits {
  function Pow2(n: nat): (r: nat)
    ensures r > 0
  {
    if n == 0 then 1 else 2 * Pow2(n - 1)
  }

  type u64 = x: int | 0 <= x < 0x1_0000_0000_0000_0000 witness 0

  const TOP: nat := 0x1_0000_0000_0000_0000

  /** Bit by bit. */
  function Or(x: nat, y: nat): nat {
    if x == 0 && y == 0 then 0
    else (if x % 2 == 1 || y % 2 == 1 then 1 else 0) + 2 * Or(x / 2, y / 2)
  }

  function And(x: nat, y: nat): nat {
    if x == 0 || y == 0 then 0
    else (if x % 2 == 1 && y % 2 == 1 then 1 else 0) + 2 * And(x / 2, y / 2)
  }

  /** A left shift drops what leaves the word. */
  function Shl(x: u64, k: nat): u64 { (x * Pow2(k)) % TOP }
  function Shr(x: nat, k: nat): nat { Over(x, Pow2(k)) }
  function Over(x: nat, d: nat): nat
    requires d > 0
  {
    x / d
  }
  function WrapAdd(x: u64, y: u64): u64 { (x + y) % TOP }

  /** `64 - leading_zeros`. */
  function BitLen(x: nat): (r: nat)
    ensures x < Pow2(r)
    ensures x > 0 ==> r > 0 && Pow2(r - 1) <= x
  {
    if x == 0 then 0 else 1 + BitLen(x / 2)
  }

  function Rem(x: nat, d: nat): (r: nat)
    requires d > 0
    ensures r < d
  {
    x % d
  }

  // ---------------------------------------------------------------- arithmetic

  /** A left shift that stays in the word is a product. */
  lemma {:induction false} SmallShift(d: u64, k: nat)
    requires d * Pow2(k) < TOP
    ensures Shl(d, k) == d * Pow2(k)
  {
  }

  lemma {:induction false} TwicePower(p: nat, q: nat, r: nat)
    requires r == p * q
    ensures 2 * r == (2 * p) * q
  {
  }

  lemma {:induction false} Pow2Add(a: nat, b: nat)
    ensures Pow2(a + b) == Pow2(a) * Pow2(b)
  {
    if a > 0 {
      Pow2Add(a - 1, b);
      TwicePower(Pow2(a - 1), Pow2(b), Pow2(a - 1 + b));
    }
  }

  lemma {:induction false} Pow2Mono(a: nat, b: nat)
    requires a <= b
    ensures Pow2(a) <= Pow2(b)
  {
    if a < b { Pow2Mono(a, b - 1); }
  }

  lemma {:induction false} Pow2Top()
    ensures Pow2(64) == TOP
  {
    assert Pow2(8) == 256;
    Pow2Add(8, 8);
    Pow2Add(16, 16);
    Pow2Add(32, 32);
  }

  lemma {:induction false} MulMono(a: nat, b: nat, c: nat)
    requires a <= b
    ensures a * c <= b * c
  {
  }

  lemma {:induction false} Distribute(a: int, b: int, c: int)
    ensures (a + b) * c == a * c + b * c && c * (a + b) == c * a + c * b
  {
  }

  lemma {:induction false} Associate(a: int, b: int, c: int)
    ensures a * (b * c) == (a * b) * c && b * (a * c) == a * (b * c)
  {
  }

  lemma {:induction false} DivUnique(x: nat, d: nat, q: nat, r: nat)
    requires d > 0 && x == q * d + r && r < d
    ensures x / d == q && x % d == r
  {
    var q', r' := x / d, x % d;
    assert x == q' * d + r';
    if q > q' {
      MulMono(q' + 1, q, d);
      Distribute(q', 1, d);
    } else if q < q' {
      MulMono(q + 1, q', d);
      Distribute(q, 1, d);
    }
  }

  lemma {:induction false} MulMod(a: nat, b: nat, d: nat)
    requires d > 0
    ensures (a + b * d) / d == a / d + b && (a + b * d) % d == a % d
  {
    assert a + b * d == (a / d + b) * d + a % d;
    DivUnique(a + b * d, d, a / d + b, a % d);
  }

  /** A number by its quotients: the digit `r2` in between, and the rest. */
  lemma {:induction false} TwoLevels(q2: nat, b: nat, r2: nat, a: nat, r: nat)
    ensures (q2 * b + r2) * a + r == q2 * (a * b) + (r2 * a + r)
  {
    Distribute(q2 * b, r2, a);
    Associate(q2, b, a);
    assert b * a == a * b;
  }

  lemma {:induction false} LowerLevel(r2: nat, b: nat, a: nat, r: nat)
    requires r2 < b && r < a
    ensures 0 <= r2 * a + r < a * b
  {
    MulMono(r2 + 1, b, a);
    Distribute(r2, 1, a);
    assert b * a == a * b;
  }

  lemma {:induction false} Divided(x: nat, d: nat) returns (q: nat, r: nat)
    requires d > 0
    ensures x == q * d + r && r < d && q == x / d && r == x % d
  {
    q, r := x / d, x % d;
  }

  lemma {:induction false} DivDiv(x: nat, a: nat, b: nat)
    requires a > 0 && b > 0
    ensures a * b > 0 && x / (a * b) == x / a / b && x % (a * b) / a == x / a % b
  {
    var q, r := Divided(x, a);
    var q2, r2 := Divided(q, b);
    TwoLevels(q2, b, r2, a, r);
    LowerLevel(r2, b, a, r);
    DivUnique(x, a * b, q2, r2 * a + r);
    DivUnique(r2 * a + r, a, r2, r);
  }

  // ------------------------------------------------------------------ bit facts

  /** OR of a number below a power of two and a multiple of it is their sum. */
  lemma {:induction false} OrDisjoint(x: nat, k: nat, y: nat)
    requires x < Pow2(k)
    ensures Or(x, y * Pow2(k)) == x + y * Pow2(k)
  {
    if k == 0 {
      assert x == 0;
      OrZero(y);
    } else {
      var p := Pow2(k - 1);
      assert y * Pow2(k) == 2 * (y * p);
      OrDisjoint(x / 2, k - 1, y);
      if x == 0 && y * Pow2(k) == 0 {
      } else {
        assert Or(x, y * Pow2(k)) == x % 2 + 2 * Or(x / 2, y * p);
      }
    }
  }

  lemma {:induction false} OrZero(y: nat)
    ensures Or(0, y) == y
  {
    if y > 0 { OrZero(y / 2); }
  }

  /** The low bit and the rest of a remainder. */
  lemma {:induction false} LowBit(x: nat, p: nat)
    requires p > 0
    ensures x % (2 * p) == x % 2 + 2 * (x / 2 % p)
  {
    DivDiv(x, 2, p);
    var m := x % (2 * p);
    assert m / 2 == x / 2 % p;
    MulMod(m, x / (2 * p) * p, 2);
    Associate(x / (2 * p), p, 2);
    assert x == m + x / (2 * p) * p * 2;
  }

  /** AND with an odd number keeps the low bit. */
  lemma {:induction false} AndOdd(x: nat, y: nat)
    ensures And(x, 2 * y + 1) == x % 2 + 2 * And(x / 2, y)
  {
    assert (2 * y + 1) / 2 == y && (2 * y + 1) % 2 == 1;
  }

  lemma {:induction false} AndMask(x: nat, k: nat)
    ensures And(x, Pow2(k) - 1) == x % Pow2(k)
  {
    if k > 0 {
      var p := Pow2(k - 1);
      AndMask(x / 2, k - 1);
      LowBit(x, p);
      AndOdd(x, p - 1);
    }
  }

  // ---------------------------------------------------------- numbers by digits

  /** The number whose digits, low first, are `ds` in base `2^w`. */
  function Number(ds: seq<nat>, w: nat): nat {
    if ds == [] then 0 else ds[0] + Pow2(w) * Number(ds[1..], w)
  }

  predicate Digits(ds: seq<nat>, w: nat) { forall i :: 0 <= i < |ds| ==> ds[i] < Pow2(w) }

  /** One more digit's worth of room. */
  lemma {:induction false} PowNext(n: nat, w: nat)
    ensures Pow2((n + 1) * w) == Pow2(w) * Pow2(n * w)
  {
    Distribute(n, 1, w);
    Pow2Add(w, n * w);
  }

  lemma {:induction false} BoundStep(d: nat, rest: nat, p: nat, q: nat)
    requires d < p && rest < q
    ensures d + p * rest < p * q
  {
    MulMono(rest + 1, q, p);
    Distribute(rest, 1, p);
  }

  lemma {:induction false} NumberBound(ds: seq<nat>, w: nat)
    requires Digits(ds, w)
    ensures Number(ds, w) < Pow2(|ds| * w)
  {
    if ds != [] {
      NumberBound(ds[1..], w);
      PowNext(|ds| - 1, w);
      BoundStep(ds[0], Number(ds[1..], w), Pow2(w), Pow2((|ds| - 1) * w));
    }
  }

  lemma {:induction false} AppendStep(p: nat, q: nat, rest: nat, d: int)
    ensures p * (rest + d * q) == p * rest + d * (p * q)
  {
    Distribute(rest, d * q, p);
    Associate(p, d, q);
    Associate(d, p, q);
  }

  lemma {:induction false} NumberAppend(ds: seq<nat>, d: nat, w: nat)
    ensures Number(ds + [d], w) == Number(ds, w) + d * Pow2(|ds| * w)
  {
    if ds == [] {
      assert [d][1..] == [];
    } else {
      assert (ds + [d])[1..] == ds[1..] + [d];
      NumberAppend(ds[1..], d, w);
      PowNext(|ds| - 1, w);
      AppendStep(Pow2(w), Pow2((|ds| - 1) * w), Number(ds[1..], w), d);
    }
  }

  /** A digit at the bottom. */
  lemma {:induction false} LowDigit(d: nat, rest: nat, p: nat)
    requires d < p
    ensures (d + p * rest) / p == rest && (d + p * rest) % p == d
  {
    DivUnique(d + p * rest, p, rest, d);
  }

  /** Shifting out `i` digits. */
  lemma {:induction false} NumberShift(ds: seq<nat>, w: nat, i: nat)
    requires Digits(ds, w) && i <= |ds|
    ensures Number(ds, w) / Pow2(i * w) == Number(ds[i..], w)
  {
    if i == 0 {
      assert ds[0..] == ds;
    } else {
      assert ds[1..][i - 1..] == ds[i..];
      NumberShift(ds[1..], w, i - 1);
      PowNext(i - 1, w);
      DivDiv(Number(ds, w), Pow2(w), Pow2((i - 1) * w));
      LowDigit(ds[0], Number(ds[1..], w), Pow2(w));
    }
  }

  /** Any digit is a shift and a remainder away. */
  lemma {:induction false} DigitAt(ds: seq<nat>, w: nat, i: nat)
    requires Digits(ds, w) && i < |ds|
    ensures Number(ds, w) / Pow2(i * w) % Pow2(w) == ds[i]
  {
    NumberShift(ds, w, i);
    var tail := ds[i..];
    assert tail[0] == ds[i];
    LowDigit(tail[0], Number(tail[1..], w), Pow2(w));
  }

  /** Changing one digit. */
  lemma {:induction false} NumberUpdate(ds: seq<nat>, w: nat, i: nat, d: nat)
    requires i < |ds|
    ensures Number(ds[i := d], w) == Number(ds, w) + (d - ds[i]) * Pow2(i * w)
  {
    var ds' := ds[i := d];
    if i == 0 {
      assert ds'[1..] == ds[1..];
    } else {
      assert ds'[1..] == ds[1..][i - 1 := d];
      NumberUpdate(ds[1..], w, i - 1, d);
      PowNext(i - 1, w);
      AppendStep(Pow2(w), Pow2((i - 1) * w), Number(ds[1..], w), d - ds[i]);
    }
  }

  lemma {:induction false} NumberOfZeros(ds: seq<nat>, w: nat)
    requires forall i :: 0 <= i < |ds| ==> ds[i] == 0
    ensures Number(ds, w) == 0
  {
    if ds != [] { NumberOfZeros(ds[1..], w); }
  }
}
