/** Hash-and-displace minimal perfect hashing: group the keys into buckets by a
counting sort, then find each bucket a displacement under which its keys fall
on free slots.  The hash itself is any function. */
module Mph {
  import opened Basics
  import opened Bits
  import opened BitPack
  import opened Packing
  import opened Counting
  import opened Bitmap

  type Hash = (u64, u64) -> u64

  const BUCKET_AVG: nat := 4
  const SCRATCH: nat := 64
  const MAX_SEED: nat := 1_000_000

  /** A 64-bit hash scaled to `[0, n)`. */
  function FastRange(h: u64, n: nat): (r: nat)
    ensures n > 0 ==> r < n
  {
    if n == 0 then 0 else
    Scaled(h, n);
    Over(h * n, TOP)
  }

  lemma {:induction false} Scaled(h: u64, n: nat)
    requires n > 0
    ensures h * n >= 0 && h * n / TOP < n
  {
    MulMono(h, TOP - 1, n);
    Distribute(TOP, -1, n);
  }

  function Xor(x: u64, y: u64): u64 { ((x as bv64) ^ (y as bv64)) as int }

  /** The hash seed a displacement stands for. */
  function SeedOf(gs: u64, d: u64): u64 { Xor(gs, Shl(d, 32)) }

  function BucketOf(hash: Hash, gs: u64, nb: nat, key: u64): nat { FastRange(hash(key, gs), nb) }
  function SlotOf(hash: Hash, gs: u64, d: u64, n: nat, key: u64): nat { FastRange(hash(key, SeedOf(gs, d)), n) }

  datatype Table = Table(seeds: Packed, nb: nat, gs: u64, n: nat)

  function Lookup(m: Table, hash: Hash, key: u64): (r: nat)
    requires BucketOf(hash, m.gs, m.nb, key) < TOP && Readable(m.seeds, BucketOf(hash, m.gs, m.nb, key))
    ensures m.n > 0 ==> r < m.n
  {
    SlotOf(hash, m.gs, Get(m.seeds, BucketOf(hash, m.gs, m.nb, key)), m.n, key)
  }

  // ------------------------------------------------------------------- grouping

  function Labels(keys: seq<u64>, hash: Hash, gs: u64, nb: nat): (ls: seq<nat>)
    ensures |ls| == |keys| && forall i :: 0 <= i < |keys| ==> ls[i] == BucketOf(hash, gs, nb, keys[i])
  {
    seq(|keys|, i requires 0 <= i < |keys| => BucketOf(hash, gs, nb, keys[i]))
  }

  /** Where each bucket begins. */
  predicate Starts(count: seq<nat>, ls: seq<nat>, nb: nat) {
    |count| == nb + 1 && forall b :: 0 <= b <= nb ==> count[b] == CountLess(ls, b)
  }

  predicate Grouped(flat: seq<u64>, keys: seq<u64>, ls: seq<nat>) {
    && |flat| == |keys| == |ls|
    && forall j :: 0 <= j < |keys| ==> Pos(ls, j) < |flat| && flat[Pos(ls, j)] == keys[j]
  }

  /** Count each bucket one place up, then sum. */
  method BucketStarts(ls: seq<nat>, nb: nat) returns (count: seq<nat>)
    requires forall i :: 0 <= i < |ls| ==> ls[i] < nb
    ensures Starts(count, ls, nb)
  {
    var c := new nat[nb + 1](_ => 0);
    for i := 0 to |ls|
      invariant c[0] == 0
      invariant forall t :: 1 <= t <= nb ==> c[t] == CountEq(ls[..i], t - 1)
    {
      forall b | 0 <= b < nb ensures CountEq(ls[..i + 1], b) == CountEq(ls[..i], b) + if ls[i] == b then 1 else 0 {
        CountEqNext(ls, i, b);
      }
      c[ls[i] + 1] := c[ls[i] + 1] + 1;
    }
    assert ls[..|ls|] == ls;
    CountNone(ls);
    for i := 0 to nb
      invariant forall b :: 0 <= b <= i ==> c[b] == CountLess(ls, b)
      invariant forall t :: i < t <= nb ==> c[t] == CountEq(ls, t - 1)
    {
      CountNext(ls, i);
      c[i + 1] := c[i + 1] + c[i];
    }
    count := c[..];
  }

  /** Drop each key at its bucket's cursor. */
  method Scatter(keys: seq<u64>, ls: seq<nat>, count: seq<nat>, nb: nat) returns (flat: seq<u64>)
    requires |keys| == |ls| && Starts(count, ls, nb) && forall i :: 0 <= i < |ls| ==> ls[i] < nb
    ensures Grouped(flat, keys, ls)
  {
    var f := new u64[|keys|](_ => 0);
    var cursor := new nat[nb + 1];
    forall b | 0 <= b <= nb { cursor[b] := count[b]; }
    for i := 0 to |keys|
      invariant forall b :: 0 <= b < nb ==> cursor[b] == CountLess(ls, b) + CountEq(ls[..i], b)
      invariant forall j :: 0 <= j < i ==> Pos(ls, j) < f.Length && f[Pos(ls, j)] == keys[j]
    {
      var b := ls[i];
      PosInRun(ls, i);
      assert cursor[b] == Pos(ls, i);
      forall j | 0 <= j < i ensures Pos(ls, j) != Pos(ls, i) {
        PosDistinct(ls, j, i);
      }
      forall b' | 0 <= b' < nb ensures CountEq(ls[..i + 1], b') == CountEq(ls[..i], b') + if ls[i] == b' then 1 else 0 {
        CountEqNext(ls, i, b');
      }
      f[cursor[b]] := keys[i];
      cursor[b] := cursor[b] + 1;
    }
    flat := f[..];
  }

  // ------------------------------------------------------------------- the order

  /** Every bucket, once. */
  predicate Visits(order: seq<nat>, nb: nat) {
    && |order| == nb && Injective(order)
    && forall k :: 0 <= k < nb ==> order[k] < nb
  }

  predicate LargestFirst(order: seq<nat>, count: seq<nat>) {
    forall i, j :: 0 <= i < j < |order| && order[i] + 1 < |count| && order[j] + 1 < |count| ==> Size(count, order[i]) >= Size(count, order[j])
  }

  function Size(count: seq<nat>, b: nat): int
    requires b + 1 < |count|
  {
    var lo: int, hi: int := count[b], count[b + 1];
    hi - lo
  }

  function Insert(order: seq<nat>, count: seq<nat>, b: nat): (r: seq<nat>)
    requires b + 1 < |count| && forall k :: 0 <= k < |order| ==> order[k] + 1 < |count|
    ensures |r| == |order| + 1 && forall x :: x in r <==> x == b || x in order
  {
    if order == [] || Size(count, order[0]) < Size(count, b) then [b] + order
    else [order[0]] + Insert(order[1..], count, b)
  }

  lemma {:induction false} InsertKeeps(order: seq<nat>, count: seq<nat>, b: nat)
    requires b + 1 < |count| && forall k :: 0 <= k < |order| ==> order[k] + 1 < |count|
    requires Injective(order) && b !in order && LargestFirst(order, count)
    ensures Injective(Insert(order, count, b)) && LargestFirst(Insert(order, count, b), count)
  {
    if order == [] || Size(count, order[0]) < Size(count, b) {
      forall j | 0 <= j < |order| ensures b != order[j] && Size(count, b) >= Size(count, order[j]) {
        assert order[j] in order;
      }
      Prepend(b, order, count);
    } else {
      InsertKeeps(order[1..], count, b);
      var rest := Insert(order[1..], count, b);
      forall j | 0 <= j < |rest|
        ensures order[0] != rest[j] && rest[j] + 1 < |count| && Size(count, order[0]) >= Size(count, rest[j])
      {
        assert rest[j] in rest;
      }
      Prepend(order[0], rest, count);
    }
  }

  lemma {:induction false} Prepend(b: nat, rest: seq<nat>, count: seq<nat>)
    requires b + 1 < |count| && Injective(rest) && LargestFirst(rest, count)
    requires forall j :: 0 <= j < |rest| ==> b != rest[j] && rest[j] + 1 < |count| && Size(count, b) >= Size(count, rest[j])
    ensures Injective([b] + rest) && LargestFirst([b] + rest, count)
  {
  }

  /** The buckets, largest first. */
  method OrderBuckets(count: seq<nat>, nb: nat) returns (order: seq<nat>)
    requires |count| == nb + 1
    ensures Visits(order, nb) && LargestFirst(order, count)
  {
    order := [];
    for b := 0 to nb
      invariant |order| == b && Injective(order) && LargestFirst(order, count)
      invariant forall k :: 0 <= k < |order| ==> order[k] < b
    {
      InsertKeeps(order, count, b);
      var more := Insert(order, count, b);
      forall k | 0 <= k < |more| ensures more[k] < b + 1 { assert more[k] in more; }
      order := more;
    }
  }

  // ------------------------------------------------------------------ one bucket

  function Slots(bucket: seq<u64>, hash: Hash, gs: u64, d: u64, n: nat): (s: seq<nat>)
    ensures |s| == |bucket| && forall i :: 0 <= i < |bucket| ==> s[i] == SlotOf(hash, gs, d, n, bucket[i])
  {
    seq(|bucket|, i requires 0 <= i < |bucket| => SlotOf(hash, gs, d, n, bucket[i]))
  }

  /** A displacement puts a bucket's keys on different, free slots. */
  predicate Fits(bucket: seq<u64>, hash: Hash, gs: u64, d: u64, n: nat, taken: set<nat>) {
    var s := Slots(bucket, hash, gs, d, n);
    Injective(s) && forall i :: 0 <= i < |s| ==> s[i] !in taken
  }

  datatype Attempt = Placed(slots: seq<nat>) | Collides | Overflows

  /** Try one displacement; the scratch array holds `SCRATCH` slots. */
  method TrySeed(bucket: seq<u64>, hash: Hash, gs: u64, d: u64, n: nat, occ: seq<u64>, ghost taken: set<nat>)
      returns (r: Attempt)
    requires n > 0 && Marks(occ, n, taken)
    ensures match r
      case Placed(slots) => |bucket| <= SCRATCH && Fits(bucket, hash, gs, d, n, taken) && slots == Slots(bucket, hash, gs, d, n)
      case Collides => !Fits(bucket, hash, gs, d, n, taken)
      case Overflows => |bucket| > SCRATCH
  {
    var s := SeedOf(gs, d);
    var placed: seq<nat> := [];
    ghost var all := Slots(bucket, hash, gs, d, n);
    for i := 0 to |bucket|
      invariant |placed| == i <= SCRATCH && placed == all[..i]
      invariant Injective(placed) && forall k :: 0 <= k < i ==> placed[k] !in taken
    {
      var p := FastRange(hash(bucket[i], s), n);
      assert p == all[i];
      if Taken(occ, p) { return Collides; }
      if p in placed {
        assert !Injective(all);
        return Collides;
      }
      if |placed| == SCRATCH { return Overflows; }
      placed := placed + [p];
    }
    assert all[..|bucket|] == all;
    return Placed(placed);
  }

  function Values(s: seq<nat>): set<nat> { set q | q in s }

  method TakeAll(occ: seq<u64>, n: nat, slots: seq<nat>, ghost taken: set<nat>) returns (occ': seq<u64>)
    requires Marks(occ, n, taken) && forall i :: 0 <= i < |slots| ==> slots[i] < n
    ensures Marks(occ', n, taken + Values(slots))
  {
    occ' := occ;
    for i := 0 to |slots|
      invariant Marks(occ', n, taken + Values(slots[..i]))
    {
      assert taken + Values(slots[..i]) + {slots[i]} == taken + Values(slots[..i + 1]);
      TakeMarks(occ', n, taken + Values(slots[..i]), slots[i]);
      occ' := Take(occ', slots[i]);
    }
    assert slots[..|slots|] == slots;
  }

  datatype Search = Found(d: u64) | TooBig | Exhausted

  /** The first displacement that fits, and the bitmap with its slots taken. */
  method PlaceBucket(bucket: seq<u64>, hash: Hash, gs: u64, n: nat, occ: seq<u64>, ghost taken: set<nat>)
      returns (r: Search, occ': seq<u64>)
    requires n > 0 && Marks(occ, n, taken)
    ensures match r
      case Found(d) =>
        && 1 <= d <= MAX_SEED && Fits(bucket, hash, gs, d, n, taken)
        && (forall e: u64 :: 1 <= e < d ==> !Fits(bucket, hash, gs, e, n, taken))
        && Marks(occ', n, taken + Values(Slots(bucket, hash, gs, d, n)))
      case TooBig => |bucket| > SCRATCH
      case Exhausted => forall e: u64 :: 1 <= e <= MAX_SEED ==> !Fits(bucket, hash, gs, e, n, taken)
  {
    occ' := occ;
    for d := 1 to MAX_SEED + 1
      invariant occ' == occ
      invariant forall e: u64 :: 1 <= e < d ==> !Fits(bucket, hash, gs, e, n, taken)
    {
      var a := TrySeed(bucket, hash, gs, d, n, occ, taken);
      match a {
        case Overflows => return TooBig, occ;
        case Collides =>
        case Placed(slots) =>
          occ' := TakeAll(occ, n, slots, taken);
          return Found(d), occ';
      }
    }
    return Exhausted, occ;
  }
}
