/** Building the minimal perfect hash: every global seed is tried in turn, and
whatever table comes out maps its keys one to one onto `[0, n)`. */
module MphBuild {
  import opened Basics
  import opened Bits
  import opened BitPack
  import opened Packing
  import opened Counting
  import opened Bitmap
  import opened Mph

  predicate InBucket(count: seq<nat>, b: nat, q: nat) { b + 1 < |count| && count[b] <= q < count[b + 1] }

  /** The slot each grouped position has been given so far. */
  type Placing = map<nat, nat>

  predicate OneToOne(slot: Placing) {
    forall p, q :: p in slot && q in slot && p != q ==> slot[p] != slot[q]
  }

  /** Position `q` of bucket `b` sits where the bucket's seed puts it. */
  predicate Sits(slot: Placing, hash: Hash, gs: u64, n: nat, flat: seq<u64>, seeds: seq<u64>, b: nat, q: nat) {
    b < |seeds| && q < |flat| && q in slot && slot[q] == SlotOf(hash, gs, seeds[b], n, flat[q])
  }

  /** The first `m` buckets of the order are placed, the rest are not begun. */
  ghost predicate Progress(order: seq<nat>, m: nat, count: seq<nat>, hash: Hash, gs: u64, n: nat,
                           flat: seq<u64>, seeds: seq<u64>, slot: Placing) {
    && m <= |order|
    && (forall k, q: nat :: 0 <= k < m && InBucket(count, order[k], q) ==> Sits(slot, hash, gs, n, flat, seeds, order[k], q))
    && (forall k, q: nat :: m <= k < |order| && InBucket(count, order[k], q) ==> q !in slot)
    && OneToOne(slot)
  }

  /** Different buckets share no position. */
  lemma {:induction false} BucketsApart(count: seq<nat>, ls: seq<nat>, nb: nat, a: nat, b: nat, q: nat)
    requires Starts(count, ls, nb) && InBucket(count, a, q) && InBucket(count, b, q)
    ensures a == b
  {
    if a < b { CountLessMono(ls, a + 1, b); }
    if b < a { CountLessMono(ls, b + 1, a); }
  }

  predicate Within(q: nat, lo: nat, n: nat) { lo <= q < lo + n }

  function Added(slot: Placing, lo: nat, slots: seq<nat>): Placing {
    slot + map q: nat | q < lo + |slots| && Within(q, lo, |slots|) :: slots[q - lo]
  }

  lemma {:induction false} AddedValues(slot: Placing, lo: nat, slots: seq<nat>)
    requires forall q :: lo <= q < lo + |slots| ==> q !in slot
    ensures Added(slot, lo, slots).Values == slot.Values + Values(slots)
  {
    var more := Added(slot, lo, slots);
    forall v ensures v in more.Values <==> v in slot.Values + Values(slots) {
      if v in slot.Values {
        var q :| q in slot && slot[q] == v;
        assert more[q] == v;
      }
      if v in slots {
        var i :| 0 <= i < |slots| && slots[i] == v;
        assert Within(lo + i, lo, |slots|) && more[lo + i] == v;
      }
    }
  }

  lemma {:induction false} AddedOneToOne(slot: Placing, lo: nat, slots: seq<nat>)
    requires OneToOne(slot) && Injective(slots)
    requires forall q :: lo <= q < lo + |slots| ==> q !in slot
    requires forall i :: 0 <= i < |slots| ==> slots[i] !in slot.Values
    ensures OneToOne(Added(slot, lo, slots))
  {
    var more := Added(slot, lo, slots);
    forall p, q | p in more && q in more && p != q ensures more[p] != more[q] {
      if lo <= p < lo + |slots| {
        assert more[p] == slots[p - lo];
        if lo <= q < lo + |slots| { assert slots[p - lo] != slots[q - lo]; } else { assert more[q] in slot.Values; }
      } else {
        assert more[p] in slot.Values;
      }
    }
  }

  /** One more bucket placed. */
  lemma {:induction false} PlaceStep(order: seq<nat>, m: nat, count: seq<nat>, ls: seq<nat>, nb: nat, hash: Hash, gs: u64, n: nat,
                  flat: seq<u64>, seeds: seq<u64>, slot: Placing, d: u64)
    requires Visits(order, nb) && m < nb == |seeds| && Starts(count, ls, nb) && n == |flat| == |ls|
    requires Progress(order, m, count, hash, gs, n, flat, seeds, slot)
    requires count[order[m]] <= count[order[m] + 1] <= n
    requires Fits(flat[count[order[m]]..count[order[m] + 1]], hash, gs, d, n, slot.Values)
    ensures var b := order[m];
      var slots := Slots(flat[count[b]..count[b + 1]], hash, gs, d, n);
      && Progress(order, m + 1, count, hash, gs, n, flat, seeds[b := d], Added(slot, count[b], slots))
      && Added(slot, count[b], slots).Values == slot.Values + Values(slots)
  {
    var b := order[m];
    var lo, hi := count[b], count[b + 1];
    var slots := Slots(flat[lo..hi], hash, gs, d, n);
    forall q | lo <= q < lo + |slots| ensures q !in slot {
      assert InBucket(count, order[m], q);
    }
    AddedValues(slot, lo, slots);
    AddedOneToOne(slot, lo, slots);
    var more, seeds' := Added(slot, lo, slots), seeds[b := d];
    forall k, q: nat | 0 <= k < m + 1 && InBucket(count, order[k], q)
      ensures Sits(more, hash, gs, n, flat, seeds', order[k], q)
    {
      if k == m {
        NewSits(slot, hash, gs, n, flat, seeds', b, lo, hi, q);
      } else {
        OldSits(count, ls, nb, slot, hash, gs, n, flat, seeds, order[k], q, b, d, slots);
      }
    }
    forall k, q: nat | m + 1 <= k < |order| && InBucket(count, order[k], q) ensures q !in more {
      if Within(q, lo, |slots|) { BucketsApart(count, ls, nb, order[k], b, q); assert false; }
    }
  }

  lemma {:induction false} NewSits(slot: Placing, hash: Hash, gs: u64, n: nat, flat: seq<u64>, seeds: seq<u64>, b: nat, lo: nat, hi: nat, q: nat)
    requires lo <= q < hi <= |flat| && b < |seeds|
    ensures Sits(Added(slot, lo, Slots(flat[lo..hi], hash, gs, seeds[b], n)), hash, gs, n, flat, seeds, b, q)
  {
    assert Within(q, lo, hi - lo);
    assert flat[lo..hi][q - lo] == flat[q];
  }

  lemma {:induction false} OldSits(count: seq<nat>, ls: seq<nat>, nb: nat, slot: Placing, hash: Hash, gs: u64, n: nat,
                flat: seq<u64>, seeds: seq<u64>, a: nat, q: nat, b: nat, d: u64, slots: seq<nat>)
    requires Starts(count, ls, nb) && InBucket(count, a, q) && a != b && b < nb == |seeds|
    requires Sits(slot, hash, gs, n, flat, seeds, a, q) && count[b] + |slots| == count[b + 1]
    ensures Sits(Added(slot, count[b], slots), hash, gs, n, flat, seeds[b := d], a, q)
  {
    if Within(q, count[b], |slots|) { BucketsApart(count, ls, nb, a, b, q); assert false; }
  }

  /** An empty bucket needs no seed. */
  lemma {:induction false} SkipStep(order: seq<nat>, m: nat, count: seq<nat>, hash: Hash, gs: u64, n: nat,
                 flat: seq<u64>, seeds: seq<u64>, slot: Placing)
    requires m < |order| && order[m] + 1 < |count| && count[order[m]] == count[order[m] + 1]
    requires Progress(order, m, count, hash, gs, n, flat, seeds, slot)
    ensures Progress(order, m + 1, count, hash, gs, n, flat, seeds, slot)
  {
  }

  // ------------------------------------------------------------ one global seed

  function KeySlots(keys: seq<u64>, hash: Hash, gs: u64, nb: nat, seeds: seq<u64>): (s: seq<nat>)
    requires |seeds| == nb && nb > 0
    ensures |s| == |keys|
    ensures forall i :: 0 <= i < |keys| ==> s[i] == SlotOf(hash, gs, seeds[BucketOf(hash, gs, nb, keys[i])], |keys|, keys[i])
  {
    seq(|keys|, i requires 0 <= i < |keys| => SlotOf(hash, gs, seeds[BucketOf(hash, gs, nb, keys[i])], |keys|, keys[i]))
  }

  lemma {:induction false} AllPlaced(keys: seq<u64>, ls: seq<nat>, order: seq<nat>, count: seq<nat>, hash: Hash, gs: u64, nb: nat,
                  flat: seq<u64>, seeds: seq<u64>, slot: Placing)
    requires nb > 0 && ls == Labels(keys, hash, gs, nb) && Visits(order, nb) && Starts(count, ls, nb) && |seeds| == nb
    requires Grouped(flat, keys, ls) && Progress(order, nb, count, hash, gs, |keys|, flat, seeds, slot)
    ensures Injective(KeySlots(keys, hash, gs, nb, seeds))
  {
    var s := KeySlots(keys, hash, gs, nb, seeds);
    forall i | 0 <= i < |keys| ensures Pos(ls, i) in slot && slot[Pos(ls, i)] == s[i] {
      PosInRun(ls, i);
      var k := Reaches(order, ls[i]);
      assert InBucket(count, order[k], Pos(ls, i));
    }
    forall i, j | 0 <= i < j < |keys| ensures s[i] != s[j] {
      PosDistinct(ls, i, j);
    }
  }

  /** No displacement puts the bucket on different, free slots, or it is too big
  for the scratch array. */
  ghost predicate Unplaceable(bucket: seq<u64>, hash: Hash, gs: u64, n: nat, taken: set<nat>) {
    |bucket| > SCRATCH || forall d: u64 :: 1 <= d <= MAX_SEED ==> !Fits(bucket, hash, gs, d, n, taken)
  }

  function NextBucket(order: seq<nat>, m: nat, count: seq<nat>, flat: seq<u64>): seq<u64>
    requires m < |order| && order[m] + 1 < |count| && count[order[m]] <= count[order[m] + 1] <= |flat|
  {
    flat[count[order[m]]..count[order[m] + 1]]
  }

  /** Visiting the buckets in `order`, largest first, the first `m` are placed and
  the next one has keys. */
  ghost predicate ReachedAt(keys: seq<u64>, hash: Hash, gs: u64, nb: nat, order: seq<nat>, m: nat, count: seq<nat>,
                            flat: seq<u64>, seeds: seq<u64>, slot: Placing)
    requires nb > 0
  {
    var n, ls := |keys|, Labels(keys, hash, gs, nb);
    && Visits(order, nb) && LargestFirst(order, count) && Starts(count, ls, nb) && Grouped(flat, keys, ls)
    && m < nb && Progress(order, m, count, hash, gs, n, flat, seeds, slot) && Below(slot, n)
    && count[order[m]] < count[order[m] + 1] <= n
  }

  ghost predicate StuckAt(keys: seq<u64>, hash: Hash, gs: u64, nb: nat, order: seq<nat>, m: nat, count: seq<nat>,
                          flat: seq<u64>, seeds: seq<u64>, slot: Placing)
    requires nb > 0
  {
    && ReachedAt(keys, hash, gs, nb, order, m, count, flat, seeds, slot)
    && Unplaceable(NextBucket(order, m, count, flat), hash, gs, |keys|, slot.Values)
  }

  /** The global seed does not work out: some bucket is reached that cannot be
  placed beside the larger ones before it. */
  ghost predicate Stuck(keys: seq<u64>, hash: Hash, gs: u64, nb: nat)
    requires nb > 0
  {
    exists order, m, count, flat, seeds, slot :: StuckAt(keys, hash, gs, nb, order, m, count, flat, seeds, slot)
  }

  /** A single key is never stuck. */
  lemma {:induction false} LoneNeverStuck(keys: seq<u64>, hash: Hash, gs: u64)
    requires |keys| == 1
    ensures !Stuck(keys, hash, gs, 1)
  {
    forall order, m: nat, count, flat, seeds, slot | ReachedAt(keys, hash, gs, 1, order, m, count, flat, seeds, slot)
      ensures !StuckAt(keys, hash, gs, 1, order, m, count, flat, seeds, slot)
    {
      LonePlaceable(keys, hash, gs, order, m, count, flat, seeds, slot);
    }
  }

  lemma {:induction false} LonePlaceable(keys: seq<u64>, hash: Hash, gs: u64, order: seq<nat>, m: nat, count: seq<nat>,
                                         flat: seq<u64>, seeds: seq<u64>, slot: Placing)
    requires |keys| == 1 && ReachedAt(keys, hash, gs, 1, order, m, count, flat, seeds, slot)
    ensures !Unplaceable(NextBucket(order, m, count, flat), hash, gs, 1, slot.Values)
  {
    assert InBucket(count, order[m], 0);
    assert slot == map[];
    assert Fits(NextBucket(order, m, count, flat), hash, gs, 1, 1, slot.Values);
  }

  predicate Below(slot: Placing, n: nat) { forall q :: q in slot ==> q < n }

  /** The next bucket with keys: placed, or stuck. */
  method PlaceNext(ghost keys: seq<u64>, ghost ls: seq<nat>, hash: Hash, gs: u64, nb: nat, order: seq<nat>, m: nat, count: seq<nat>,
                   flat: seq<u64>, seeds: seq<u64>, occ: seq<u64>, ghost slot: Placing)
      returns (ok: bool, seeds': seq<u64>, occ': seq<u64>, ghost slot': Placing)
    requires |keys| > 0 && nb > 0 && ls == Labels(keys, hash, gs, nb) && |seeds| == nb
    requires ReachedAt(keys, hash, gs, nb, order, m, count, flat, seeds, slot) && Marks(occ, |keys|, slot.Values)
    ensures |seeds'| == nb
    ensures ok ==> Progress(order, m + 1, count, hash, gs, |keys|, flat, seeds', slot')
    ensures ok ==> Marks(occ', |keys|, slot'.Values) && Below(slot', |keys|)
    ensures !ok ==> Stuck(keys, hash, gs, nb)
  {
    var bucket := NextBucket(order, m, count, flat);
    var r;
    r, occ' := PlaceBucket(bucket, hash, gs, |flat|, occ, slot.Values);
    seeds', slot' := seeds, slot;
    if !r.Found? {
      assert StuckAt(keys, hash, gs, nb, order, m, count, flat, seeds, slot);
      return false, seeds, occ', slot;
    }
    Placed(keys, ls, hash, gs, nb, order, m, count, flat, seeds, slot, r.d);
    slot' := Added(slot, count[order[m]], Slots(bucket, hash, gs, r.d, |flat|));
    seeds' := seeds[order[m] := r.d];
    ok := true;
  }

  lemma {:induction false} Placed(keys: seq<u64>, ls: seq<nat>, hash: Hash, gs: u64, nb: nat, order: seq<nat>, m: nat, count: seq<nat>,
                                  flat: seq<u64>, seeds: seq<u64>, slot: Placing, d: u64)
    requires nb > 0 && ls == Labels(keys, hash, gs, nb) && |seeds| == nb
    requires ReachedAt(keys, hash, gs, nb, order, m, count, flat, seeds, slot)
    requires |keys| > 0 && Fits(NextBucket(order, m, count, flat), hash, gs, d, |keys|, slot.Values)
    ensures var slots := Slots(NextBucket(order, m, count, flat), hash, gs, d, |keys|);
      var more := Added(slot, count[order[m]], slots);
      && Progress(order, m + 1, count, hash, gs, |keys|, flat, seeds[order[m] := d], more)
      && more.Values == slot.Values + Values(slots) && Below(more, |keys|)
  {
    PlaceStep(order, m, count, ls, nb, hash, gs, |keys|, flat, seeds, slot, d);
  }

  /** One global seed: it works out, or some bucket gets stuck. */
  method TryGlobal(keys: seq<u64>, hash: Hash, gs: u64, nb: nat) returns (ok: bool, seeds: seq<u64>)
    requires |keys| > 0 && nb > 0
    ensures |seeds| == nb
    ensures ok ==> Injective(KeySlots(keys, hash, gs, nb, seeds))
    ensures !ok ==> Stuck(keys, hash, gs, nb)
  {
    var n := |keys|;
    var ls := Labels(keys, hash, gs, nb);
    var count := BucketStarts(ls, nb);
    var flat := Scatter(keys, ls, count, nb);
    var order := OrderBuckets(count, nb);
    seeds := seq(nb, _ => 0);
    var occ: seq<u64> := seq((n + 63) / 64, _ => 0);
    ghost var slot: Placing := map[];
    NothingTaken(occ, n);
    for m := 0 to nb
      invariant |seeds| == nb && Progress(order, m, count, hash, gs, n, flat, seeds, slot)
      invariant Marks(occ, n, slot.Values) && Below(slot, n)
    {
      CountLessMono(ls, order[m], order[m] + 1);
      if count[order[m]] == count[order[m] + 1] {
        SkipStep(order, m, count, hash, gs, n, flat, seeds, slot);
      } else {
        ok, seeds, occ, slot := PlaceNext(keys, ls, hash, gs, nb, order, m, count, flat, seeds, occ, slot);
        if !ok { return false, seeds; }
      }
    }
    AllPlaced(keys, ls, order, count, hash, gs, nb, flat, seeds, slot);
    return true, seeds;
  }

  lemma {:induction false} NothingTaken(occ: seq<u64>, n: nat)
    requires n <= 64 * |occ| && forall i :: 0 <= i < |occ| ==> occ[i] == 0
    ensures Marks(occ, n, {})
  {
    forall q: nat | q < n ensures !Taken(occ, q) {
      NoneTaken(occ, q);
    }
  }

  // ------------------------------------------------------------------- the table

  ghost predicate Reached(m: Table, hash: Hash, keys: seq<u64>, s: nat) {
    exists i :: 0 <= i < |keys| && Findable(m, hash, keys[i]) && Lookup(m, hash, keys[i]) == s
  }

  /** Looking a key up reads in bounds, and the keys map one to one onto `[0, n)`. */
  ghost predicate Bijection(m: Table, hash: Hash, keys: seq<u64>) {
    && m.n == |keys|
    && (forall i :: 0 <= i < |keys| ==> Findable(m, hash, keys[i]) && Lookup(m, hash, keys[i]) < |keys|)
    && (forall i, j :: 0 <= i < j < |keys| ==> Lookup(m, hash, keys[i]) != Lookup(m, hash, keys[j]))
    && (forall s: nat :: s < |keys| ==> Reached(m, hash, keys, s))
  }

  predicate Findable(m: Table, hash: Hash, key: u64) {
    BucketOf(hash, m.gs, m.nb, key) < TOP && Readable(m.seeds, BucketOf(hash, m.gs, m.nb, key))
  }

  /** The packed seed array answers the seeds it was packed from. */
  lemma {:induction false} SeedsRead(m: Table, hash: Hash, seeds: seq<u64>, key: u64)
    requires Holds(m.seeds, seeds) && m.nb == |seeds| && 0 < |seeds| <= MAX_ROWS
    ensures Findable(m, hash, key)
    ensures Lookup(m, hash, key) == SlotOf(hash, m.gs, seeds[BucketOf(hash, m.gs, m.nb, key)], m.n, key)
  {
    GetExact(m.seeds, seeds, BucketOf(hash, m.gs, m.nb, key));
  }

  /** Key `i` is answered by `s[i]`. */
  predicate Answers(m: Table, hash: Hash, keys: seq<u64>, s: seq<nat>) {
    |s| == |keys| && forall i :: 0 <= i < |keys| ==> Findable(m, hash, keys[i]) && Lookup(m, hash, keys[i]) == s[i]
  }

  lemma {:induction false} SlotsAnswer(m: Table, hash: Hash, keys: seq<u64>, seeds: seq<u64>)
    requires Holds(m.seeds, seeds) && m.nb == |seeds| && 0 < |seeds| <= MAX_ROWS && m.n == |keys| > 0
    ensures Answers(m, hash, keys, KeySlots(keys, hash, m.gs, m.nb, seeds))
  {
    var s := KeySlots(keys, hash, m.gs, m.nb, seeds);
    forall i | 0 <= i < |keys| ensures Findable(m, hash, keys[i]) && Lookup(m, hash, keys[i]) == s[i] {
      SeedsRead(m, hash, seeds, keys[i]);
    }
  }

  lemma {:induction false} AllFindable(m: Table, hash: Hash, seeds: seq<u64>)
    requires Holds(m.seeds, seeds) && m.nb == |seeds| && 0 < |seeds| <= MAX_ROWS
    ensures forall key :: Findable(m, hash, key)
  {
    forall key ensures Findable(m, hash, key) { SeedsRead(m, hash, seeds, key); }
  }

  lemma {:induction false} PlacedIsBijection(m: Table, hash: Hash, keys: seq<u64>, s: seq<nat>)
    requires m.n == |keys| > 0 && Answers(m, hash, keys, s) && Injective(s)
    ensures Bijection(m, hash, keys)
  {
    forall i, j | 0 <= i < j < |keys| ensures Lookup(m, hash, keys[i]) != Lookup(m, hash, keys[j]) {
      assert s[i] != s[j];
    }
    forall i | 0 <= i < |s| ensures s[i] < |s| {
      assert Lookup(m, hash, keys[i]) == s[i];
    }
    forall t: nat | t < |keys| ensures Reached(m, hash, keys, t) {
      var i := Reaches(s, t);
      assert Lookup(m, hash, keys[i]) == t;
    }
  }

  function GlobalSeed(attempt: nat): u64 { Xor((attempt * 0x9E37_79B9_7F4A_7C15) % TOP, 0x517C_C1B7) }

  lemma {:induction false} EmptyIsBijection(m: Table, hash: Hash)
    requires m == Table(m.seeds, 1, 0, 0) && Holds(m.seeds, []) && m.seeds.width == 0
    ensures Bijection(m, hash, []) && forall key :: Findable(m, hash, key)
  {
  }

  /** Build the table, or give up after 256 global seeds, each of which left some
  bucket stuck.  A table that comes out is a bijection from the keys to `[0, n)`,
  whatever the hash; any other key is answered in bounds too. */
  method Build(keys: seq<u64>, hash: Hash) returns (r: Option<Table>)
    requires |keys| <= BUCKET_AVG * MAX_ROWS
    ensures r.Some? ==> Bijection(r.value, hash, keys)
    ensures r.Some? ==> forall key :: Findable(r.value, hash, key)
    ensures |keys| <= 1 ==> r.Some?
    ensures r.None? ==> Every(Failing(keys, hash), 256)
  {
    if |keys| == 0 {
      var none := BuildNone(hash);
      assert keys == [];
      return Some(none);
    }
    FailingCovers(keys, hash);
    ghost var bad := Failing(keys, hash);
    r := TryAll(keys, hash, bad);
    if r.None? { EveryIsSome(bad, 256); }
  }

  /** Each global seed in turn; `bad` are those that fail. */
  method TryAll(keys: seq<u64>, hash: Hash, ghost bad: set<nat>) returns (r: Option<Table>)
    requires 0 < |keys| <= BUCKET_AVG * MAX_ROWS && Covers(bad, keys, hash)
    ensures r.Some? ==> Bijection(r.value, hash, keys) && forall key :: Findable(r.value, hash, key)
    ensures r.None? ==> Every(bad, 256)
  {
    for attempt := 0 to 256
      invariant Every(bad, attempt)
    {
      r := BuildWith(keys, hash, attempt, bad);
      if r.Some? { return r; }
    }
    return None;
  }

  function Buckets(n: nat): nat { (n + BUCKET_AVG - 1) / BUCKET_AVG }

  /** The `attempt`-th global seed leaves some bucket stuck. */
  ghost predicate Fails(keys: seq<u64>, hash: Hash, attempt: nat) {
    |keys| > 0 && Stuck(keys, hash, GlobalSeed(attempt), Buckets(|keys|))
  }

  /** The attempts that fail. */
  ghost function Failing(keys: seq<u64>, hash: Hash): set<nat> { set a: nat | a < 256 && Fails(keys, hash, a) }

  /** `bad` holds every attempt that fails. */
  ghost predicate Covers(bad: set<nat>, keys: seq<u64>, hash: Hash) {
    forall a: nat {:trigger Fails(keys, hash, a)} :: a < 256 && Fails(keys, hash, a) ==> a in bad
  }

  lemma {:induction false} FailingCovers(keys: seq<u64>, hash: Hash)
    ensures Covers(Failing(keys, hash), keys, hash)
    ensures |keys| == 1 ==> Failing(keys, hash) == {}
  {
    forall a: nat | |keys| == 1 && a < 256 ensures !Fails(keys, hash, a) { LoneSucceeds(keys, hash, a); }
  }

  /** All of the first `n` attempts. */
  predicate Every(bad: set<nat>, n: nat) { forall a: nat :: a < n ==> a in bad }

  lemma {:induction false} EveryIsSome(bad: set<nat>, n: nat)
    requires Every(bad, n) && n > 0
    ensures bad != {}
  {
    assert 0 in bad;
  }

  lemma {:induction false} LoneSucceeds(keys: seq<u64>, hash: Hash, attempt: nat)
    requires |keys| == 1
    ensures !Fails(keys, hash, attempt)
  {
    LoneNeverStuck(keys, hash, GlobalSeed(attempt));
  }

  /** One global seed, all the way to a table. */
  method BuildWith(keys: seq<u64>, hash: Hash, attempt: nat, ghost bad: set<nat>) returns (r: Option<Table>)
    requires 0 < |keys| <= BUCKET_AVG * MAX_ROWS && Covers(bad, keys, hash) && attempt < 256
    ensures r.Some? ==> Bijection(r.value, hash, keys) && forall key :: Findable(r.value, hash, key)
    ensures r.None? ==> attempt in bad
  {
    var gs, nb := GlobalSeed(attempt), Buckets(|keys|);
    var ok, seeds := TryGlobal(keys, hash, gs, nb);
    if !ok {
      assert Fails(keys, hash, attempt);
      return None;
    }
    var m := Finish(keys, hash, gs, nb, seeds);
    return Some(m);
  }

  method BuildNone(hash: Hash) returns (m: Table)
    ensures Bijection(m, hash, []) && forall key :: Findable(m, hash, key)
  {
    var empty := Pack([]);
    m := Table(empty, 1, 0, 0);
    EmptyIsBijection(m, hash);
  }

  /** The table of a global seed that worked out. */
  method Finish(keys: seq<u64>, hash: Hash, gs: u64, nb: nat, seeds: seq<u64>) returns (m: Table)
    requires 0 < |keys| && 0 < |seeds| == nb <= MAX_ROWS && Injective(KeySlots(keys, hash, gs, nb, seeds))
    ensures Bijection(m, hash, keys) && forall key :: Findable(m, hash, key)
  {
    var packed := Pack(seeds);
    m := Table(packed, nb, gs, |keys|);
    AllFindable(m, hash, seeds);
    SlotsAnswer(m, hash, keys, seeds);
    PlacedIsBijection(m, hash, keys, KeySlots(keys, hash, gs, nb, seeds));
  }

  /** A table that comes out proves the keys were distinct. */
  lemma {:induction false} BuiltMeansDistinct(m: Table, hash: Hash, keys: seq<u64>)
    requires Bijection(m, hash, keys)
    ensures forall i, j :: 0 <= i < j < |keys| ==> keys[i] != keys[j]
  {
    forall i, j | 0 <= i < j < |keys| ensures keys[i] != keys[j] {
      assert Lookup(m, hash, keys[i]) != Lookup(m, hash, keys[j]);
    }
  }
}
