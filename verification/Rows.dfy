/** What a mutation does, row by row: which rows a table holds afterwards, said
without saying how. */
module Rows {
  import opened Storage
  import opened Machine

  // ------------------------------------------------------------ what is said

  /** The last row of the block under its key. */
  predicate LastOf(block: seq<Row>, i: nat)
    requires i < |block|
  {
    forall j :: i < j < |block| ==> block[j].key != block[i].key
  }

  predicate Mentions(block: seq<Row>, k: Key) { exists i :: 0 <= i < |block| && block[i].key == k }

  /** `now` and `was` agree on whether there is a row under `k`, and which. */
  predicate Unchanged(was: map<Key, Row>, now: map<Key, Row>, k: Key) {
    (k in now <==> k in was) && (k in was ==> now[k] == was[k])
  }

  /** By key, each key of the block has its last row there and every other key
  what it had; without keys, the bag grows by exactly the block and no row loses
  its place. */
  ghost predicate Inserted(c: Contents, block: seq<Row>, now: Contents) {
    match c
    case Keyed(m) =>
      && now.Keyed?
      && (forall i :: 0 <= i < |block| && LastOf(block, i) ==> block[i].key in now.rows && now.rows[block[i].key] == block[i])
      && (forall k {:trigger Unchanged(m, now.rows, k)} :: !Mentions(block, k) ==> Unchanged(m, now.rows, k))
    case Unkeyed(cited, _) =>
      now.Unkeyed? && now.cited == cited && Logical(now).rows == Logical(c).rows + multiset(block)
  }

  /** Exactly the rows under `keys` are gone. */
  ghost predicate Deleted(c: Contents, keys: set<Key>, now: Contents) {
    && c.Keyed? && now.Keyed?
    && (forall k {:trigger Unchanged(c.rows, now.rows, k)} :: k !in keys ==> Unchanged(c.rows, now.rows, k))
    && (forall k :: k in keys ==> k !in now.rows)
  }

  function Those(m: map<Id, Row>, ids: set<Id>): map<Id, Row> { map k | k in m && k in ids :: m[k] }

  /** Exactly the rows at `ids` are gone, and what is left keeps its place. */
  ghost predicate Masked(c: Contents, ids: set<Id>, now: Contents) {
    && c.Unkeyed? && now.Unkeyed?
    && (forall k :: k in now.cited <==> k in c.cited && k !in ids)
    && (forall k :: k in now.cited ==> now.cited[k] == c.cited[k])
    && Logical(c).rows == Logical(now).rows + RowsOf(Those(c.cited, ids))
  }

  ghost predicate Does(op: Op, c: Contents, now: Contents) {
    match op
    case Insert(block) => Inserted(c, block, now)
    case Delete(keys) => Deleted(c, keys, now)
    case Mask(ids) => Masked(c, ids, now)
  }

  // ------------------------------------------------------------------ and is done

  function Where(m: map<Id, Row>, r: Row): set<Id> { set k | k in m && m[k] == r }

  /** A bag counts each row as often as some position holds it. */
  lemma {:induction false} RowsOfCounts(m: map<Id, Row>, r: Row)
    ensures RowsOf(m)[r] == |Where(m, r)|
    decreases |m|
  {
    if m != map[] {
      var j := Pick(m);
      RowsOfCounts(m - {j}, r);
      var less, all := Where(m - {j}, r), Where(m, r);
      if m[j] == r { assert all == less + {j}; } else { assert all == less; }
    } else {
      assert Where(m, r) == {};
    }
  }

  lemma {:induction false} MentionsTail(block: seq<Row>, k: Key)
    requires block != []
    ensures Mentions(block, k) <==> block[0].key == k || Mentions(block[1..], k)
  {
    if Mentions(block, k) && block[0].key != k {
      var i :| 0 <= i < |block| && block[i].key == k;
      assert block[1..][i - 1].key == k;
    }
    if Mentions(block[1..], k) {
      var i :| 0 <= i < |block[1..]| && block[1..][i].key == k;
      assert block[i + 1].key == k;
    }
  }

  lemma {:induction false} UpsertOthers(m: map<Key, Row>, block: seq<Row>, k: Key)
    requires !Mentions(block, k)
    ensures Unchanged(m, Upsert(m, block), k)
    decreases |block|
  {
    if block != [] {
      MentionsTail(block, k);
      UpsertOthers(m[block[0].key := block[0]], block[1..], k);
    }
  }

  lemma {:induction false} UpsertLast(m: map<Key, Row>, block: seq<Row>, i: nat)
    requires i < |block| && LastOf(block, i)
    ensures block[i].key in Upsert(m, block) && Upsert(m, block)[block[i].key] == block[i]
    decreases |block|
  {
    var more := m[block[0].key := block[0]];
    if i > 0 {
      assert forall j :: 0 <= j < |block[1..]| ==> block[1..][j] == block[j + 1];
      UpsertLast(more, block[1..], i - 1);
    } else {
      assert !Mentions(block[1..], block[0].key);
      UpsertOthers(more, block[1..], block[0].key);
    }
  }

  lemma {:induction false} CountSplit(m: map<Id, Row>, ids: set<Id>, r: Row)
    ensures RowsOf(m)[r] == RowsOf(m - ids)[r] + RowsOf(Those(m, ids))[r]
  {
    RowsOfCounts(m, r);
    RowsOfCounts(m - ids, r);
    RowsOfCounts(Those(m, ids), r);
    WhereSplit(m, ids, r);
    Disjoint(Where(m - ids, r), Where(Those(m, ids), r));
  }

  lemma {:induction false} WhereSplit(m: map<Id, Row>, ids: set<Id>, r: Row)
    ensures Where(m, r) == Where(m - ids, r) + Where(Those(m, ids), r)
    ensures Where(m - ids, r) !! Where(Those(m, ids), r)
  {
    forall k ensures k in Where(m, r) <==> k in Where(m - ids, r) || k in Where(Those(m, ids), r) {}
  }

  lemma {:induction false} Disjoint(a: set<Id>, b: set<Id>)
    requires a !! b
    ensures |a + b| == |a| + |b|
  {
  }

  lemma {:induction false} RowsOfSplit(m: map<Id, Row>, ids: set<Id>)
    ensures RowsOf(m) == RowsOf(m - ids) + RowsOf(Those(m, ids))
  {
    forall r: Row ensures RowsOf(m)[r] == (RowsOf(m - ids) + RowsOf(Those(m, ids)))[r] { CountSplit(m, ids, r); }
  }

  /** A record does what it says, to either kind of table. */
  lemma {:induction false} ApplyDoes(op: Op, c: Contents)
    requires Loggable(op, c)
    ensures Does(op, c, Apply(op, c))
  {
    match op
    case Insert(block) =>
      if c.Keyed? {
        forall i | 0 <= i < |block| && LastOf(block, i)
          ensures block[i].key in Upsert(c.rows, block) && Upsert(c.rows, block)[block[i].key] == block[i]
        {
          UpsertLast(c.rows, block, i);
        }
        forall k | !Mentions(block, k) ensures Unchanged(c.rows, Upsert(c.rows, block), k) { UpsertOthers(c.rows, block, k); }
      } else {
        assert RowsOf(c.cited) + (c.dark + multiset(block)) == RowsOf(c.cited) + c.dark + multiset(block);
      }
    case Delete(_) =>
    case Mask(ids) => MaskDoes(c, ids);
  }

  lemma {:induction false} Swap(a: multiset<Row>, b: multiset<Row>, x: multiset<Row>)
    ensures a + b + x == a + x + b
  {
  }

  lemma {:induction false} MaskDoes(c: Contents, ids: set<Id>)
    requires c.Unkeyed?
    ensures Masked(c, ids, Apply(Mask(ids), c))
  {
    RowsOfSplit(c.cited, ids);
    Swap(RowsOf(c.cited - ids), RowsOf(Those(c.cited, ids)), c.dark);
  }

  // ----------------------------------------------------------- and nothing else is

  lemma {:induction false} SameBag(m: map<Id, Row>, a: multiset<Row>, b: multiset<Row>)
    requires RowsOf(m) + a == RowsOf(m) + b
    ensures a == b
  {
    forall r: Row ensures a[r] == b[r] { assert (RowsOf(m) + a)[r] == (RowsOf(m) + b)[r]; }
  }

  lemma {:induction false} LastThere(block: seq<Row>, k: Key) returns (i: nat)
    requires Mentions(block, k)
    ensures i < |block| && block[i].key == k && LastOf(block, i)
    decreases |block|
  {
    i := |block| - 1;
    if block[i].key != k {
      var p := block[..i];
      var j :| 0 <= j < |block| && block[j].key == k;
      assert p[j].key == k;
      var n := i;
      i := LastThere(p, k);
      forall q | i < q < |block| ensures block[q].key != block[i].key { if q < n { assert p[q] == block[q]; } }
    }
  }

  /** What is said settles the whole table. */
  lemma {:induction false} DoesOnce(op: Op, c: Contents, a: Contents, b: Contents)
    requires Does(op, c, a) && Does(op, c, b)
    ensures a == b
  {
    match op
    case Insert(block) =>
      if c.Keyed? { InsertedOnce(c, block, a, b); } else {
        BagMinus(Logical(a).rows, Logical(b).rows, multiset{});
        SameBag(c.cited, a.dark, b.dark);
      }
    case Delete(keys) =>
      forall k ensures Unchanged(a.rows, b.rows, k) {
        if k !in keys { assert Unchanged(c.rows, a.rows, k) && Unchanged(c.rows, b.rows, k); }
      }
      SameMap(a.rows, b.rows);
    case Mask(ids) =>
      assert a.cited == b.cited;
      BagMinus(Logical(a).rows, Logical(b).rows, RowsOf(Those(c.cited, ids)));
      SameBag(a.cited, a.dark, b.dark);
  }

  lemma {:induction false} BagMinus(a: multiset<Row>, b: multiset<Row>, x: multiset<Row>)
    requires a + x == b + x
    ensures a == b
  {
    forall r: Row ensures a[r] == b[r] { assert (a + x)[r] == (b + x)[r]; }
  }

  lemma {:induction false} SameMap(a: map<Key, Row>, b: map<Key, Row>)
    requires forall k {:trigger Unchanged(a, b, k)} :: Unchanged(a, b, k)
    ensures a == b
  {
    forall k ensures k in a <==> k in b { assert Unchanged(a, b, k); }
    forall k | k in a ensures a[k] == b[k] { assert Unchanged(a, b, k); }
  }

  lemma {:induction false} InsertedOnce(c: Contents, block: seq<Row>, a: Contents, b: Contents)
    requires c.Keyed? && Inserted(c, block, a) && Inserted(c, block, b)
    ensures a == b
  {
    forall k ensures Unchanged(a.rows, b.rows, k) {
      if Mentions(block, k) {
        var i := LastThere(block, k);
      } else {
        assert Unchanged(c.rows, a.rows, k) && Unchanged(c.rows, b.rows, k);
      }
    }
    SameMap(a.rows, b.rows);
  }

  // ------------------------------------------------------------------ losing no row

  /** Inserting the block loses no row: none it replaces, none it repeats. */
  predicate LosesNone(c: Contents, block: seq<Row>) {
    c.Keyed? ==> |Upsert(c.rows, block)| == |c.rows| + |block|
  }

  /** Every old row stands, every row of the block is there, and nothing else. */
  predicate AllThere(c: Contents, block: seq<Row>, now: Contents) {
    c.Keyed? ==>
      && now.Keyed? && |now.rows| == |c.rows| + |block|
      && (forall k :: k in c.rows ==> k in now.rows && now.rows[k] == c.rows[k])
      && (forall i :: 0 <= i < |block| ==> block[i].key in now.rows && now.rows[block[i].key] == block[i])
  }

  lemma {:induction false} UpsertGrows(m: map<Key, Row>, block: seq<Row>)
    ensures |Upsert(m, block)| <= |m| + |block|
    decreases |block|
  {
    if block != [] { UpsertGrows(m[block[0].key := block[0]], block[1..]); }
  }

  lemma {:induction false} FreshTail(m: map<Key, Row>, block: seq<Row>)
    requires block != []
    ensures KeysFresh(Keyed(m), block) <==>
      block[0].key !in m && KeysFresh(Keyed(m[block[0].key := block[0]]), block[1..])
  {
    var b, more, rest := block[0], m[block[0].key := block[0]], block[1..];
    if KeysFresh(Keyed(m), block) {
      forall i | 0 <= i < |rest| ensures rest[i].key !in more { assert rest[i] == block[i + 1]; }
      forall i, j | 0 <= i < j < |rest| ensures rest[i].key != rest[j].key {
        assert rest[i] == block[i + 1] && rest[j] == block[j + 1];
      }
    }
    if b.key !in m && KeysFresh(Keyed(more), rest) {
      forall i | 0 <= i < |block| ensures block[i].key !in m { if i > 0 { assert block[i] == rest[i - 1]; } }
      forall i, j | 0 <= i < j < |block| ensures block[i].key != block[j].key {
        assert block[j] == rest[j - 1];
        if i > 0 { assert block[i] == rest[i - 1]; }
      }
    }
  }

  /** The key check accepts a block exactly when inserting it loses no row. */
  lemma {:induction false} FreshIff(c: Contents, block: seq<Row>)
    ensures KeysFresh(c, block) <==> LosesNone(c, block)
  {
    if c.Keyed? { FreshCount(c.rows, block); }
  }

  lemma {:induction false} FreshCount(m: map<Key, Row>, block: seq<Row>)
    ensures KeysFresh(Keyed(m), block) <==> |Upsert(m, block)| == |m| + |block|
    decreases |block|
  {
    if block != [] {
      var more := m[block[0].key := block[0]];
      FreshTail(m, block);
      FreshCount(more, block[1..]);
      UpsertGrows(more, block[1..]);
      if block[0].key in m { assert more.Keys == m.Keys && |more.Keys| == |more| && |m.Keys| == |m|; }
    }
  }

  lemma {:induction false} FreshAllThere(c: Contents, block: seq<Row>)
    requires KeysFresh(c, block)
    ensures AllThere(c, block, Apply(Insert(block), c))
  {
    if c.Keyed? {
      FreshIff(c, block);
      forall k | k in c.rows ensures Unchanged(c.rows, Upsert(c.rows, block), k) { UpsertOthers(c.rows, block, k); }
      forall i | 0 <= i < |block| ensures LastOf(block, i) {}
      ApplyDoes(Insert(block), c);
    }
  }
}
