/** What a table holds, and what one log record does to it.

A keyed table is a map from key to row and is last-write-wins.  In an
unkeyed table, rows living in a part that has a file are
named by (part identity, position); rows of parts built since the last
checkpoint are `dark`, because no log record can name them. */
module Storage {
  type Key = nat
  datatype Id = Id(part: nat, pos: nat) // part identity, position inside the part
  datatype Row = Row(key: Key, val: int)

  datatype Contents =
    | Keyed(rows: map<Key, Row>)
    | Unkeyed(cited: map<Id, Row>, dark: multiset<Row>)

  /** The mutations a log record can describe. */
  datatype Op =
    | Insert(block: seq<Row>)
    | Delete(keys: set<Key>)
    | Mask(ids: set<Id>)

  /** Last write wins: a block is folded into the map in row order. */
  function Upsert(m: map<Key, Row>, block: seq<Row>): map<Key, Row>
    decreases |block|
  {
    if block == [] then m else Upsert(m[block[0].key := block[0]], block[1..])
  }

  function Apply(op: Op, c: Contents): Contents {
    match (op, c)
    case (Insert(b), Keyed(m)) => Keyed(Upsert(m, b))
    case (Insert(b), Unkeyed(cs, d)) => Unkeyed(cs, d + multiset(b))
    case (Delete(ks), Keyed(m)) => Keyed(m - ks)
    case (Mask(ids), Unkeyed(cs, d)) => Unkeyed(cs - ids, d)
    case _ => c
  }

  function ApplyAll(ops: seq<Op>, c: Contents): Contents
    decreases |ops|
  {
    if ops == [] then c else ApplyAll(ops[1..], Apply(ops[0], c))
  }

  ghost function Pick(m: map<Id, Row>): (k: Id)
    requires m != map[]
    ensures k in m
  {
    var k :| k in m; k
  }

  /** The multiset of rows a positional map holds. */
  ghost function RowsOf(m: map<Id, Row>): multiset<Row>
    decreases |m|
  {
    if m == map[] then multiset{} else
      var k := Pick(m);
      multiset{m[k]} + RowsOf(m - {k})
  }

  /** What a query can see: a keyed map, or a bag of rows. */
  datatype View = ByKey(m: map<Key, Row>) | Bag(rows: multiset<Row>)

  ghost function Logical(c: Contents): View {
    match c
    case Keyed(m) => ByKey(m)
    case Unkeyed(cs, d) => Bag(RowsOf(cs) + d)
  }

  /** The recovered contents `rec` stand for the in-memory contents `mem`: a
  query sees the same rows, and every row memory may still cite by position
  sits at that position in `rec`. */
  ghost predicate Agree(mem: Contents, rec: Contents) {
    && (mem.Keyed? <==> rec.Keyed?)
    && Logical(mem) == Logical(rec)
    && (mem.Unkeyed? ==>
          forall k :: k in mem.cited ==> k in rec.cited && rec.cited[k] == mem.cited[k])
  }

  /** A log record can describe `op` on `c`: a mask only cites rows that have a
  durable identity. */
  predicate Loggable(op: Op, c: Contents) {
    match op
    case Insert(_) => true
    case Delete(_) => c.Keyed?
    case Mask(ids) => c.Unkeyed? && ids <= c.cited.Keys
  }

  lemma {:induction false} MinusMinus(m: map<Id, Row>, a: set<Id>, b: set<Id>)
    ensures (m - a) - b == m - (a + b)
  {
    assert ((m - a) - b).Keys == m.Keys - (a + b);
  }

  lemma {:induction false} MinusNone(m: map<Id, Row>)
    ensures m - {} == m
  {
    assert (m - {}).Keys == m.Keys;
  }

  lemma {:induction false} RowsOfTake(m: map<Id, Row>, k: Id)
    requires k in m
    ensures RowsOf(m) == multiset{m[k]} + RowsOf(m - {k})
    decreases |m|
  {
    var j := Pick(m);
    if j != k {
      var mj, mk := m - {j}, m - {k};
      RowsOfTake(mj, k);
      RowsOfTake(mk, j);
      assert mj - {k} == mk - {j} by {
        MinusMinus(m, {j}, {k});
        MinusMinus(m, {k}, {j});
        assert {j} + {k} == {k} + {j};
      }
    }
  }

  /** Hiding the same positions keeps two bags of rows equal. */
  lemma {:induction false} MaskBoth(m: map<Id, Row>, md: multiset<Row>, n: map<Id, Row>, nd: multiset<Row>, ids: set<Id>)
    requires ids <= m.Keys && ids <= n.Keys
    requires forall k :: k in ids ==> m[k] == n[k]
    requires RowsOf(m) + md == RowsOf(n) + nd
    ensures RowsOf(m - ids) + md == RowsOf(n - ids) + nd
    decreases |ids|
  {
    if ids == {} {
      MinusNone(m);
      MinusNone(n);
    } else {
      var j :| j in ids;
      var rest := ids - {j};
      assert {j} + rest == ids;
      TakeBoth(m, md, n, nd, j);
      MinusMinus(m, {j}, rest);
      MinusMinus(n, {j}, rest);
      MaskBoth(m - {j}, md, n - {j}, nd, rest);
    }
  }

  lemma {:induction false} TakeBoth(m: map<Id, Row>, md: multiset<Row>, n: map<Id, Row>, nd: multiset<Row>, j: Id)
    requires j in m && j in n && m[j] == n[j]
    requires RowsOf(m) + md == RowsOf(n) + nd
    ensures RowsOf(m - {j}) + md == RowsOf(n - {j}) + nd
  {
    RowsOfTake(m, j);
    RowsOfTake(n, j);
    SameAfterTake(multiset{m[j]}, RowsOf(m - {j}), md, RowsOf(n - {j}), nd);
  }

  lemma {:induction false} SameAfterTake(x: multiset<Row>, a: multiset<Row>, b: multiset<Row>, c: multiset<Row>, d: multiset<Row>)
    requires x + a + b == x + c + d
    ensures a + b == c + d
  {
    forall r: Row ensures (a + b)[r] == (c + d)[r] {
      assert (x + a + b)[r] == (x + c + d)[r];
    }
  }

  /** A loggable record does the same thing to memory and to what recovery
  rebuilt, even when recovery grouped the unnamed rows differently. */
  lemma {:induction false} AgreeApply(op: Op, mem: Contents, rec: Contents)
    requires Agree(mem, rec) && Loggable(op, mem)
    ensures Agree(Apply(op, mem), Apply(op, rec))
  {
    if op.Insert? && mem.Unkeyed? {
      assert RowsOf(mem.cited) + (mem.dark + multiset(op.block))
          == RowsOf(mem.cited) + mem.dark + multiset(op.block);
      assert RowsOf(rec.cited) + (rec.dark + multiset(op.block))
          == RowsOf(rec.cited) + rec.dark + multiset(op.block);
    } else if op.Mask? {
      MaskBoth(mem.cited, mem.dark, rec.cited, rec.dark, op.ids);
    }
  }

  lemma {:induction false} ApplyAllAppend(a: seq<Op>, b: seq<Op>, c: Contents)
    ensures ApplyAll(a + b, c) == ApplyAll(b, ApplyAll(a, c))
    decreases |a|
  {
    if a == [] {
      assert a + b == b;
    } else {
      assert (a + b)[1..] == a[1..] + b;
      ApplyAllAppend(a[1..], b, Apply(a[0], c));
    }
  }
}
