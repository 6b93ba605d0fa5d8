/** The order-preserving string dictionary: distinct strings, sorted, in one
blob cut by 32-bit offsets; a row keeps a string's rank. */
module Dict {
  import opened Basics

  type Text = seq<byte>

  const U32: nat := 0x1_0000_0000
  const USIZE: nat := 0x1_0000_0000_0000_0000

  // ------------------------------------------------------------ the order of strings

  predicate Less(a: Text, b: Text) {
    if b == [] then false
    else a == [] || a[0] < b[0] || (a[0] == b[0] && Less(a[1..], b[1..]))
  }

  /** They part at position `n`: `a` ends there and `b` goes on, or `a` has the
  smaller byte. */
  predicate Parts(a: Text, b: Text, n: nat) {
    n < |b| && n <= |a| && a[..n] == b[..n] && (n == |a| || a[n] < b[n])
  }

  lemma {:induction false} PartsHead(a: Text, b: Text, n: nat)
    requires Parts(a, b, n) && n > 0
    ensures a != [] && b != [] && a[0] == b[0] && Parts(a[1..], b[1..], n - 1)
  {
    assert a[..n][0] == b[..n][0];
    assert a[1..][..n - 1] == a[..n][1..] && b[1..][..n - 1] == b[..n][1..];
  }

  lemma {:induction false} PartsCons(a: Text, b: Text, n: nat)
    requires a != [] && b != [] && a[0] == b[0] && Parts(a[1..], b[1..], n)
    ensures Parts(a, b, n + 1)
  {
    assert a[..n + 1] == [a[0]] + a[1..][..n];
    assert b[..n + 1] == [b[0]] + b[1..][..n];
  }

  /** The order is byte order: a proper prefix comes first, else the first
  difference decides. */
  lemma {:induction false} LessIff(a: Text, b: Text)
    ensures Less(a, b) <==> exists n: nat :: Parts(a, b, n)
    decreases |a|
  {
    forall n: nat | Parts(a, b, n) && n > 0 ensures a != [] && b != [] && a[0] == b[0] && Parts(a[1..], b[1..], n - 1) {
      PartsHead(a, b, n);
    }
    if a != [] && b != [] && a[0] == b[0] {
      LessIff(a[1..], b[1..]);
      if n: nat :| Parts(a[1..], b[1..], n) { PartsCons(a, b, n); }
    } else if Less(a, b) {
      assert Parts(a, b, 0);
    }
  }

  lemma {:induction false} LessTotal(a: Text, b: Text)
    ensures Less(a, b) || Less(b, a) || a == b
    decreases |a|
  {
    if a != [] && b != [] && a[0] == b[0] {
      LessTotal(a[1..], b[1..]);
      if a[1..] == b[1..] { assert a == [a[0]] + a[1..] && b == [b[0]] + b[1..]; }
    }
  }

  lemma {:induction false} LessIrreflexive(a: Text)
    ensures !Less(a, a)
  {
    if a != [] { LessIrreflexive(a[1..]); }
  }

  lemma {:induction false} LessTransitive(a: Text, b: Text, c: Text)
    requires Less(a, b) && Less(b, c)
    ensures Less(a, c)
  {
    if a != [] && a[0] == b[0] == c[0] { LessTransitive(a[1..], b[1..], c[1..]); }
  }

  predicate Ascending(ss: seq<Text>) { forall i, j :: 0 <= i < j < |ss| ==> Less(ss[i], ss[j]) }

  /** Ranks in an ascending list compare as the strings do. */
  lemma {:induction false} RankOrder(ss: seq<Text>, i: nat, j: nat)
    requires Ascending(ss) && i < |ss| && j < |ss|
    ensures i < j <==> Less(ss[i], ss[j])
    ensures i == j <==> ss[i] == ss[j]
  {
    LessIrreflexive(ss[i]);
    if j < i && Less(ss[i], ss[j]) { LessTransitive(ss[i], ss[j], ss[i]); }
  }

  // ---------------------------------------------------------------- the dictionary

  datatype Dict = Dict(blob: seq<byte>, offsets: seq<nat>)

  function Len(d: Dict): int { |d.offsets| - 1 }

  /** Decode a code.  `None` is a crash: the bound is tested after a wrapping
  add, and a slice whose ends are out of order or out of the blob is refused. */
  function Get(d: Dict, code: nat): Option<Text> {
    if (code + 1) % USIZE >= |d.offsets| then Some([])
    else if code + 1 >= |d.offsets| then None
    else if d.offsets[code] <= d.offsets[code + 1] <= |d.blob| then Some(d.blob[d.offsets[code]..d.offsets[code + 1]])
    else None
  }

  /** `d` decodes each rank of `ss` to its string. */
  predicate Spells(d: Dict, ss: seq<Text>) {
    Len(d) == |ss| && forall i :: 0 <= i < |ss| ==> Get(d, i) == Some(ss[i])
  }

  function Flat(ss: seq<Text>): Text { if ss == [] then [] else Flat(ss[..|ss| - 1]) + ss[|ss| - 1] }

  /** Cut points, kept to 32 bits. */
  predicate Cut(offsets: seq<nat>, ss: seq<Text>) {
    |offsets| == |ss| + 1 && forall i :: 0 <= i <= |ss| ==> offsets[i] == |Flat(ss[..i])| % U32
  }

  method FromSorted(ss: seq<Text>) returns (d: Dict)
    requires |ss| < USIZE - 1
    ensures d.blob == Flat(ss) && Cut(d.offsets, ss)
    ensures Spells(d, ss) <==> |Flat(ss)| < U32
  {
    var blob: seq<byte> := [];
    var offsets := [0];
    for i := 0 to |ss|
      invariant blob == Flat(ss[..i])
      invariant |offsets| == i + 1 && forall k :: 0 <= k <= i ==> offsets[k] == |Flat(ss[..k])| % U32
    {
      assert ss[..i + 1][..i] == ss[..i];
      blob := blob + ss[i];
      offsets := offsets + [|blob| % U32];
    }
    assert ss[..|ss|] == ss;
    d := Dict(blob, offsets);
    SpellsIff(d, ss);
  }

  lemma {:induction false} FlatNext(ss: seq<Text>, i: nat)
    requires i < |ss|
    ensures Flat(ss[..i + 1]) == Flat(ss[..i]) + ss[i]
  {
    assert ss[..i + 1][..i] == ss[..i];
  }

  lemma {:induction false} FlatPrefix(ss: seq<Text>, i: nat, j: nat)
    requires i <= j <= |ss|
    ensures Flat(ss[..i]) <= Flat(ss[..j])
    decreases j - i
  {
    if i < j {
      FlatPrefix(ss, i, j - 1);
      FlatNext(ss, j - 1);
    }
  }

  lemma {:induction false} EntryReads(d: Dict, ss: seq<Text>, i: nat)
    requires |ss| < USIZE - 1 && d.blob == Flat(ss) && Cut(d.offsets, ss) && i < |ss| && |Flat(ss)| < U32
    ensures Get(d, i) == Some(ss[i])
  {
    FlatNext(ss, i);
    FlatPrefix(ss, i, i + 1);
    FlatPrefix(ss, i + 1, |ss|);
    assert ss[..|ss|] == ss;
    var a, b := |Flat(ss[..i])|, |Flat(ss[..i + 1])|;
    assert d.offsets[i] == a && d.offsets[i + 1] == b;
    assert d.blob[a..b] == Flat(ss[..i + 1])[a..b];
    assert Flat(ss[..i + 1])[a..b] == ss[i];
  }

  /** Where the offset wraps, the slice is short or refused. */
  lemma {:induction false} EntryLost(d: Dict, ss: seq<Text>, i: nat)
    requires |ss| < USIZE - 1 && Cut(d.offsets, ss) && i < |ss|
    requires |Flat(ss[..i])| < U32 <= |Flat(ss[..i + 1])|
    ensures Get(d, i) != Some(ss[i])
  {
    FlatNext(ss, i);
    assert d.offsets[i] == |Flat(ss[..i])|;
    assert d.offsets[i + 1] < U32;
  }

  /** The dictionary is exact if and only if its bytes fit 32-bit offsets. */
  lemma {:induction false} SpellsIff(d: Dict, ss: seq<Text>)
    requires |ss| < USIZE - 1 && d.blob == Flat(ss) && Cut(d.offsets, ss)
    ensures Spells(d, ss) <==> |Flat(ss)| < U32
  {
    if |Flat(ss)| < U32 {
      forall i | 0 <= i < |ss| ensures Get(d, i) == Some(ss[i]) { EntryReads(d, ss, i); }
    } else {
      var i := Crossing(ss);
      EntryLost(d, ss, i);
    }
  }

  /** The first string whose end does not fit. */
  lemma {:induction false} Crossing(ss: seq<Text>) returns (i: nat)
    requires |Flat(ss)| >= U32
    ensures i < |ss| && |Flat(ss[..i])| < U32 <= |Flat(ss[..i + 1])|
    decreases |ss|
  {
    var n := |ss| - 1;
    assert ss[..n + 1] == ss;
    if |Flat(ss[..n])| < U32 {
      i := n;
    } else {
      i := Crossing(ss[..n]);
      assert ss[..n][..i] == ss[..i] && ss[..n][..i + 1] == ss[..i + 1];
    }
  }

  /** The bound check wraps: every out-of-range code decodes to the empty string
  except the largest, which crashes. */
  lemma {:induction false} OutOfRange(d: Dict, code: nat)
    requires |d.offsets| > 0 && Len(d) <= code < USIZE && |d.offsets| < USIZE
    ensures Get(d, code) == (if code == USIZE - 1 then None else Some([]))
  {
  }

  // --------------------------------------------------------------------- searching

  /** The code of `s`, if it has one. */
  method Lookup(d: Dict, s: Text, ghost ss: seq<Text>) returns (r: Option<nat>)
    requires Spells(d, ss) && Ascending(ss)
    ensures r.Some? ==> r.value < |ss| && ss[r.value] == s
    ensures r.None? <==> s !in ss
  {
    var lo, hi := 0, Len(d);
    while lo < hi
      invariant 0 <= lo <= hi <= |ss|
      invariant forall i :: 0 <= i < lo ==> Less(ss[i], s)
      invariant forall i :: hi <= i < |ss| ==> Less(s, ss[i])
    {
      var mid := lo + (hi - lo) / 2;
      var at := Get(d, mid).value;
      assert at == ss[mid];
      if Less(at, s) {
        forall i | 0 <= i < mid ensures Less(ss[i], s) { LessTransitive(ss[i], ss[mid], s); }
        lo := mid + 1;
      } else if Less(s, at) {
        forall i | mid < i < |ss| ensures Less(s, ss[i]) { LessTransitive(s, ss[mid], ss[i]); }
        hi := mid;
      } else {
        LessTotal(at, s);
        return Some(mid);
      }
    }
    LessIrreflexive(s);
    return None;
  }

  /** The first code whose string is not below `s`. */
  method LowerBound(d: Dict, s: Text, ghost ss: seq<Text>) returns (lo: nat)
    requires Spells(d, ss) && Ascending(ss)
    ensures lo <= |ss|
    ensures forall i :: 0 <= i < |ss| ==> (i < lo <==> Less(ss[i], s))
  {
    lo := 0;
    var hi := Len(d);
    while lo < hi
      invariant 0 <= lo <= hi <= |ss|
      invariant forall i :: 0 <= i < lo ==> Less(ss[i], s)
      invariant forall i :: hi <= i < |ss| ==> !Less(ss[i], s)
    {
      var mid := lo + (hi - lo) / 2;
      var at := Get(d, mid).value;
      assert at == ss[mid];
      if Less(at, s) {
        forall i | 0 <= i < mid ensures Less(ss[i], s) { LessTransitive(ss[i], ss[mid], s); }
        lo := mid + 1;
      } else {
        forall i | mid < i < |ss| ensures !Less(ss[i], s) {
          if Less(ss[i], s) { LessTransitive(ss[mid], ss[i], s); }
        }
        hi := mid;
      }
    }
  }

  // ---------------------------------------------------------------------- encoding

  /** Insert into an ascending list. */
  function Insert(ss: seq<Text>, s: Text): (r: seq<Text>)
    ensures |r| == |ss| + 1 && forall x :: x in r <==> x == s || x in ss
  {
    if ss == [] || Less(s, ss[0]) then [s] + ss else [ss[0]] + Insert(ss[1..], s)
  }

  lemma {:induction false} InsertAscends(ss: seq<Text>, s: Text)
    requires Ascending(ss) && s !in ss
    ensures Ascending(Insert(ss, s))
  {
    if ss == [] {
    } else if Less(s, ss[0]) {
      forall i | 1 <= i < |ss| ensures Less(s, ss[i]) { LessTransitive(s, ss[0], ss[i]); }
    } else {
      LessTotal(s, ss[0]);
      InsertAscends(ss[1..], s);
      var rest := Insert(ss[1..], s);
      forall i | 0 <= i < |rest| ensures Less(ss[0], rest[i]) {
        assert rest[i] in rest;
      }
    }
  }

  /** The distinct strings, sorted. */
  method Distinct(values: seq<Text>) returns (uniq: seq<Text>)
    ensures Ascending(uniq) && |uniq| <= |values| && forall s :: s in uniq <==> s in values
  {
    var seen: set<Text> := {};
    uniq := [];
    for i := 0 to |values|
      invariant Ascending(uniq) && |uniq| <= i
      invariant forall s :: s in seen <==> s in values[..i]
      invariant forall s :: s in uniq <==> s in values[..i]
    {
      assert values[..i + 1] == values[..i] + [values[i]];
      if values[i] !in seen {
        seen := seen + {values[i]};
        InsertAscends(uniq, values[i]);
        uniq := Insert(uniq, values[i]);
      }
    }
    assert values[..|values|] == values;
  }

  /** Each row's rank among the distinct strings. */
  predicate Ranked(codes: seq<nat>, values: seq<Text>, uniq: seq<Text>) {
    |codes| == |values| && forall i :: 0 <= i < |codes| ==> codes[i] < |uniq| && uniq[codes[i]] == values[i]
  }

  method Rank(values: seq<Text>, uniq: seq<Text>) returns (codes: seq<nat>)
    requires forall s :: s in values ==> s in uniq
    ensures Ranked(codes, values, uniq)
  {
    var index: map<Text, nat> := map[];
    for i := 0 to |uniq|
      invariant forall s :: s in index ==> index[s] < i && uniq[index[s]] == s
      invariant forall k :: 0 <= k < i ==> uniq[k] in index
    {
      index := index[uniq[i] := i];
    }
    codes := [];
    for i := 0 to |values|
      invariant |codes| == i && forall k :: 0 <= k < i ==> codes[k] < |uniq| && uniq[codes[k]] == values[k]
    {
      assert values[i] in uniq;
      codes := codes + [index[values[i]]];
    }
  }

  /** Codes compare exactly as the rows do. */
  lemma {:induction false} CodesOrder(codes: seq<nat>, values: seq<Text>, uniq: seq<Text>, i: nat, j: nat)
    requires Ascending(uniq) && Ranked(codes, values, uniq) && i < |codes| && j < |codes|
    ensures codes[i] < codes[j] <==> Less(values[i], values[j])
    ensures codes[i] == codes[j] <==> values[i] == values[j]
  {
    RankOrder(uniq, codes[i], codes[j]);
  }

  /** A dictionary and a code a row: codes are dense, compare as rows do, and
  each decodes to its row when the distinct bytes fit.  `uniq`, the distinct
  rows ascending, is the list a search of the dictionary searches. */
  method Encode(values: seq<Text>) returns (d: Dict, codes: seq<nat>, ghost uniq: seq<Text>)
    requires |values| < USIZE - 1
    ensures Ascending(uniq) && (forall s :: s in uniq <==> s in values) && Len(d) == |uniq|
    ensures |d.blob| < U32 <==> Spells(d, uniq)
    ensures |codes| == |values|
    ensures forall i :: 0 <= i < |codes| ==> codes[i] < Len(d)
    ensures forall c :: 0 <= c < Len(d) ==> c in codes
    ensures forall i, j :: 0 <= i < |codes| && 0 <= j < |codes| ==> (codes[i] < codes[j] <==> Less(values[i], values[j]))
    ensures |d.blob| < U32 ==> forall i :: 0 <= i < |codes| ==> Get(d, codes[i]) == Some(values[i])
  {
    var sorted := Distinct(values);
    uniq := sorted;
    d := FromSorted(sorted);
    codes := Rank(values, sorted);
    forall i, j | 0 <= i < |codes| && 0 <= j < |codes| ensures codes[i] < codes[j] <==> Less(values[i], values[j]) {
      CodesOrder(codes, values, sorted, i, j);
    }
    CodesDense(codes, values, sorted);
  }

  lemma {:induction false} CodesDense(codes: seq<nat>, values: seq<Text>, uniq: seq<Text>)
    requires Ascending(uniq) && Ranked(codes, values, uniq) && forall s :: s in uniq ==> s in values
    ensures forall c :: 0 <= c < |uniq| ==> c in codes
  {
    forall c | 0 <= c < |uniq| ensures c in codes {
      assert uniq[c] in values;
      var i :| 0 <= i < |values| && values[i] == uniq[c];
      RankOrder(uniq, codes[i], c);
    }
  }
}
