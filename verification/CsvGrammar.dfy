/** Which texts are records, said without scanning: fields, delimiters between
them and one of four ends. */
module CsvGrammar {
  import opened Basics
  import opened Scanning
  import opened Csv

  // ---------------------------------------------------------------- record texts

  /** Every quote doubled. */
  function Doubled(s: seq<byte>): seq<byte> {
    if s == [] then [] else (if s[0] == QUOTE then [QUOTE, QUOTE] else [s[0]]) + Doubled(s[1..])
  }

  /** Text that may stand without quotes. */
  predicate Bare(x: seq<byte>, delim: byte) {
    (forall i :: 0 <= i < |x| ==> x[i] != delim && x[i] != LF) && (x != [] ==> x[0] != QUOTE)
  }

  /** `x` is a way to write field `f`. */
  predicate Spelled(x: seq<byte>, f: Field, delim: byte) {
    if f.quoted then x == [QUOTE] + Doubled(f.text) + [QUOTE] else x == f.text && Bare(x, delim)
  }

  predicate AllSpelled(xs: seq<seq<byte>>, fields: seq<Field>, delim: byte) {
    |xs| == |fields| && forall i :: 0 <= i < |xs| ==> Spelled(xs[i], fields[i], delim)
  }

  /** How a record ends: a line feed, a CR and a line feed, the end of the input,
  or a last CR there. */
  datatype End = Lf | CrLf | Eof | CrEof

  function EndText(end: End): seq<byte> {
    match end
    case Lf => [LF]
    case CrLf => [CR, LF]
    case Eof => []
    case CrEof => [CR]
  }

  /** A CR before the line feed belongs to the end, never to a bare field; a CR at
  the end of the input belongs to the end only after a quote; and nothing
  follows the end of the input. */
  predicate Fits(end: End, last: Field, atEnd: bool) {
    match end
    case Lf => last.quoted || last.text == [] || last.text[|last.text| - 1] != CR
    case CrLf => true
    case Eof => atEnd
    case CrEof => atEnd && last.quoted
  }

  /** The texts from `c` on, a delimiter before each but the first, and the end. */
  function Joined(xs: seq<seq<byte>>, c: nat, delim: byte, end: seq<byte>): seq<byte>
    requires c <= |xs|
    decreases |xs| - c
  {
    if c == |xs| then end else (if c > 0 then [delim] else []) + xs[c] + Joined(xs, c + 1, delim, end)
  }

  /** The first `used` bytes of `b` are these fields, written this way. */
  predicate IsRecord(b: seq<byte>, eof: bool, delim: byte, xs: seq<seq<byte>>, fields: seq<Field>, end: End, used: nat) {
    && used <= |b| && |xs| > 0 && AllSpelled(xs, fields, delim)
    && b[..used] == Joined(xs, 0, delim, EndText(end))
    && Fits(end, fields[|fields| - 1], eof && used == |b|)
  }

  /** The separators are three different bytes. */
  predicate Dialect(delim: byte) { delim != QUOTE && delim != LF && delim != CR }

  // ------------------------------------------------------------------ text in place

  /** `b` holds `x` at `i`. */
  predicate Holds(b: seq<byte>, i: nat, x: seq<byte>) { i + |x| <= |b| && b[i..i + |x|] == x }

  lemma {:induction false} HoldsParts(b: seq<byte>, i: nat, x: seq<byte>, y: seq<byte>)
    requires Holds(b, i, x + y)
    ensures Holds(b, i, x) && Holds(b, i + |x|, y)
  {
    assert b[i..i + |x|] == (x + y)[..|x|];
    assert b[i + |x|..i + |x| + |y|] == (x + y)[|x|..];
  }

  lemma {:induction false} HoldsBoth(b: seq<byte>, i: nat, x: seq<byte>, y: seq<byte>)
    requires Holds(b, i, x) && Holds(b, i + |x|, y)
    ensures Holds(b, i, x + y)
  {
    assert b[i..i + |x| + |y|] == b[i..i + |x|] + b[i + |x|..i + |x| + |y|];
  }

  lemma {:induction false} HoldsByte(b: seq<byte>, i: nat, c: byte)
    requires Holds(b, i, [c])
    ensures i < |b| && b[i] == c
  {
    assert b[i..i + 1][0] == c;
  }

  // -------------------------------------------------------------- one field, read

  /** Doubled text, a quote and no second quote: the body of a quoted field that
  reads as the text. */
  lemma {:induction false} BodyReads(b: seq<byte>, i: nat, s: seq<byte>, acc: seq<byte>)
    requires Holds(b, i, Doubled(s))
    requires var q := i + |Doubled(s)|; q < |b| && b[q] == QUOTE && (q + 1 < |b| ==> b[q + 1] != QUOTE)
    ensures var q := i + |Doubled(s)|;
      Quoted(b, i, acc) == if q + 1 < |b| then Closed(acc + s, q) else Edge(acc + s, q)
    decreases |s|
  {
    if s == [] {
      assert acc + s == acc;
    } else {
      var head := if s[0] == QUOTE then [QUOTE, QUOTE] else [s[0]];
      HoldsParts(b, i, head, Doubled(s[1..]));
      assert b[i..i + |head|] == head;
      assert b[i] == head[0] && b[i + |head| - 1] == head[|head| - 1];
      BodyReads(b, i + |head|, s[1..], acc + [s[0]]);
      Reassemble(acc, s);
    }
  }

  lemma {:induction false} Reassemble(acc: seq<byte>, s: seq<byte>)
    requires s != []
    ensures acc + [s[0]] + s[1..] == acc + s
  {
  }

  /** A quoted cell's place: its opening quote, its doubled text, its closing one. */
  lemma {:induction false} QuotedPlace(b: seq<byte>, i: nat, d: seq<byte>)
    requires Holds(b, i, [QUOTE] + d + [QUOTE])
    ensures i + 1 + |d| < |b| && b[i] == QUOTE && Holds(b, i + 1, d) && b[i + 1 + |d|] == QUOTE
  {
    assert [QUOTE] + d + [QUOTE] == [QUOTE] + (d + [QUOTE]);
    HoldsParts(b, i, [QUOTE], d + [QUOTE]);
    HoldsParts(b, i + 1, d, [QUOTE]);
    HoldsByte(b, i, QUOTE);
    HoldsByte(b, i + 1 + |d|, QUOTE);
  }

  /** After a closing quote comes a byte that is not one, or the known end. */
  predicate Shut(b: seq<byte>, i: nat, eof: bool) { if i < |b| then b[i] != QUOTE else i == |b| && eof }

  lemma {:induction false} QuotedReads(b: seq<byte>, i: nat, s: seq<byte>, d: seq<byte>, eof: bool, delim: byte, acc: seq<Field>)
    requires d == Doubled(s)
    requires var x := [QUOTE] + d + [QUOTE]; Holds(b, i, x) && Shut(b, i + |x|, eof)
    ensures RecordFrom(b, i, eof, delim, acc) == After(b, i + |d| + 2, eof, delim, acc + [Field(s, true)])
  {
    QuotedPlace(b, i, d);
    BodyReads(b, i + 1, s, []);
    assert [] + s == s;
  }

  lemma {:induction false} HoldsAt(b: seq<byte>, i: nat, x: seq<byte>)
    requires Holds(b, i, x)
    ensures forall j :: i <= j < i + |x| ==> b[j] == x[j - i]
  {
    forall j | i <= j < i + |x| ensures b[j] == x[j - i] { assert b[i..i + |x|][j - i] == b[j]; }
  }

  /** A bare field before a delimiter. */
  lemma {:induction false} BareReads(b: seq<byte>, i: nat, x: seq<byte>, eof: bool, delim: byte, acc: seq<Field>)
    requires Dialect(delim) && Bare(x, delim) && Holds(b, i, x) && i + |x| < |b| && b[i + |x|] == delim
    ensures RecordFrom(b, i, eof, delim, acc) == After(b, i + |x|, eof, delim, acc + [Field(x, false)])
  {
    HoldsAt(b, i, x);
    FirstOfIs(b, i, delim, LF, i + |x|);
  }

  /** A field and the delimiter after it. */
  lemma {:induction false} FieldReads(b: seq<byte>, i: nat, x: seq<byte>, f: Field, eof: bool, delim: byte, acc: seq<Field>)
    requires Dialect(delim) && Spelled(x, f, delim) && Holds(b, i, x) && i + |x| < |b| && b[i + |x|] == delim
    ensures RecordFrom(b, i, eof, delim, acc) == RecordFrom(b, i + |x| + 1, eof, delim, acc + [f])
  {
    if f.quoted {
      QuotedReads(b, i, f.text, Doubled(f.text), eof, delim, acc);
    } else {
      BareReads(b, i, x, eof, delim, acc);
    }
  }

  /** A last bare field and the record's end. */
  lemma {:induction false} BareEnds(b: seq<byte>, i: nat, x: seq<byte>, end: End, eof: bool, delim: byte, acc: seq<Field>)
    requires Dialect(delim) && Bare(x, delim) && Holds(b, i, x) && Holds(b, i + |x|, EndText(end))
    requires Fits(end, Field(x, false), eof && i + |x| + |EndText(end)| == |b|)
    ensures RecordFrom(b, i, eof, delim, acc) == Row(acc + [Field(x, false)], i + |x| + |EndText(end)|)
  {
    HoldsAt(b, i, x);
    HoldsAt(b, i + |x|, EndText(end));
    var e := if end == CrLf then i + |x| + 1 else i + |x|;
    FirstOfIs(b, i, delim, LF, e);
    assert b[i..i + |x|] == x;
  }

  lemma {:induction false} QuotedEnds(b: seq<byte>, i: nat, f: Field, x: seq<byte>, end: End, eof: bool, delim: byte, acc: seq<Field>)
    requires Dialect(delim) && f.quoted && Spelled(x, f, delim) && Holds(b, i, x) && Holds(b, i + |x|, EndText(end))
    requires Fits(end, f, eof && i + |x| + |EndText(end)| == |b|)
    ensures RecordFrom(b, i, eof, delim, acc) == Row(acc + [f], i + |x| + |EndText(end)|)
  {
    HoldsAt(b, i + |x|, EndText(end));
    QuotedReads(b, i, f.text, Doubled(f.text), eof, delim, acc);
  }

  // ---------------------------------------------------------------- a whole record

  lemma {:induction false} ThreeParts(b: seq<byte>, i: nat, x: seq<byte>, c: byte, y: seq<byte>)
    requires Holds(b, i, x + ([c] + y))
    ensures Holds(b, i, x) && i + |x| < |b| && b[i + |x|] == c && Holds(b, i + |x| + 1, y)
  {
    HoldsParts(b, i, x, [c] + y);
    HoldsParts(b, i + |x|, [c], y);
    HoldsByte(b, i + |x|, c);
  }

  lemma {:induction false} JoinedShift(x: seq<byte>, xs: seq<seq<byte>>, c: nat, delim: byte, end: seq<byte>)
    requires 0 < c <= |xs|
    ensures Joined([x] + xs, c + 1, delim, end) == Joined(xs, c, delim, end)
    decreases |xs| - c
  {
    if c < |xs| { JoinedShift(x, xs, c + 1, delim, end); }
  }

  lemma {:induction false} JoinedCons(x: seq<byte>, xs: seq<seq<byte>>, delim: byte, end: seq<byte>)
    requires |xs| > 0
    ensures Joined([x] + xs, 0, delim, end) == x + ([delim] + Joined(xs, 0, delim, end))
  {
    var all := [x] + xs;
    JoinedShift(x, xs, 1, delim, end);
    assert Joined(all, 1, delim, end) == [delim] + xs[0] + Joined(xs, 1, delim, end);
    assert [delim] + xs[0] + Joined(xs, 1, delim, end) == [delim] + Joined(xs, 0, delim, end);
    assert Joined(all, 0, delim, end) == [] + all[0] + Joined(all, 1, delim, end);
  }

  /** A record text is a lead, the last field and the end. */
  lemma {:induction false} JoinedIsLead(xs: seq<seq<byte>>, delim: byte, end: seq<byte>)
    requires |xs| > 0
    ensures Joined(xs, 0, delim, end) == Lead(xs[..|xs| - 1], delim) + (xs[|xs| - 1] + end)
    decreases |xs|
  {
    var n := |xs| - 1;
    if n == 0 {
      assert Joined(xs, 0, delim, end) == [] + xs[0] + end;
      assert Lead(xs[..n], delim) == [];
    } else {
      var x, rest := xs[0], xs[1..];
      assert xs == [x] + rest;
      JoinedCons(x, rest, delim, end);
      JoinedIsLead(rest, delim, end);
      assert xs[..n][0] == x && xs[..n][1..] == rest[..n - 1] && rest[n - 1] == xs[n];
      Nest(x, [delim], Lead(rest[..n - 1], delim), xs[n] + end);
    }
  }

  lemma {:induction false} Nest(a: seq<byte>, c: seq<byte>, x: seq<byte>, y: seq<byte>)
    ensures a + (c + (x + y)) == (a + (c + x)) + y
  {
  }

  /** Fields, a delimiter after each. */
  function Lead(xs: seq<seq<byte>>, delim: byte): seq<byte> {
    if xs == [] then [] else xs[0] + ([delim] + Lead(xs[1..], delim))
  }

  /** Reading from `i` comes to `o`. */
  predicate Gives(b: seq<byte>, i: nat, acc: seq<Field>, eof: bool, delim: byte, o: Outcome) {
    i <= |b| && RecordFrom(b, i, eof, delim, acc) == o
  }

  /** Reading from `i` is reading from `j` with these fields already read. */
  ghost predicate LeadsTo(b: seq<byte>, i: nat, acc: seq<Field>, j: nat, more: seq<Field>, eof: bool, delim: byte) {
    forall o {:trigger Gives(b, j, more, eof, delim, o)} :: Gives(b, j, more, eof, delim, o) ==> Gives(b, i, acc, eof, delim, o)
  }

  lemma {:induction false} LeadsFurther(b: seq<byte>, i: nat, a: seq<Field>, j: nat, c: seq<Field>, k: nat, d: seq<Field>, eof: bool, delim: byte)
    requires LeadsTo(b, i, a, j, c, eof, delim) && LeadsTo(b, j, c, k, d, eof, delim)
    ensures LeadsTo(b, i, a, k, d, eof, delim)
  {
  }

  lemma {:induction false} LeadParts(b: seq<byte>, i: nat, xs: seq<seq<byte>>, fields: seq<Field>, delim: byte)
    requires xs != [] && AllSpelled(xs, fields, delim) && Holds(b, i, Lead(xs, delim))
    ensures Spelled(xs[0], fields[0], delim) && AllSpelled(xs[1..], fields[1..], delim)
    ensures Holds(b, i, xs[0]) && i + |xs[0]| < |b| && b[i + |xs[0]|] == delim && Holds(b, i + |xs[0]| + 1, Lead(xs[1..], delim))
    ensures |Lead(xs, delim)| == |xs[0]| + 1 + |Lead(xs[1..], delim)|
  {
    ThreeParts(b, i, xs[0], delim, Lead(xs[1..], delim));
  }

  lemma {:induction false} LeadHead(b: seq<byte>, i: nat, x: seq<byte>, f: Field, eof: bool, delim: byte, acc: seq<Field>)
    requires Dialect(delim) && Spelled(x, f, delim) && Holds(b, i, x) && i + |x| < |b| && b[i + |x|] == delim
    ensures LeadsTo(b, i, acc, i + |x| + 1, acc + [f], eof, delim)
  {
    FieldReads(b, i, x, f, eof, delim, acc);
  }

  /** The fields of a lead are read one by one. */
  lemma {:induction false} LeadReads(b: seq<byte>, i: nat, xs: seq<seq<byte>>, fields: seq<Field>, k: nat, all: seq<Field>,
                                     eof: bool, delim: byte, acc: seq<Field>)
    requires Dialect(delim) && AllSpelled(xs, fields, delim) && Holds(b, i, Lead(xs, delim))
    requires k == i + |Lead(xs, delim)| && all == acc + fields
    ensures LeadsTo(b, i, acc, k, all, eof, delim)
    decreases |xs|
  {
    if xs == [] {
      assert all == acc;
    } else {
      var j, more := i + |xs[0]| + 1, acc + [fields[0]];
      LeadParts(b, i, xs, fields, delim);
      LeadHead(b, i, xs[0], fields[0], eof, delim, acc);
      assert all == more + fields[1..];
      LeadReads(b, j, xs[1..], fields[1..], k, all, eof, delim, more);
      LeadsFurther(b, i, acc, j, more, k, all, eof, delim);
    }
  }

  /** From a field's start at `i` the record comes to these fields and ends at `e`. */
  predicate Comes(b: seq<byte>, i: nat, eof: bool, delim: byte, acc: seq<Field>, fields: seq<Field>, e: nat) {
    i <= |b| && RecordFrom(b, i, eof, delim, acc) == Row(acc + fields, e)
  }

  lemma {:induction false} LastReads(b: seq<byte>, i: nat, x: seq<byte>, f: Field, end: End, eof: bool, delim: byte, acc: seq<Field>)
    requires Dialect(delim) && Spelled(x, f, delim) && Holds(b, i, x + EndText(end))
    requires Fits(end, f, eof && i + |x| + |EndText(end)| == |b|)
    ensures Comes(b, i, eof, delim, acc, [f], i + |x| + |EndText(end)|)
  {
    HoldsParts(b, i, x, EndText(end));
    if f.quoted { QuotedEnds(b, i, f, x, end, eof, delim, acc); } else { BareEnds(b, i, x, end, eof, delim, acc); }
  }

  /** Every record text, whatever follows it, is read as its fields and used
  whole. */
  lemma {:induction false} TextReads(b: seq<byte>, eof: bool, delim: byte, xs: seq<seq<byte>>, fields: seq<Field>, end: End, used: nat)
    requires Dialect(delim) && IsRecord(b, eof, delim, xs, fields, end, used)
    ensures Record(b, eof, delim) == Row(fields, used)
  {
    var n := |xs| - 1;
    var lead := Lead(xs[..n], delim);
    TextParts(b, eof, delim, xs, fields, end, used);
    assert [] + fields[..n] == fields[..n];
    LeadReads(b, 0, xs[..n], fields[..n], |lead|, fields[..n], eof, delim, []);
    LastGives(b, |lead|, xs[n], fields, end, eof, delim, used);
    assert Gives(b, 0, [], eof, delim, Row(fields, used));
  }

  lemma {:induction false} TextParts(b: seq<byte>, eof: bool, delim: byte, xs: seq<seq<byte>>, fields: seq<Field>, end: End, used: nat)
    requires IsRecord(b, eof, delim, xs, fields, end, used)
    ensures var n := |xs| - 1; var lead := Lead(xs[..n], delim);
      && Holds(b, 0, lead) && Holds(b, |lead|, xs[n] + EndText(end)) && used == |lead| + |xs[n]| + |EndText(end)|
      && AllSpelled(xs[..n], fields[..n], delim) && Spelled(xs[n], fields[n], delim)
  {
    var n := |xs| - 1;
    JoinedIsLead(xs, delim, EndText(end));
    assert Holds(b, 0, Joined(xs, 0, delim, EndText(end)));
    HoldsParts(b, 0, Lead(xs[..n], delim), xs[n] + EndText(end));
  }

  lemma {:induction false} LastGives(b: seq<byte>, i: nat, x: seq<byte>, fields: seq<Field>, end: End, eof: bool, delim: byte, used: nat)
    requires Dialect(delim) && fields != [] && Spelled(x, fields[|fields| - 1], delim) && Holds(b, i, x + EndText(end))
    requires used == i + |x| + |EndText(end)| && Fits(end, fields[|fields| - 1], eof && used == |b|)
    ensures Gives(b, i, fields[..|fields| - 1], eof, delim, Row(fields, used))
  {
    var n := |fields| - 1;
    LastReads(b, i, x, fields[n], end, eof, delim, fields[..n]);
    assert fields[..n] + [fields[n]] == fields;
  }

  // ------------------------------------------------------- and nothing else is read

  lemma {:induction false} QuotedSpelled(b: seq<byte>, j: nat, acc: seq<byte>) returns (t: seq<byte>)
    requires j <= |b| && !Quoted(b, j, acc).Open?
    ensures Quoted(b, j, acc).text == acc + t && Holds(b, j, Doubled(t)) && Quoted(b, j, acc).at == j + |Doubled(t)|
    decreases |b| - j
  {
    if b[j] == QUOTE && (j + 1 == |b| || b[j + 1] != QUOTE) {
      t := [];
      assert acc + t == acc;
    } else {
      var n := if b[j] == QUOTE then 2 else 1;
      t := QuotedSpelled(b, j + n, acc + [b[j]]);
      DoubledHead(b, j, n, t);
      assert acc + [b[j]] + t == acc + ([b[j]] + t);
      t := [b[j]] + t;
    }
  }

  lemma {:induction false} DoubledHead(b: seq<byte>, j: nat, n: nat, t: seq<byte>)
    requires j < |b| && j + n <= |b| && n == (if b[j] == QUOTE then 2 else 1) && (n == 2 ==> b[j + 1] == QUOTE)
    requires Holds(b, j + n, Doubled(t))
    ensures Holds(b, j, Doubled([b[j]] + t)) && |Doubled([b[j]] + t)| == n + |Doubled(t)|
  {
    var head := if b[j] == QUOTE then [QUOTE, QUOTE] else [b[j]];
    assert ([b[j]] + t)[1..] == t;
    assert b[j..j + n] == head;
    HoldsBoth(b, j, head, Doubled(t));
  }

  /** A field's place and text: before a delimiter it leads on to the next field,
  else the record ends there. */
  predicate FieldPlace(b: seq<byte>, i: nat, x: seq<byte>, f: Field, end: Option<End>, eof: bool, delim: byte, acc: seq<Field>) {
    && Spelled(x, f, delim) && Holds(b, i, x)
    && match end
       case None =>
         && i + |x| < |b| && b[i + |x|] == delim
         && RecordFrom(b, i, eof, delim, acc) == RecordFrom(b, i + |x| + 1, eof, delim, acc + [f])
       case Some(e) =>
         && Holds(b, i + |x|, EndText(e)) && Fits(e, f, eof && i + |x| + |EndText(e)| == |b|)
         && RecordFrom(b, i, eof, delim, acc) == Row(acc + [f], i + |x| + |EndText(e)|)
  }

  /** The bare field at `i` and what ends it. */
  lemma {:induction false} BareText(b: seq<byte>, i: nat, delim: byte) returns (x: seq<byte>, end: Option<End>)
    requires Dialect(delim) && i <= |b| && !(i < |b| && b[i] == QUOTE)
    ensures var e := FirstOf(b, i, delim, LF);
      && x == b[i..Trimmed(b, i, e)] && Bare(x, delim) && Holds(b, i, x)
      && match end
         case None => e == i + |x| < |b| && b[e] == delim
         case Some(u) =>
           && Holds(b, i + |x|, EndText(u)) && Fits(u, Field(x, false), e == |b|)
           && i + |x| + |EndText(u)| == (if e == |b| then e else e + 1) && (e < |b| ==> b[e] != delim)
  {
    var e := FirstOf(b, i, delim, LF);
    var t := Trimmed(b, i, e);
    x := b[i..t];
    end := if e == |b| then Some(Eof) else if b[e] == delim then None else if t < e then Some(CrLf) else Some(Lf);
    if t < e { assert b[t..t + 2] == [CR, LF]; } else if end == Some(Lf) { assert b[t..t + 1] == [LF]; }
  }

  lemma {:induction false} BarePlace(b: seq<byte>, i: nat, eof: bool, delim: byte, acc: seq<Field>)
      returns (x: seq<byte>, f: Field, end: Option<End>)
    requires Dialect(delim) && i <= |b| && !(i < |b| && b[i] == QUOTE) && RecordFrom(b, i, eof, delim, acc).Row?
    ensures FieldPlace(b, i, x, f, end, eof, delim, acc)
  {
    x, end := BareText(b, i, delim);
    f := Field(x, false);
    BareGoes(b, i, eof, delim, acc);
  }

  lemma {:induction false} BareGoes(b: seq<byte>, i: nat, eof: bool, delim: byte, acc: seq<Field>)
    requires Dialect(delim) && i <= |b| && !(i < |b| && b[i] == QUOTE) && RecordFrom(b, i, eof, delim, acc).Row?
    ensures var e := FirstOf(b, i, delim, LF); var more := acc + [Field(b[i..Trimmed(b, i, e)], false)];
      RecordFrom(b, i, eof, delim, acc) ==
        if e == |b| then Row(more, e) else if b[e] == delim then RecordFrom(b, e + 1, eof, delim, more) else Row(more, e + 1)
    ensures FirstOf(b, i, delim, LF) == |b| ==> eof
  {
  }

  lemma {:induction false} QuoteFound(b: seq<byte>, i: nat, eof: bool, delim: byte, acc: seq<Field>) returns (x: seq<byte>, f: Field)
    requires i < |b| && b[i] == QUOTE && RecordFrom(b, i, eof, delim, acc).Row?
    ensures f.quoted && Spelled(x, f, delim) && Holds(b, i, x)
    ensures RecordFrom(b, i, eof, delim, acc) == After(b, i + |x|, eof, delim, acc + [f])
  {
    var body := Quoted(b, i + 1, []);
    var t := QuotedSpelled(b, i + 1, []);
    assert [] + t == t;
    x, f := [QUOTE] + Doubled(t) + [QUOTE], Field(t, true);
    QuotedHolds(b, i, Doubled(t));
  }

  /** What the byte after a closing quote makes of the record. */
  lemma {:induction false} AfterQuote(b: seq<byte>, k: nat, f: Field, eof: bool, delim: byte, acc: seq<Field>) returns (end: Option<End>)
    requires Dialect(delim) && k <= |b| && f.quoted && After(b, k, eof, delim, acc).Row?
    ensures match end
      case None => k < |b| && b[k] == delim && After(b, k, eof, delim, acc) == RecordFrom(b, k + 1, eof, delim, acc)
      case Some(e) =>
        && Holds(b, k, EndText(e)) && Fits(e, f, eof && k + |EndText(e)| == |b|)
        && After(b, k, eof, delim, acc) == Row(acc, k + |EndText(e)|)
  {
    if k == |b| {
      end := Some(Eof);
    } else if b[k] == delim {
      end := None;
    } else if b[k] == LF {
      end := Some(Lf);
      assert b[k..k + 1] == [LF];
    } else if k + 1 == |b| {
      end := Some(CrEof);
      assert b[k..k + 1] == [CR];
    } else {
      end := Some(CrLf);
      assert b[k..k + 2] == [CR, LF];
    }
  }

  lemma {:induction false} QuotePlace(b: seq<byte>, i: nat, eof: bool, delim: byte, acc: seq<Field>)
      returns (x: seq<byte>, f: Field, end: Option<End>)
    requires Dialect(delim) && i < |b| && b[i] == QUOTE && RecordFrom(b, i, eof, delim, acc).Row?
    ensures FieldPlace(b, i, x, f, end, eof, delim, acc)
  {
    x, f := QuoteFound(b, i, eof, delim, acc);
    end := AfterQuote(b, i + |x|, f, eof, delim, acc + [f]);
  }

  lemma {:induction false} QuotedHolds(b: seq<byte>, i: nat, d: seq<byte>)
    requires i + 1 + |d| < |b| && b[i] == QUOTE && Holds(b, i + 1, d) && b[i + 1 + |d|] == QUOTE
    ensures Holds(b, i, [QUOTE] + d + [QUOTE])
  {
    assert b[i..i + 1] == [QUOTE] && b[i + 1 + |d|..i + 2 + |d|] == [QUOTE];
    HoldsBoth(b, i, [QUOTE], d);
    HoldsBoth(b, i, [QUOTE] + d, [QUOTE]);
  }

  /** What is read from `i` is a record text that stands there. */
  predicate Stands(b: seq<byte>, i: nat, eof: bool, delim: byte, xs: seq<seq<byte>>, fields: seq<Field>, end: End, used: nat) {
    && |xs| > 0 && AllSpelled(xs, fields, delim)
    && Holds(b, i, Joined(xs, 0, delim, EndText(end))) && used == i + |Joined(xs, 0, delim, EndText(end))|
    && Fits(end, fields[|fields| - 1], eof && used == |b|)
  }

  lemma {:induction false} StandsAlone(b: seq<byte>, i: nat, x: seq<byte>, f: Field, end: End, eof: bool, delim: byte)
    requires Spelled(x, f, delim) && Holds(b, i, x) && Holds(b, i + |x|, EndText(end))
    requires Fits(end, f, eof && i + |x| + |EndText(end)| == |b|)
    ensures Stands(b, i, eof, delim, [x], [f], end, i + |x| + |EndText(end)|)
  {
    HoldsBoth(b, i, x, EndText(end));
    assert Joined([x], 0, delim, EndText(end)) == [] + x + EndText(end) == x + EndText(end);
  }

  lemma {:induction false} StandsMore(b: seq<byte>, i: nat, x: seq<byte>, f: Field, eof: bool, delim: byte,
                                      xs: seq<seq<byte>>, fields: seq<Field>, end: End, used: nat)
    requires Spelled(x, f, delim) && Holds(b, i, x) && i + |x| < |b| && b[i + |x|] == delim
    requires Stands(b, i + |x| + 1, eof, delim, xs, fields, end, used)
    ensures Stands(b, i, eof, delim, [x] + xs, [f] + fields, end, used)
  {
    var line := Joined(xs, 0, delim, EndText(end));
    JoinedCons(x, xs, delim, EndText(end));
    assert b[i + |x|..i + |x| + 1] == [delim];
    HoldsBoth(b, i + |x|, [delim], line);
    HoldsBoth(b, i, x, [delim] + line);
  }

  lemma {:induction false} AnyPlace(b: seq<byte>, i: nat, eof: bool, delim: byte, acc: seq<Field>)
      returns (x: seq<byte>, f: Field, end: Option<End>)
    requires Dialect(delim) && i <= |b| && RecordFrom(b, i, eof, delim, acc).Row?
    ensures FieldPlace(b, i, x, f, end, eof, delim, acc)
  {
    if i < |b| && b[i] == QUOTE {
      x, f, end := QuotePlace(b, i, eof, delim, acc);
    } else {
      x, f, end := BarePlace(b, i, eof, delim, acc);
    }
  }

  /** `b` is read from `i` as all these fields and used up to `used`. */
  predicate ReadsTo(b: seq<byte>, i: nat, eof: bool, delim: byte, acc: seq<Field>, all: seq<Field>, used: nat) {
    i <= |b| && RecordFrom(b, i, eof, delim, acc) == Row(all, used)
  }

  lemma {:induction false} StandsHere(b: seq<byte>, i: nat, x: seq<byte>, f: Field, e: End, eof: bool, delim: byte, acc: seq<Field>,
                                      all: seq<Field>, used: nat)
    requires FieldPlace(b, i, x, f, Some(e), eof, delim, acc) && ReadsTo(b, i, eof, delim, acc, all, used)
    ensures all == acc + [f] && Stands(b, i, eof, delim, [x], [f], e, used)
  {
    StandsAlone(b, i, x, f, e, eof, delim);
  }

  lemma {:induction false} ReadsOn(b: seq<byte>, i: nat, x: seq<byte>, f: Field, eof: bool, delim: byte, acc: seq<Field>,
                                   all: seq<Field>, used: nat)
    requires FieldPlace(b, i, x, f, None, eof, delim, acc) && ReadsTo(b, i, eof, delim, acc, all, used)
    ensures ReadsTo(b, i + |x| + 1, eof, delim, acc + [f], all, used)
  {
  }

  lemma {:induction false} StandsThere(b: seq<byte>, i: nat, x: seq<byte>, f: Field, eof: bool, delim: byte, acc: seq<Field>,
                                       ys: seq<seq<byte>>, more: seq<Field>, end: End, used: nat)
    requires FieldPlace(b, i, x, f, None, eof, delim, acc) && Stands(b, i + |x| + 1, eof, delim, ys, more, end, used)
    ensures acc + [f] + more == acc + ([f] + more) && Stands(b, i, eof, delim, [x] + ys, [f] + more, end, used)
  {
    StandsMore(b, i, x, f, eof, delim, ys, more, end, used);
  }

  lemma {:induction false} RecordStands(b: seq<byte>, i: nat, eof: bool, delim: byte, acc: seq<Field>, all: seq<Field>, used: nat)
      returns (xs: seq<seq<byte>>, fields: seq<Field>, end: End)
    requires Dialect(delim) && ReadsTo(b, i, eof, delim, acc, all, used)
    ensures all == acc + fields && Stands(b, i, eof, delim, xs, fields, end, used)
    decreases |b| - i
  {
    var x, f, e := AnyPlace(b, i, eof, delim, acc);
    if e.Some? {
      end := e.value;
      StandsHere(b, i, x, f, end, eof, delim, acc, all, used);
      xs, fields := [x], [f];
    } else {
      ReadsOn(b, i, x, f, eof, delim, acc, all, used);
      var ys, more;
      ys, more, end := RecordStands(b, i + |x| + 1, eof, delim, acc + [f], all, used);
      StandsThere(b, i, x, f, eof, delim, acc, ys, more, end, used);
      xs, fields := [x] + ys, [f] + more;
    }
  }

  ghost predicate SomeRecord(b: seq<byte>, eof: bool, delim: byte, fields: seq<Field>, used: nat) {
    exists xs, end :: IsRecord(b, eof, delim, xs, fields, end, used)
  }

  /** A window begins with a record of these fields, of this length, if and only
  if its text is one: the fields spelled bare or in quotes, delimiters between,
  and a line feed, a CR LF or the input's end after them. */
  lemma {:induction false} RecordIff(b: seq<byte>, eof: bool, delim: byte, fields: seq<Field>, used: nat)
    requires Dialect(delim)
    ensures Record(b, eof, delim) == Row(fields, used) <==> SomeRecord(b, eof, delim, fields, used)
  {
    if Record(b, eof, delim) == Row(fields, used) {
      var xs, all, end := RecordStands(b, 0, eof, delim, [], fields, used);
      assert [] + all == all;
      assert b[..used] == b[0..used];
      assert IsRecord(b, eof, delim, xs, fields, end, used);
    }
    if xs, end :| IsRecord(b, eof, delim, xs, fields, end, used) {
      TextReads(b, eof, delim, xs, fields, end, used);
    }
  }

  // ------------------------------------------------------------------ what is refused

  /** Past these fields, at `k`, a quoted field. */
  predicate QuoteAt(b: seq<byte>, i: nat, delim: byte, xs: seq<seq<byte>>, fields: seq<Field>, k: nat) {
    AllSpelled(xs, fields, delim) && Holds(b, i, Lead(xs, delim)) && k == i + |Lead(xs, delim)| && k < |b| && b[k] == QUOTE
  }

  /** Its closing quote is followed by `c`, which neither goes on nor ends. */
  predicate StrayAt(b: seq<byte>, k: nat, delim: byte, s: seq<byte>, c: byte) {
    var x := [QUOTE] + Doubled(s) + [QUOTE];
    && Holds(b, k, x) && k + |x| < |b| && b[k + |x|] == c && c != QUOTE && c != delim && c != LF
    && (c == CR ==> k + |x| + 1 < |b| && b[k + |x| + 1] != LF)
  }

  /** It is never closed: every quote up to the end is doubled. */
  predicate OpenAt(b: seq<byte>, k: nat, s: seq<byte>) { k < |b| && b[k + 1..] == Doubled(s) }

  ghost predicate IsRefused(b: seq<byte>, i: nat, eof: bool, delim: byte, e: ScanError) {
    exists xs, fields, k {:trigger QuoteAt(b, i, delim, xs, fields, k)} ::
      QuoteAt(b, i, delim, xs, fields, k) && RefusedAt(b, k, eof, delim, e)
  }

  ghost predicate RefusedAt(b: seq<byte>, k: nat, eof: bool, delim: byte, e: ScanError) {
    match e
    case Stray(c) => exists s :: StrayAt(b, k, delim, s, c)
    case Unterminated => eof && exists s :: OpenAt(b, k, s)
  }

  lemma {:induction false} OpenReads(b: seq<byte>, j: nat, s: seq<byte>, acc: seq<byte>)
    requires j <= |b| && b[j..] == Doubled(s)
    ensures Quoted(b, j, acc).Open?
    decreases |s|
  {
    if s != [] {
      var head := if s[0] == QUOTE then [QUOTE, QUOTE] else [s[0]];
      assert b[j..][..|head|] == head;
      assert b[j] == head[0] && b[j + |head| - 1] == head[|head| - 1];
      assert b[j + |head|..] == b[j..][|head|..] == Doubled(s[1..]);
      OpenReads(b, j + |head|, s[1..], acc + [s[0]]);
    }
  }

  lemma {:induction false} OpenSpelled(b: seq<byte>, j: nat, acc: seq<byte>) returns (t: seq<byte>)
    requires j <= |b| && Quoted(b, j, acc).Open?
    ensures b[j..] == Doubled(t)
    decreases |b| - j
  {
    if j == |b| {
      t := [];
    } else {
      var n := if b[j] == QUOTE then 2 else 1;
      t := OpenSpelled(b, j + n, acc + [b[j]]);
      assert Holds(b, j + n, Doubled(t));
      DoubledHead(b, j, n, t);
      t := [b[j]] + t;
      assert b[j..j + |Doubled(t)|] == b[j..];
    }
  }

  lemma {:induction false} StrayReads(b: seq<byte>, k: nat, s: seq<byte>, eof: bool, delim: byte, c: byte, acc: seq<Field>)
    requires Dialect(delim) && StrayAt(b, k, delim, s, c)
    ensures Gives(b, k, acc, eof, delim, Bad(Stray(c)))
  {
    QuotedReads(b, k, s, Doubled(s), eof, delim, acc);
  }

  lemma {:induction false} OpenGives(b: seq<byte>, k: nat, s: seq<byte>, delim: byte, acc: seq<Field>)
    requires k < |b| && b[k] == QUOTE && OpenAt(b, k, s)
    ensures Gives(b, k, acc, true, delim, Bad(Unterminated))
  {
    OpenReads(b, k + 1, s, []);
  }

  lemma {:induction false} RefusedReads(b: seq<byte>, k: nat, eof: bool, delim: byte, e: ScanError, acc: seq<Field>)
    requires Dialect(delim) && k < |b| && b[k] == QUOTE && RefusedAt(b, k, eof, delim, e)
    ensures Gives(b, k, acc, eof, delim, Bad(e))
  {
    match e
    case Stray(c) =>
      var s :| StrayAt(b, k, delim, s, c);
      StrayReads(b, k, s, eof, delim, c, acc);
    case Unterminated =>
      var s :| OpenAt(b, k, s);
      OpenGives(b, k, s, delim, acc);
  }

  /** Where the record that is refused goes wrong. */
  lemma {:induction false} BadStands(b: seq<byte>, i: nat, eof: bool, delim: byte, acc: seq<Field>, e: ScanError)
      returns (xs: seq<seq<byte>>, fields: seq<Field>, k: nat)
    requires Dialect(delim) && i <= |b| && RecordFrom(b, i, eof, delim, acc) == Bad(e)
    ensures QuoteAt(b, i, delim, xs, fields, k) && RefusedAt(b, k, eof, delim, e)
    decreases |b| - i
  {
    var x, f, stop := BadPlace(b, i, eof, delim, acc, e);
    if stop {
      xs, fields, k := [], [], i;
    } else {
      var ys, more;
      ys, more, k := BadStands(b, i + |x| + 1, eof, delim, acc + [f], e);
      LeadMore(b, i, x, f, delim, ys, more, k);
      xs, fields := [x] + ys, [f] + more;
    }
  }

  lemma {:induction false} LeadMore(b: seq<byte>, i: nat, x: seq<byte>, f: Field, delim: byte, ys: seq<seq<byte>>, more: seq<Field>, k: nat)
    requires Spelled(x, f, delim) && Holds(b, i, x) && i + |x| < |b| && b[i + |x|] == delim
    requires QuoteAt(b, i + |x| + 1, delim, ys, more, k)
    ensures QuoteAt(b, i, delim, [x] + ys, [f] + more, k)
  {
    var line := Lead(ys, delim);
    assert ([x] + ys)[1..] == ys;
    assert Lead([x] + ys, delim) == x + ([delim] + line);
    assert b[i + |x|..i + |x| + 1] == [delim];
    HoldsBoth(b, i + |x|, [delim], line);
    HoldsBoth(b, i, x, [delim] + line);
  }

  /** The field at `i` is the culprit, or it is whole and a delimiter follows. */
  lemma {:induction false} BadPlace(b: seq<byte>, i: nat, eof: bool, delim: byte, acc: seq<Field>, e: ScanError)
      returns (x: seq<byte>, f: Field, stop: bool)
    requires Dialect(delim) && i <= |b| && RecordFrom(b, i, eof, delim, acc) == Bad(e)
    ensures stop ==> i < |b| && b[i] == QUOTE && RefusedAt(b, i, eof, delim, e)
    ensures !stop ==>
      && Spelled(x, f, delim) && Holds(b, i, x) && i + |x| < |b| && b[i + |x|] == delim
      && RecordFrom(b, i + |x| + 1, eof, delim, acc + [f]) == Bad(e)
  {
    if i < |b| && b[i] == QUOTE {
      x, f, stop := BadQuote(b, i, eof, delim, acc, e);
    } else {
      var at := FirstOf(b, i, delim, LF);
      x, f, stop := b[i..at], Field(b[i..at], false), false;
    }
  }

  lemma {:induction false} BadQuote(b: seq<byte>, i: nat, eof: bool, delim: byte, acc: seq<Field>, e: ScanError)
      returns (x: seq<byte>, f: Field, stop: bool)
    requires Dialect(delim) && i < |b| && b[i] == QUOTE && RecordFrom(b, i, eof, delim, acc) == Bad(e)
    ensures stop ==> RefusedAt(b, i, eof, delim, e)
    ensures !stop ==>
      && Spelled(x, f, delim) && Holds(b, i, x) && i + |x| < |b| && b[i + |x|] == delim
      && RecordFrom(b, i + |x| + 1, eof, delim, acc + [f]) == Bad(e)
  {
    if Quoted(b, i + 1, []).Open? {
      var t := OpenSpelled(b, i + 1, []);
      assert OpenAt(b, i, t);
      x, f, stop := [], Field([], true), true;
    } else {
      x, f := QuoteClosed(b, i, eof, delim, acc);
      stop := AfterBad(b, i, x, f, eof, delim, acc + [f], e);
    }
  }

  lemma {:induction false} QuoteClosed(b: seq<byte>, i: nat, eof: bool, delim: byte, acc: seq<Field>) returns (x: seq<byte>, f: Field)
    requires i < |b| && b[i] == QUOTE && !Quoted(b, i + 1, []).Open? && RecordFrom(b, i, eof, delim, acc) != More
    ensures f.quoted && Spelled(x, f, delim) && Holds(b, i, x) && (i + |x| < |b| ==> b[i + |x|] != QUOTE)
    ensures RecordFrom(b, i, eof, delim, acc) == After(b, i + |x|, eof, delim, acc + [f])
  {
    var t := QuotedSpelled(b, i + 1, []);
    assert [] + t == t;
    x, f := [QUOTE] + Doubled(t) + [QUOTE], Field(t, true);
    QuotedHolds(b, i, Doubled(t));
  }

  /** The byte after the closing quote is to blame, or a delimiter. */
  lemma {:induction false} AfterBad(b: seq<byte>, i: nat, x: seq<byte>, f: Field, eof: bool, delim: byte, acc: seq<Field>, e: ScanError)
      returns (stop: bool)
    requires Dialect(delim) && f.quoted && Spelled(x, f, delim) && Holds(b, i, x) && (i + |x| < |b| ==> b[i + |x|] != QUOTE)
    requires After(b, i + |x|, eof, delim, acc) == Bad(e)
    ensures stop ==> RefusedAt(b, i, eof, delim, e)
    ensures !stop ==> i + |x| < |b| && b[i + |x|] == delim && RecordFrom(b, i + |x| + 1, eof, delim, acc) == Bad(e)
  {
    stop := b[i + |x|] != delim;
    if stop { assert StrayAt(b, i, delim, f.text, b[i + |x|]); }
  }

  /** A record is refused if and only if some quoted field in it is closed and
  followed by anything but a delimiter, a line feed, a CR LF or the input's end,
  or is never closed before that end. */
  lemma {:induction false} BadIff(b: seq<byte>, eof: bool, delim: byte, e: ScanError)
    requires Dialect(delim)
    ensures Record(b, eof, delim) == Bad(e) <==> IsRefused(b, 0, eof, delim, e)
  {
    if Record(b, eof, delim) == Bad(e) {
      var xs, fields, k := BadStands(b, 0, eof, delim, [], e);
    }
    if IsRefused(b, 0, eof, delim, e) {
      var xs, fields, k :| QuoteAt(b, 0, delim, xs, fields, k) && RefusedAt(b, k, eof, delim, e);
      assert [] + fields == fields;
      LeadReads(b, 0, xs, fields, k, fields, eof, delim, []);
      RefusedReads(b, k, eof, delim, e, fields);
      assert Gives(b, 0, [], eof, delim, Bad(e));
    }
  }
}
