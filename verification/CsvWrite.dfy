/** Writing delimited text, and reading back exactly what was written. */
module CsvWrite {
  import opened Basics
  import opened Scanning
  import opened Csv
  import opened CsvGrammar
  import opened CsvStream

  datatype Cell = Null | Str(s: seq<byte>)

  // --------------------------------------------------------------- what is written

  predicate Plain(s: seq<byte>, delim: byte, nil: seq<byte>) {
    s != [] && s != nil && forall i :: 0 <= i < |s| ==> s[i] != delim && s[i] != QUOTE && s[i] != LF && s[i] != CR
  }

  function FieldText(s: seq<byte>, delim: byte, nil: seq<byte>): seq<byte> {
    if Plain(s, delim, nil) then s else [QUOTE] + Doubled(s) + [QUOTE]
  }

  function CellText(c: Cell, delim: byte, nil: seq<byte>): seq<byte> {
    match c
    case Null => nil
    case Str(s) => FieldText(s, delim, nil)
  }

  function Texts(row: seq<Cell>, delim: byte, nil: seq<byte>): (xs: seq<seq<byte>>)
    ensures |xs| == |row| && forall i :: 0 <= i < |row| ==> xs[i] == CellText(row[i], delim, nil)
  {
    seq(|row|, i requires 0 <= i < |row| => CellText(row[i], delim, nil))
  }

  function RowText(row: seq<Cell>, delim: byte, nil: seq<byte>): seq<byte> { Joined(Texts(row, delim, nil), 0, delim, [LF]) }

  function BlockText(rows: seq<seq<Cell>>, delim: byte, nil: seq<byte>): seq<byte> {
    if rows == [] then [] else RowText(rows[0], delim, nil) + BlockText(rows[1..], delim, nil)
  }

  /** A text is written as it is if and only if it is not empty, is not the null
  text and holds no delimiter, quote, LF or CR. */
  lemma {:induction false} BareIff(s: seq<byte>, delim: byte, nil: seq<byte>)
    ensures FieldText(s, delim, nil) == s <==>
      s != [] && s != nil && delim !in s && QUOTE !in s && LF !in s && CR !in s
  {
    DoubledLength(s);
  }

  lemma {:induction false} DoubledLength(s: seq<byte>)
    ensures |Doubled(s)| >= |s|
  {
    if s != [] { DoubledLength(s[1..]); }
  }

  // ------------------------------------------------------------------- the writers

  lemma {:induction false} DoubledAppend(s: seq<byte>, c: byte)
    ensures Doubled(s + [c]) == Doubled(s) + if c == QUOTE then [QUOTE, QUOTE] else [c]
  {
    if s == [] {
      assert [c][1..] == [];
    } else {
      assert (s + [c])[1..] == s[1..] + [c];
      DoubledAppend(s[1..], c);
    }
  }

  lemma {:induction false} Regroup(w: seq<byte>, x: seq<byte>, y: seq<byte>, z: seq<byte>)
    ensures w + x + y + z == w + (x + y + z)
  {
  }

  /** One more byte: everything up to it but the run since the last quote is out. */
  lemma {:induction false} FieldTurn(out: seq<byte>, pre: seq<byte>, b: seq<byte>, last: nat, i: nat)
    requires last <= i < |b| && out + b[last..i] == pre + Doubled(b[..i])
    ensures b[i] != QUOTE ==> out + b[last..i + 1] == pre + Doubled(b[..i + 1])
    ensures b[i] == QUOTE ==> out + b[last..i + 1] + b[i..i + 1] == pre + Doubled(b[..i + 1])
  {
    var d := Doubled(b[..i]);
    assert b[..i + 1] == b[..i] + [b[i]];
    DoubledAppend(b[..i], b[i]);
    assert out + b[last..i + 1] == pre + d + [b[i]];
    assert pre + d + [b[i]] == pre + (d + [b[i]]);
    if b[i] == QUOTE {
      assert b[i..i + 1] == [QUOTE];
      assert pre + d + [QUOTE] + [QUOTE] == pre + (d + [QUOTE, QUOTE]);
    }
  }

  method WriteField(w: seq<byte>, b: seq<byte>, delim: byte, nil: seq<byte>) returns (out: seq<byte>)
    ensures out == w + FieldText(b, delim, nil)
  {
    if Plain(b, delim, nil) { return w + b; }
    out := w + [QUOTE];
    var last := 0;
    for i := 0 to |b|
      invariant last <= i && out + b[last..i] == w + [QUOTE] + Doubled(b[..i])
    {
      FieldTurn(out, w + [QUOTE], b, last, i);
      if b[i] == QUOTE {
        out := out + b[last..i + 1];
        last := i;
      }
    }
    assert b[..|b|] == b && b[last..|b|] == b[last..];
    out := out + b[last..];
    out := out + [QUOTE];
    Regroup(w, [QUOTE], Doubled(b), [QUOTE]);
  }

  method WriteCell(w: seq<byte>, cell: Cell, delim: byte, nil: seq<byte>) returns (out: seq<byte>)
    ensures out == w + CellText(cell, delim, nil)
  {
    match cell {
      case Null => out := w + nil;
      case Str(s) => out := WriteField(w, s, delim, nil);
    }
  }

  method WriteRow(w: seq<byte>, row: seq<Cell>, delim: byte, nil: seq<byte>) returns (out: seq<byte>)
    ensures out == w + RowText(row, delim, nil)
  {
    out := w;
    ghost var xs := Texts(row, delim, nil);
    for c := 0 to |row|
      invariant out + Joined(xs, c, delim, [LF]) == w + RowText(row, delim, nil)
    {
      Regroup(out, if c > 0 then [delim] else [], xs[c], Joined(xs, c + 1, delim, [LF]));
      if c > 0 { out := out + [delim]; } else { assert out + [] == out; }
      out := WriteCell(out, row[c], delim, nil);
    }
    out := out + [LF];
  }

  method WriteBlock(w: seq<byte>, rows: seq<seq<Cell>>, delim: byte, nil: seq<byte>) returns (out: seq<byte>)
    ensures out == w + BlockText(rows, delim, nil)
  {
    out := w;
    for r := 0 to |rows|
      invariant out + BlockText(rows[r..], delim, nil) == w + BlockText(rows, delim, nil)
    {
      ghost var before, more := out, BlockText(rows[r + 1..], delim, nil);
      out := WriteRow(out, rows[r], delim, nil);
      assert rows[r..][1..] == rows[r + 1..];
      assert out + more == before + (RowText(rows[r], delim, nil) + more);
    }
  }

  // ------------------------------------------------------------------- reading back

  /** How the importer reads a field: a quoted one is never NULL. */
  function Decode(f: Field, nil: seq<byte>): Cell { if f.text == nil && !f.quoted then Null else Str(f.text) }

  function DecodeRow(fields: seq<Field>, nil: seq<byte>): (cells: seq<Cell>)
    ensures |cells| == |fields| && forall i :: 0 <= i < |fields| ==> cells[i] == Decode(fields[i], nil)
  {
    seq(|fields|, i requires 0 <= i < |fields| => Decode(fields[i], nil))
  }

  function DecodeAll(rows: seq<seq<Field>>, nil: seq<byte>): (cells: seq<seq<Cell>>)
    ensures |cells| == |rows| && forall i :: 0 <= i < |rows| ==> cells[i] == DecodeRow(rows[i], nil)
  {
    seq(|rows|, i requires 0 <= i < |rows| => DecodeRow(rows[i], nil))
  }

  /** A bare null text reads back as one whole unquoted field. */
  predicate NullReadable(nil: seq<byte>, delim: byte) {
    && (forall i :: 0 <= i < |nil| ==> nil[i] != delim && nil[i] != LF)
    && (nil != [] ==> nil[0] != QUOTE && nil[|nil| - 1] != CR)
  }

  /** `x` is how field `f` is written: spelled, and no CR of its own before the
  line's end. */
  predicate Written(x: seq<byte>, f: Field, delim: byte) { Spelled(x, f, delim) && Fits(Lf, f, false) }

  /** The field a written cell reads as: NULL, the empty string and a string
  equal to the null text stay apart. */
  function Reads(c: Cell, delim: byte, nil: seq<byte>): (f: Field)
    ensures Decode(f, nil) == c
    ensures NullReadable(nil, delim) ==> Written(CellText(c, delim, nil), f, delim)
  {
    match c
    case Null => Field(nil, false)
    case Str(s) => Field(s, !Plain(s, delim, nil))
  }

  function ReadsAll(row: seq<Cell>, delim: byte, nil: seq<byte>): (fields: seq<Field>)
    ensures DecodeRow(fields, nil) == row
    ensures NullReadable(nil, delim) ==> AllWritten(Texts(row, delim, nil), fields, delim)
  {
    seq(|row|, i requires 0 <= i < |row| => Reads(row[i], delim, nil))
  }

  predicate AllWritten(xs: seq<seq<byte>>, fields: seq<Field>, delim: byte) {
    |xs| == |fields| && forall i :: 0 <= i < |xs| ==> Written(xs[i], fields[i], delim)
  }

  // -------------------------------------------------------------- lines and blocks

  /** A row's text with its line ended by LF or by CR LF. */
  function LineText(row: seq<Cell>, crlf: bool, delim: byte, nil: seq<byte>): seq<byte> {
    Joined(Texts(row, delim, nil), 0, delim, EndText(if crlf then CrLf else Lf))
  }

  lemma {:induction false} LineIsRecord(row: seq<Cell>, crlf: bool, rest: seq<byte>, eof: bool, delim: byte, nil: seq<byte>)
    requires NullReadable(nil, delim) && |row| > 0
    ensures var line := LineText(row, crlf, delim, nil);
      IsRecord(line + rest, eof, delim, Texts(row, delim, nil), ReadsAll(row, delim, nil), if crlf then CrLf else Lf, |line|)
  {
    var line, fields := LineText(row, crlf, delim, nil), ReadsAll(row, delim, nil);
    assert (line + rest)[..|line|] == line;
    assert Written(Texts(row, delim, nil)[|row| - 1], fields[|row| - 1], delim);
  }

  /** One written row, its line ended by LF or by CR LF, whatever follows it and
  whether or not the end of input is known, is one record that decodes to the row
  and uses the whole line. */
  lemma {:induction false} LineRoundTrips(row: seq<Cell>, crlf: bool, rest: seq<byte>, eof: bool, delim: byte, nil: seq<byte>)
    requires Dialect(delim) && NullReadable(nil, delim) && |row| > 0
    ensures Record(LineText(row, crlf, delim, nil) + rest, eof, delim)
            == Row(ReadsAll(row, delim, nil), |LineText(row, crlf, delim, nil)|)
  {
    var line := LineText(row, crlf, delim, nil);
    LineIsRecord(row, crlf, rest, eof, delim, nil);
    TextReads(line + rest, eof, delim, Texts(row, delim, nil), ReadsAll(row, delim, nil), if crlf then CrLf else Lf, |line|);
  }

  /** A row as the writer ends it. */
  lemma {:induction false} RowRoundTrips(row: seq<Cell>, rest: seq<byte>, eof: bool, delim: byte, nil: seq<byte>)
    requires Dialect(delim) && NullReadable(nil, delim) && |row| > 0
    ensures Record(RowText(row, delim, nil) + rest, eof, delim)
            == Row(ReadsAll(row, delim, nil), |RowText(row, delim, nil)|)
  {
    LineRoundTrips(row, false, rest, eof, delim, nil);
  }

  /** Every row has a cell and fits in the widest window. */
  predicate Writable(rows: seq<seq<Cell>>, delim: byte, nil: seq<byte>) {
    forall i :: 0 <= i < |rows| ==> |rows[i]| > 0 && |RowText(rows[i], delim, nil)| <= MAX_RECORD
  }

  /** Reading what was written gives back the same cells. */
  predicate RoundTrips(rows: seq<seq<Cell>>, delim: byte, nil: seq<byte>) {
    var p := Parse(BlockText(rows, delim, nil), delim);
    p.ending == Ended && DecodeAll(p.rows, nil) == rows
  }

  lemma {:induction false} LineParses(row: seq<Cell>, crlf: bool, rest: seq<byte>, delim: byte, nil: seq<byte>)
    requires Dialect(delim) && NullReadable(nil, delim) && |row| > 0
    requires |LineText(row, crlf, delim, nil)| <= MAX_RECORD
    ensures var p := Parse(rest, delim);
      Parse(LineText(row, crlf, delim, nil) + rest, delim) == Parsed([ReadsAll(row, delim, nil)] + p.rows, p.ending)
  {
    var line := LineText(row, crlf, delim, nil);
    var s := line + rest;
    LineRoundTrips(row, crlf, rest, true, delim, nil);
    if |s| >= MAX_RECORD {
      var cut := s[|line|..MAX_RECORD];
      assert s[..MAX_RECORD] == line + cut;
      LineRoundTrips(row, crlf, cut, false, delim, nil);
    }
    assert s[|line|..] == rest;
    LineNotEmpty(Texts(row, delim, nil), 0, delim, EndText(if crlf then CrLf else Lf));
  }

  lemma {:induction false} DecodeOneMore(fields: seq<Field>, rows: seq<seq<Field>>, nil: seq<byte>)
    ensures DecodeAll([fields] + rows, nil) == [DecodeRow(fields, nil)] + DecodeAll(rows, nil)
  {
  }

  lemma {:induction false} LineNotEmpty(xs: seq<seq<byte>>, c: nat, delim: byte, end: seq<byte>)
    requires c <= |xs| && end != []
    ensures |Joined(xs, c, delim, end)| > 0
    decreases |xs| - c
  {
    if c < |xs| { LineNotEmpty(xs, c + 1, delim, end); }
  }

  /** The same rows, each line ended as `crlf` says. */
  function LinesText(rows: seq<seq<Cell>>, crlf: seq<bool>, delim: byte, nil: seq<byte>): seq<byte>
    requires |crlf| == |rows|
  {
    if rows == [] then [] else LineText(rows[0], crlf[0], delim, nil) + LinesText(rows[1..], crlf[1..], delim, nil)
  }

  predicate LinesFit(rows: seq<seq<Cell>>, crlf: seq<bool>, delim: byte, nil: seq<byte>) {
    |crlf| == |rows| && forall i :: 0 <= i < |rows| ==> |rows[i]| > 0 && |LineText(rows[i], crlf[i], delim, nil)| <= MAX_RECORD
  }

  function FieldsOf(rows: seq<seq<Cell>>, delim: byte, nil: seq<byte>): seq<seq<Field>> {
    if rows == [] then [] else [ReadsAll(rows[0], delim, nil)] + FieldsOf(rows[1..], delim, nil)
  }

  /** Whichever lines end in LF and whichever in CR LF, a block is read as the
  same records, one a line. */
  lemma {:induction false} LineEndsAgree(rows: seq<seq<Cell>>, crlf: seq<bool>, delim: byte, nil: seq<byte>)
    requires Dialect(delim) && NullReadable(nil, delim) && LinesFit(rows, crlf, delim, nil)
    ensures Parse(LinesText(rows, crlf, delim, nil), delim) == Parsed(FieldsOf(rows, delim, nil), Ended)
    ensures DecodeAll(FieldsOf(rows, delim, nil), nil) == rows
    decreases |rows|
  {
    if rows != [] {
      var rest := LinesText(rows[1..], crlf[1..], delim, nil);
      LineParses(rows[0], crlf[0], rest, delim, nil);
      LineEndsAgree(rows[1..], crlf[1..], delim, nil);
      DecodeOneMore(ReadsAll(rows[0], delim, nil), FieldsOf(rows[1..], delim, nil), nil);
      assert [rows[0]] + rows[1..] == rows;
    }
  }

  function AllLf(n: nat): seq<bool> { seq(n, i requires 0 <= i < n => false) }

  lemma {:induction false} BlockIsLines(rows: seq<seq<Cell>>, delim: byte, nil: seq<byte>)
    ensures BlockText(rows, delim, nil) == LinesText(rows, AllLf(|rows|), delim, nil)
    decreases |rows|
  {
    if rows != [] {
      assert AllLf(|rows|)[1..] == AllLf(|rows[1..]|);
      BlockIsLines(rows[1..], delim, nil);
    }
  }

  /** Reading what was written gives the same cells. */
  lemma {:induction false} BlockRoundTrips(rows: seq<seq<Cell>>, delim: byte, nil: seq<byte>)
    requires Dialect(delim) && NullReadable(nil, delim) && Writable(rows, delim, nil)
    ensures RoundTrips(rows, delim, nil)
  {
    BlockIsLines(rows, delim, nil);
    LineEndsAgree(rows, AllLf(|rows|), delim, nil);
  }

  /** The write and the read joined: any table, read back through any splitting
  of its text into reads. */
  method WriteThenRead(rows: seq<seq<Cell>>, delim: byte, nil: seq<byte>) returns (back: seq<seq<Cell>>)
    requires Dialect(delim) && NullReadable(nil, delim) && Writable(rows, delim, nil)
    ensures back == rows
  {
    var text := WriteBlock([], rows, delim, nil);
    assert [] + BlockText(rows, delim, nil) == BlockText(rows, delim, nil);
    var src := new Source(text);
    var recs := new Records(src, delim);
    var fields, ending := ReadAll(recs);
    BlockRoundTrips(rows, delim, nil);
    back := DecodeAll(fields, nil);
  }

  // ------------------------------------------------------------- which null texts

  /** A one-cell table holding NULL. */
  function OneNull(): seq<seq<Cell>> { [[Null]] }

  lemma {:induction false} OneNullText(delim: byte, nil: seq<byte>)
    ensures BlockText(OneNull(), delim, nil) == nil + [LF]
  {
    var row := [Null];
    var xs := Texts(row, delim, nil);
    assert Joined(xs, 1, delim, [LF]) == [LF];
    assert RowText(row, delim, nil) == nil + [LF];
    assert OneNull()[1..] == [];
  }

  /** Which null texts survive the round trip: exactly the readable ones.  A
  delimiter or a line feed in it splits the field, a leading quote makes it a
  quoted one, and a final CR is taken for half of the line's end. */
  lemma {:induction false} NullTextIff(delim: byte, nil: seq<byte>)
    requires Dialect(delim) && |nil| < MAX_RECORD
    ensures (forall rows :: Writable(rows, delim, nil) ==> RoundTrips(rows, delim, nil)) <==> NullReadable(nil, delim)
  {
    if NullReadable(nil, delim) {
      forall rows | Writable(rows, delim, nil) ensures RoundTrips(rows, delim, nil) {
        BlockRoundTrips(rows, delim, nil);
      }
    } else {
      OneNullText(delim, nil);
      OneNullLost(delim, nil);
      assert RowText([Null], delim, nil) == nil + [LF];
      assert Writable(OneNull(), delim, nil);
    }
  }

  /** The fields already read stay in front. */
  lemma {:induction false} RecordKeeps(b: seq<byte>, i: nat, eof: bool, delim: byte, acc: seq<Field>)
    requires i <= |b|
    ensures var r := RecordFrom(b, i, eof, delim, acc); r.Row? ==> acc <= r.fields
    decreases |b| - i, 1
  {
    if i < |b| && b[i] == QUOTE {
      var q := Quoted(b, i + 1, []);
      if !q.Open? { AfterKeeps(b, q.at + 1, eof, delim, acc + [Field(q.text, true)]); }
    } else {
      var e := FirstOf(b, i, delim, LF);
      AfterKeeps(b, e, eof, delim, acc + [Field(b[i..Trimmed(b, i, e)], false)]);
    }
  }

  lemma {:induction false} AfterKeeps(b: seq<byte>, i: nat, eof: bool, delim: byte, acc: seq<Field>)
    requires i <= |b|
    ensures var r := After(b, i, eof, delim, acc); r.Row? ==> acc <= r.fields
    decreases |b| - i, 0
  {
    if i < |b| && b[i] == delim { RecordKeeps(b, i + 1, eof, delim, acc); }
  }

  /** A record whose first field is the bare text before the final LF. */
  lemma {:induction false} FirstFieldBare(nil: seq<byte>, delim: byte)
    requires Dialect(delim)
    requires var r := Record(nil + [LF], true, delim); r.Row? && |r.fields| > 0 && r.fields[0] == Field(nil, false)
    ensures NullReadable(nil, delim)
  {
    var s := nil + [LF];
    if s[0] == QUOTE {
      var q := Quoted(s, 1, []);
      AfterKeeps(s, q.at + 1, true, delim, [] + [Field(q.text, true)]);
      assert false;
    } else {
      var e := FirstOf(s, 0, delim, LF);
      var f := Field(s[0..Trimmed(s, 0, e)], false);
      AfterKeeps(s, e, true, delim, [] + [f]);
      assert |nil| == Trimmed(s, 0, e);
      assert forall i :: 0 <= i < |nil| ==> s[i] == nil[i];
    }
  }

  lemma {:induction false} OneNullLost(delim: byte, nil: seq<byte>)
    requires Dialect(delim) && !NullReadable(nil, delim)
    ensures !RoundTrips(OneNull(), delim, nil)
  {
    OneNullText(delim, nil);
    var s := nil + [LF];
    var p := Parse(s, delim);
    if RoundTrips(OneNull(), delim, nil) {
      assert |p.rows| == 1 && DecodeRow(p.rows[0], nil) == [Null];
      assert Decode(p.rows[0][0], nil) == Null;
      FirstFieldBare(nil, delim);
      assert false;
    }
  }
}
