/** Splitting delimited text into records: the grammar, and the splitter that
reads it off a window with two byte scans and a scratch buffer. */
module Csv {
  import opened Basics
  import opened Scanning

  const QUOTE: byte := 34
  const LF: byte := 10
  const CR: byte := 13

  const MAX_RECORD: nat := 0x400_0000
  const IN_SCRATCH: nat := 0x8000_0000

  /** A field's bytes and whether it was written in quotes. */
  datatype Field = Field(text: seq<byte>, quoted: bool)

  datatype ScanError = Unterminated | Stray(c: byte)

  /** One record off the front of a window: its fields and the bytes it used,
  or more input is needed, or the text is malformed. */
  datatype Outcome = Row(fields: seq<Field>, used: nat) | More | Bad(error: ScanError)

  // --------------------------------------------------------------------- grammar

  /** The inside of a quoted field: never closed, a quote on the very last byte,
  or closed by the quote at `at`. */
  datatype Body = Open | Edge(text: seq<byte>, at: nat) | Closed(text: seq<byte>, at: nat)

  function Quoted(b: seq<byte>, i: nat, acc: seq<byte>): (r: Body)
    requires i <= |b|
    ensures r.Edge? ==> i <= r.at == |b| - 1 && b[r.at] == QUOTE
    ensures r.Closed? ==> i <= r.at < |b| - 1 && b[r.at] == QUOTE && b[r.at + 1] != QUOTE
    decreases |b| - i
  {
    if i == |b| then Open
    else if b[i] != QUOTE then Quoted(b, i + 1, acc + [b[i]])
    else if i + 1 == |b| then Edge(acc, i)
    else if b[i + 1] == QUOTE then Quoted(b, i + 2, acc + [QUOTE])
    else Closed(acc, i)
  }

  /** The end of an unquoted field: a CR goes only with the LF after it. */
  function Trimmed(b: seq<byte>, start: nat, e: nat): (r: nat)
    requires start <= e <= |b|
    ensures start <= r <= e
  {
    if e < |b| && b[e] == LF && e > start && b[e - 1] == CR then e - 1 else e
  }

  /** The rest of a record from the start of a field. */
  function RecordFrom(b: seq<byte>, i: nat, eof: bool, delim: byte, acc: seq<Field>): Outcome
    requires i <= |b|
    decreases |b| - i, 1
  {
    if i < |b| && b[i] == QUOTE then
      match Quoted(b, i + 1, [])
      case Open => if eof then Bad(Unterminated) else More
      case Edge(text, at) => if eof then After(b, at + 1, eof, delim, acc + [Field(text, true)]) else More
      case Closed(text, at) => After(b, at + 1, eof, delim, acc + [Field(text, true)])
    else
      var e := FirstOf(b, i, delim, LF);
      if e == |b| && !eof then More
      else After(b, e, eof, delim, acc + [Field(b[i..Trimmed(b, i, e)], false)])
  }

  /** The rest of a record from the end of a field. */
  function After(b: seq<byte>, i: nat, eof: bool, delim: byte, acc: seq<Field>): Outcome
    requires i <= |b|
    decreases |b| - i, 0
  {
    if i == |b| then (if eof then Row(acc, i) else More)
    else if b[i] == delim then RecordFrom(b, i + 1, eof, delim, acc)
    else if b[i] == LF then Row(acc, i + 1)
    else if b[i] != CR then Bad(Stray(b[i]))
    else if i + 1 == |b| then (if eof then Row(acc, i + 1) else More)
    else if b[i + 1] == LF then Row(acc, i + 2)
    else Bad(Stray(CR))
  }

  function Record(b: seq<byte>, eof: bool, delim: byte): Outcome { RecordFrom(b, 0, eof, delim, []) }

  // ------------------------------------------------------- ranges into a window

  /** Where a field's bytes are; a start with the high bit set counts from the
  front of the scratch buffer, any other from the front of the record. */
  datatype Range = Range(start: nat, end: nat)

  predicate InBounds(r: Range, window: seq<byte>, scratch: seq<byte>) {
    if r.start >= IN_SCRATCH then r.start - IN_SCRATCH <= r.end <= |scratch| else r.start <= r.end <= |window|
  }

  function Text(r: Range, window: seq<byte>, scratch: seq<byte>): seq<byte>
    requires InBounds(r, window, scratch)
  {
    if r.start >= IN_SCRATCH then scratch[r.start - IN_SCRATCH..r.end] else window[r.start..r.end]
  }

  /** The opening quote sits just before the text of a field that needed no
  unescaping. */
  predicate WasQuoted(r: Range, window: seq<byte>, scratch: seq<byte>)
    requires InBounds(r, window, scratch)
  {
    r.start >= IN_SCRATCH || (r.start > 0 && window[r.start - 1] == QUOTE)
  }

  function View(r: Range, window: seq<byte>, scratch: seq<byte>): Field
    requires InBounds(r, window, scratch)
  {
    Field(Text(r, window, scratch), WasQuoted(r, window, scratch))
  }

  /** The ranges spell exactly these fields. */
  predicate Spells(ranges: seq<Range>, window: seq<byte>, scratch: seq<byte>, fields: seq<Field>) {
    && |ranges| == |fields|
    && forall i :: 0 <= i < |ranges| ==> InBounds(ranges[i], window, scratch) && View(ranges[i], window, scratch) == fields[i]
  }

  // -------------------------------------------------------------------- splitter

  lemma {:induction false} QuotedSkip(b: seq<byte>, i: nat, j: nat, acc: seq<byte>)
    requires i <= j <= |b| && Clear(b, i, j, QUOTE, QUOTE)
    ensures Quoted(b, i, acc) == Quoted(b, j, acc + b[i..j])
    decreases j - i
  {
    if i < j {
      QuotedSkip(b, i + 1, j, acc + [b[i]]);
      assert acc + [b[i]] + b[i + 1..j] == acc + b[i..j];
    } else {
      assert acc + b[i..j] == acc;
    }
  }

  /** What the splitter answers; the fields are the ranges it leaves behind. */
  datatype Scan = Done(used: nat) | Need | Fail(error: ScanError)

  /** The answer and the ranges together amount to this outcome. */
  predicate Amounts(out: Scan, ranges: seq<Range>, window: seq<byte>, scratch: seq<byte>, o: Outcome) {
    match o
    case Row(fields, used) => out == Done(used) && Spells(ranges, window, scratch, fields)
    case More => out == Need
    case Bad(e) => out == Fail(e)
  }

  datatype CloseResult = NoClose | AtEdge | At(close: nat, escaped: bool)

  /** `r` is how the quoted text at `start` closes; unescaped, it is the text as
  it stands. */
  predicate Closes(r: CloseResult, b: seq<byte>, start: nat, eof: bool)
    requires start <= |b|
  {
    var body := Quoted(b, start, []);
    if body.Open? then r == NoClose
    else if body.Edge? && !eof then r == AtEdge
    else r.At? && r.close == body.at && (!r.escaped ==> body.text == b[start..body.at])
  }

  /** Find the quote that closes the field whose text starts at `start`. */
  method FindClose(b: seq<byte>, start: nat, eof: bool) returns (r: CloseResult)
    requires start <= |b|
    ensures Closes(r, b, start, eof)
  {
    var i, escaped := start, false;
    ghost var acc := [];
    while true
      invariant start <= i <= |b| && Quoted(b, start, []) == Quoted(b, i, acc)
      invariant !escaped ==> acc == b[start..i]
      decreases |b| - i
    {
      var q := Find1(b, i, QUOTE);
      QuotedSkip(b, i, q, acc);
      assert b[start..i] + b[i..q] == b[start..q];
      acc := acc + b[i..q];
      if q == |b| { return NoClose; }
      if q + 1 == |b| && !eof { return AtEdge; }
      if q + 1 < |b| && b[q + 1] == QUOTE {
        escaped := true;
        i := q + 2;
        acc := acc + [QUOTE];
        continue;
      }
      return At(q, escaped);
    }
  }

  /** Append the unescaped text of the quoted field at `start..close`. */
  method Unescape(b: seq<byte>, start: nat, close: nat, scratch0: seq<byte>) returns (scratch: seq<byte>)
    requires start <= close < |b|
    requires !Quoted(b, start, []).Open? && Quoted(b, start, []).at == close
    ensures scratch == scratch0 + Quoted(b, start, []).text
    ensures |Quoted(b, start, []).text| <= close - start
  {
    scratch := scratch0;
    ghost var body := Quoted(b, start, []);
    ghost var acc := [];
    var k := start;
    while k < close
      invariant start <= k <= close && Quoted(b, k, acc) == body
      invariant scratch == scratch0 + acc && |acc| <= k - start
    {
      var m := Find1(b, k, QUOTE);
      QuotedSkip(b, k, if m < close then m else close, acc);
      if m > close { m := close; }
      acc := acc + b[k..m];
      scratch := scratch + b[k..m];
      if m < close {
        acc := acc + [QUOTE];
        scratch := scratch + [QUOTE];
        k := m + 2;
      } else {
        k := close;
      }
    }
  }

  lemma {:induction false} SpellsMore(ranges: seq<Range>, window: seq<byte>, scratch: seq<byte>, fields: seq<Field>, r: Range, more: seq<byte>, f: Field)
    requires Spells(ranges, window, scratch, fields)
    requires InBounds(r, window, scratch + more) && View(r, window, scratch + more) == f
    ensures Spells(ranges + [r], window, scratch + more, fields + [f])
  {
    forall i | 0 <= i < |ranges|
      ensures InBounds(ranges[i], window, scratch + more) && View(ranges[i], window, scratch + more) == fields[i]
    {
      var q := ranges[i];
      if q.start >= IN_SCRATCH {
        assert (scratch + more)[q.start - IN_SCRATCH..q.end] == scratch[q.start - IN_SCRATCH..q.end];
      }
    }
  }

  /** One field: either the record cannot go on, or it ends at `at`. */
  datatype FieldScan = Stop(why: Scan) | Next(at: nat)

  predicate FieldStep(b: seq<byte>, i: nat, eof: bool, delim: byte, acc: seq<Field>, r: FieldScan,
                      ranges: seq<Range>, scratch: seq<byte>, acc': seq<Field>)
    requires i <= |b|
  {
    match r
    case Next(at) =>
      && i <= at <= |b| && |scratch| <= at && Spells(ranges, b, scratch, acc')
      && RecordFrom(b, i, eof, delim, acc) == After(b, at, eof, delim, acc')
    case Stop(why) =>
      if why.Fail? then RecordFrom(b, i, eof, delim, acc) == Bad(why.error)
      else why.Need? && RecordFrom(b, i, eof, delim, acc) == More
  }

  /** Push the range of a closed quoted field: into the window if its text is
  there as it stands, else into the scratch buffer. */
  method QuotedRange(b: seq<byte>, start: nat, close: nat, escaped: bool,
                     ranges0: seq<Range>, scratch0: seq<byte>, ghost acc: seq<Field>)
      returns (ranges: seq<Range>, scratch: seq<byte>)
    requires 0 < start <= close < |b| <= MAX_RECORD && b[start - 1] == QUOTE
    requires !Quoted(b, start, []).Open? && Quoted(b, start, []).at == close
    requires !escaped ==> Quoted(b, start, []).text == b[start..close]
    requires Spells(ranges0, b, scratch0, acc) && |scratch0| <= start
    ensures Spells(ranges, b, scratch, acc + [Field(Quoted(b, start, []).text, true)]) && |scratch| <= close
  {
    ghost var text := Quoted(b, start, []).text;
    if escaped {
      var s0 := |scratch0|;
      scratch := Unescape(b, start, close, scratch0);
      assert scratch[s0..] == text;
      SpellsMore(ranges0, b, scratch0, acc, Range(s0 + IN_SCRATCH, |scratch|), text, Field(text, true));
      ranges := ranges0 + [Range(s0 + IN_SCRATCH, |scratch|)];
    } else {
      scratch := scratch0;
      assert scratch + [] == scratch;
      SpellsMore(ranges0, b, scratch, acc, Range(start, close), [], Field(text, true));
      ranges := ranges0 + [Range(start, close)];
    }
  }

  method QuotedField(b: seq<byte>, i: nat, eof: bool, delim: byte, ranges0: seq<Range>, scratch0: seq<byte>, ghost acc: seq<Field>)
      returns (r: FieldScan, ranges: seq<Range>, scratch: seq<byte>, ghost acc': seq<Field>)
    requires |b| <= MAX_RECORD && i < |b| && b[i] == QUOTE
    requires Spells(ranges0, b, scratch0, acc) && |scratch0| <= i
    ensures FieldStep(b, i, eof, delim, acc, r, ranges, scratch, acc')
  {
    ranges, scratch, acc' := ranges0, scratch0, acc;
    var start := i + 1;
    var c := FindClose(b, start, eof);
    if c.NoClose? { return Stop(if eof then Fail(Unterminated) else Need), ranges, scratch, acc'; }
    if c.AtEdge? { return Stop(Need), ranges, scratch, acc'; }
    ranges, scratch := QuotedRange(b, start, c.close, c.escaped, ranges, scratch, acc);
    acc' := acc + [Field(Quoted(b, start, []).text, true)];
    return Next(c.close + 1), ranges, scratch, acc';
  }

  method PlainField(b: seq<byte>, i: nat, eof: bool, delim: byte, ranges0: seq<Range>, scratch: seq<byte>, ghost acc: seq<Field>)
      returns (r: FieldScan, ranges: seq<Range>, ghost acc': seq<Field>)
    requires |b| <= MAX_RECORD && i <= |b| && !(i < |b| && b[i] == QUOTE)
    requires delim != QUOTE && (i > 0 ==> b[i - 1] == delim)
    requires Spells(ranges0, b, scratch, acc) && |scratch| <= i
    ensures FieldStep(b, i, eof, delim, acc, r, ranges, scratch, acc')
  {
    ranges, acc' := ranges0, acc;
    var e := Find2(b, i, delim, LF);
    if e == |b| && !eof { return Stop(Need), ranges, acc'; }
    var end := if e < |b| && b[e] == LF && e > i && b[e - 1] == CR then e - 1 else e;
    assert scratch + [] == scratch;
    SpellsMore(ranges, b, scratch, acc, Range(i, end), [], Field(b[i..end], false));
    return Next(e), ranges + [Range(i, end)], acc + [Field(b[i..end], false)];
  }

  /** The splitter: field after field from the front of the window, until a line
  ends, the text is malformed or the window runs out.  The ranges it pushes
  spell the record's fields, each with its quotedness exact. */
  method ScanRecord(b: seq<byte>, eof: bool, delim: byte)
      returns (out: Scan, ranges: seq<Range>, scratch: seq<byte>)
    requires |b| <= MAX_RECORD && delim != QUOTE
    ensures Amounts(out, ranges, b, scratch, Record(b, eof, delim))
  {
    ranges, scratch := [], [];
    var i := 0;
    ghost var acc: seq<Field> := [];
    while true
      invariant i <= |b| && Record(b, eof, delim) == RecordFrom(b, i, eof, delim, acc)
      invariant Spells(ranges, b, scratch, acc) && |scratch| <= i
      invariant i > 0 ==> b[i - 1] == delim
      decreases |b| - i
    {
      var r: FieldScan;
      if i < |b| && b[i] == QUOTE {
        r, ranges, scratch, acc := QuotedField(b, i, eof, delim, ranges, scratch, acc);
      } else {
        r, ranges, acc := PlainField(b, i, eof, delim, ranges, scratch, acc);
      }
      if r.Stop? { return r.why, ranges, scratch; }
      i := r.at;
      if i == |b| { return if eof then Done(i) else Need, ranges, scratch; }
      if b[i] == delim {
        i := i + 1;
      } else {
        if b[i] == LF { return Done(i + 1), ranges, scratch; }
        if b[i] != CR { return Fail(Stray(b[i])), ranges, scratch; }
        if i + 1 == |b| { return if eof then Done(i + 1) else Need, ranges, scratch; }
        if b[i + 1] == LF { return Done(i + 2), ranges, scratch; }
        return Fail(Stray(CR)), ranges, scratch;
      }
    }
  }
}
