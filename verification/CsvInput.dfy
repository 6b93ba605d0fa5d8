/** Which inputs are which records, over the whole stream. */
module CsvInput {
  import opened Basics
  import opened Csv
  import opened CsvGrammar
  import opened CsvStream

  /** Nothing can be said of the first record from its first `MAX_RECORD` bytes:
  they neither begin with a record nor are refused. */
  ghost predicate Undecided(s: seq<byte>, delim: byte) {
    && |s| >= MAX_RECORD
    && (forall fields, used :: !SomeRecord(s[..MAX_RECORD], false, delim, fields, used))
    && (forall e :: !IsRefused(s[..MAX_RECORD], 0, false, delim, e))
  }

  lemma {:induction false} WideIff(s: seq<byte>, delim: byte)
    requires Dialect(delim)
    ensures Wide(s, delim) <==> Undecided(s, delim)
  {
    if |s| >= MAX_RECORD {
      var b := s[..MAX_RECORD];
      forall fields, used ensures Record(b, false, delim) == Row(fields, used) <==> SomeRecord(b, false, delim, fields, used) {
        RecordIff(b, false, delim, fields, used);
      }
      forall e ensures Record(b, false, delim) == Bad(e) <==> IsRefused(b, 0, false, delim, e) { BadIff(b, false, delim, e); }
      match Record(b, false, delim)
      case Row(fields, used) => assert SomeRecord(b, false, delim, fields, used);
      case Bad(e) => assert IsRefused(b, 0, false, delim, e);
      case More =>
    }
  }

  /** `s` is these records, one after the other, and then its end, a record that
  is refused or one too wide to hold. */
  ghost predicate StreamOf(s: seq<byte>, delim: byte, rows: seq<seq<Field>>, ending: Ending)
    decreases |rows|
  {
    if rows == [] then
      match ending
      case Ended => s == []
      case Malformed(e) => s != [] && !Undecided(s, delim) && IsRefused(s, 0, true, delim, e)
      case TooWide => s != [] && Undecided(s, delim)
    else
      && s != [] && !Undecided(s, delim)
      && exists used: nat :: 0 < used <= |s| && SomeRecord(s, true, delim, rows[0], used) && StreamOf(s[used..], delim, rows[1..], ending)
  }

  lemma {:induction false} OneRecord(s: seq<byte>, delim: byte, rows: seq<seq<Field>>, ending: Ending, used: nat)
    requires Dialect(delim) && s != [] && !Wide(s, delim) && rows != [] && 0 < used <= |s|
    requires Record(s, true, delim) == Row(rows[0], used)
    ensures Parse(s, delim) == Parsed(rows, ending) <==> Parse(s[used..], delim) == Parsed(rows[1..], ending)
  {
    var rest := Parse(s[used..], delim);
    if Parse(s, delim) == Parsed(rows, ending) { assert ([rows[0]] + rest.rows)[1..] == rest.rows; }
    assert [rows[0]] + rows[1..] == rows;
  }

  /** An input is read as these records with this ending if and only if it is
  that, byte for byte. */
  lemma {:induction false} ParseIff(s: seq<byte>, delim: byte, rows: seq<seq<Field>>, ending: Ending)
    requires Dialect(delim)
    ensures Parse(s, delim) == Parsed(rows, ending) <==> StreamOf(s, delim, rows, ending)
    decreases |rows|, 1
  {
    WideIff(s, delim);
    if s != [] {
      RecordDecided(s, 0, true, delim, []);
      if rows == [] { ParseNone(s, delim, ending); } else { ParseSome(s, delim, rows, ending); }
    }
  }

  lemma {:induction false} ParseNone(s: seq<byte>, delim: byte, ending: Ending)
    requires Dialect(delim) && s != [] && (Wide(s, delim) <==> Undecided(s, delim))
    ensures Parse(s, delim) == Parsed([], ending) <==> StreamOf(s, delim, [], ending)
  {
    RecordDecided(s, 0, true, delim, []);
    if ending.Malformed? { BadIff(s, true, delim, ending.error); }
  }

  lemma {:induction false} ParseSome(s: seq<byte>, delim: byte, rows: seq<seq<Field>>, ending: Ending)
    requires Dialect(delim) && s != [] && rows != [] && (Wide(s, delim) <==> Undecided(s, delim))
    ensures Parse(s, delim) == Parsed(rows, ending) <==> StreamOf(s, delim, rows, ending)
    decreases |rows|, 0
  {
    RecordDecided(s, 0, true, delim, []);
    if Parse(s, delim) == Parsed(rows, ending) {
      var used := Record(s, true, delim).used;
      RecordIff(s, true, delim, rows[0], used);
      OneRecord(s, delim, rows, ending, used);
      ParseIff(s[used..], delim, rows[1..], ending);
    }
    if StreamOf(s, delim, rows, ending) {
      var used: nat :| 0 < used <= |s| && SomeRecord(s, true, delim, rows[0], used) && StreamOf(s[used..], delim, rows[1..], ending);
      RecordIff(s, true, delim, rows[0], used);
      OneRecord(s, delim, rows, ending, used);
      ParseIff(s[used..], delim, rows[1..], ending);
    }
  }
}
