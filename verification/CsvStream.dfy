/** Reading records through a window that is refilled by reads of any size. */
module CsvStream {
  import opened Basics
  import opened Scanning
  import opened Csv

  const WINDOW: nat := 0x4_0000

  // ------------------------------------------------ what more input cannot change

  lemma {:induction false} QuotedGrows(b: seq<byte>, w: seq<byte>, i: nat, acc: seq<byte>)
    requires b <= w && i <= |b| && Quoted(b, i, acc).Closed?
    ensures Quoted(w, i, acc) == Quoted(b, i, acc)
    decreases |b| - i
  {
    if b[i] != QUOTE {
      QuotedGrows(b, w, i + 1, acc + [b[i]]);
    } else if b[i + 1] == QUOTE {
      QuotedGrows(b, w, i + 2, acc + [QUOTE]);
    }
  }

  lemma {:induction false} FirstGrows(b: seq<byte>, w: seq<byte>, i: nat, a: byte, c: byte)
    requires b <= w && i <= |b| && FirstOf(b, i, a, c) < |b|
    ensures FirstOf(w, i, a, c) == FirstOf(b, i, a, c)
  {
    FirstOfIs(w, i, a, c, FirstOf(b, i, a, c));
  }

  /** A record decided before the end of input is known is decided for good. */
  lemma {:induction false} RecordGrows(b: seq<byte>, w: seq<byte>, i: nat, eof: bool, delim: byte, acc: seq<Field>)
    requires b <= w && i <= |b| && RecordFrom(b, i, false, delim, acc) != More
    ensures RecordFrom(w, i, eof, delim, acc) == RecordFrom(b, i, false, delim, acc)
    decreases |b| - i, 1
  {
    if i < |b| && b[i] == QUOTE {
      QuotedGrows(b, w, i + 1, []);
      var q := Quoted(b, i + 1, []);
      AfterGrows(b, w, q.at + 1, eof, delim, acc + [Field(q.text, true)]);
    } else {
      FirstGrows(b, w, i, delim, LF);
      var e := FirstOf(b, i, delim, LF);
      assert b[i..Trimmed(b, i, e)] == w[i..Trimmed(w, i, e)];
      AfterGrows(b, w, e, eof, delim, acc + [Field(b[i..Trimmed(b, i, e)], false)]);
    }
  }

  lemma {:induction false} AfterGrows(b: seq<byte>, w: seq<byte>, i: nat, eof: bool, delim: byte, acc: seq<Field>)
    requires b <= w && i <= |b| && After(b, i, false, delim, acc) != More
    ensures After(w, i, eof, delim, acc) == After(b, i, false, delim, acc)
    decreases |b| - i, 0
  {
    if b[i] == delim { RecordGrows(b, w, i + 1, eof, delim, acc); }
  }

  /** At the end of input every record is decided, and a completed one uses at
  least one byte of a non-empty window. */
  lemma {:induction false} RecordDecided(b: seq<byte>, i: nat, eof: bool, delim: byte, acc: seq<Field>)
    requires i <= |b|
    ensures var r := RecordFrom(b, i, eof, delim, acc);
      && (eof ==> r != More)
      && (r.Row? ==> i <= r.used <= |b| && (i < |b| ==> i < r.used))
    decreases |b| - i, 1
  {
    if i < |b| && b[i] == QUOTE {
      var q := Quoted(b, i + 1, []);
      if !q.Open? { AfterDecided(b, q.at + 1, eof, delim, acc + [Field(q.text, true)]); }
    } else {
      var e := FirstOf(b, i, delim, LF);
      AfterDecided(b, e, eof, delim, acc + [Field(b[i..Trimmed(b, i, e)], false)]);
    }
  }

  lemma {:induction false} AfterDecided(b: seq<byte>, i: nat, eof: bool, delim: byte, acc: seq<Field>)
    requires i <= |b|
    ensures var r := After(b, i, eof, delim, acc);
      && (eof ==> r != More)
      && (r.Row? ==> i <= r.used <= |b| && (i < |b| ==> i < r.used))
    decreases |b| - i, 0
  {
    if i < |b| && b[i] == delim { RecordDecided(b, i + 1, eof, delim, acc); }
  }

  // ------------------------------------------------------------- the whole stream

  datatype Ending = Ended | Malformed(error: ScanError) | TooWide
  datatype Parsed = Parsed(rows: seq<seq<Field>>, ending: Ending)

  /** The next record's first `MAX_RECORD` bytes do not settle it. */
  predicate Wide(s: seq<byte>, delim: byte) { |s| >= MAX_RECORD && Record(s[..MAX_RECORD], false, delim) == More }

  /** One scan of the whole input: the records up to its end, the first
  malformed one, or the first one too wide to hold. */
  function Parse(s: seq<byte>, delim: byte): Parsed
    decreases |s|
  {
    if s == [] then Parsed([], Ended)
    else if Wide(s, delim) then Parsed([], TooWide)
    else
      match Record(s, true, delim)
      case Row(fields, used) =>
        RecordDecided(s, 0, true, delim, []);
        var rest := Parse(s[used..], delim);
        Parsed([fields] + rest.rows, rest.ending)
      case Bad(e) => Parsed([], Malformed(e))
      case More => Parsed([], Ended)
  }

  // ------------------------------------------------------------------ the reader

  /** A byte stream whose reads return as much or as little as they like, and
  nothing only at its end. */
  class Source {
    var rest: seq<byte>

    constructor (s: seq<byte>)
      ensures rest == s
    {
      rest := s;
    }

    method Read(room: nat) returns (chunk: seq<byte>)
      requires room > 0
      modifies this
      ensures old(rest) == chunk + rest && |chunk| <= room
      ensures chunk == [] <==> old(rest) == []
    {
      if rest == [] { return []; }
      var n: nat :| 1 <= n <= room && n <= |rest|;
      chunk := rest[..n];
      rest := rest[n..];
    }
  }

  datatype Got = Found | End | Error(error: ScanError) | Refused

  /** The window doubles from its first size up to the record limit. */
  predicate Capacity(n: nat) {
    n == WINDOW || n == 2 * WINDOW || n == 4 * WINDOW || n == 8 * WINDOW || n == 16 * WINDOW
    || n == 32 * WINDOW || n == 64 * WINDOW || n == 128 * WINDOW || n == 256 * WINDOW
  }

  class Records {
    const src: Source
    const delim: byte
    var buf: array<byte>
    var fill: nat
    var pos: nat
    var end: nat
    var eof: bool
    var scratch: seq<byte>
    var ranges: seq<Range>
    var line: nat
    var bytes: nat

    ghost predicate Valid()
      reads this, buf, src
    {
      && pos <= end <= fill <= buf.Length && Capacity(buf.Length)
      && (eof ==> src.rest == [] && fill < buf.Length)
      && delim != QUOTE
    }

    /** The input no record has been returned from yet. */
    ghost function Remaining(): seq<byte>
      reads this, buf, src
      requires Valid()
    {
      buf[end..fill] + src.rest
    }

    /** Read every field of the current record. */
    method Fields(ghost expected: seq<Field>) returns (fields: seq<Field>)
      requires Valid() && Current(expected)
      ensures fields == expected
    {
      fields := [];
      for i := 0 to |ranges|
        invariant |fields| == i && fields == expected[..i]
      {
        fields := fields + [View(ranges[i], buf[pos..fill], scratch)];
      }
    }

    /** The fields of the current record. */
    ghost predicate Current(fields: seq<Field>)
      reads this, buf, src
      requires Valid()
    {
      Spells(ranges, buf[pos..fill], scratch, fields)
    }

    constructor (src: Source, delim: byte)
      requires delim != QUOTE
      ensures Valid() && fresh(buf) && Remaining() == src.rest && this.src == src && this.delim == delim
      ensures line == 0 && bytes == 0
    {
      this.src, this.delim := src, delim;
      buf := new byte[WINDOW];
      fill, pos, end, eof, scratch, ranges, line, bytes := 0, 0, 0, false, [], [], 0, 0;
    }

    /** Move the record being scanned to the front of the window. */
    method Slide()
      requires Valid() && pos == end
      modifies this`fill, this`pos, this`end, buf
      ensures Valid() && pos == end == 0 && buf[..fill] == old(buf[pos..fill])
    {
      if pos > 0 {
        forall k | 0 <= k < fill - pos { buf[k] := buf[pos + k]; }
        assert buf[..fill - pos] == old(buf[pos..fill]);
        fill, pos, end := fill - pos, 0, 0;
      }
    }

    /** Double a full window, up to the record limit. */
    method Grow() returns (ok: bool)
      requires Valid() && pos == end == 0 && !eof
      modifies this`buf
      ensures Valid() && (buf == old(buf) || fresh(buf)) && buf[..fill] == old(buf[..fill])
      ensures ok ==> fill < buf.Length
      ensures !ok ==> fill == MAX_RECORD
    {
      if fill < buf.Length { return true; }
      var want := buf.Length * 2;
      if want > MAX_RECORD { return false; }
      var wider := new byte[want];
      forall k | 0 <= k < fill { wider[k] := buf[k]; }
      assert wider[..fill] == buf[..fill];
      buf := wider;
      return true;
    }

    /** One read into the free end of the window; an empty one is the end. */
    method Receive()
      requires Valid() && fill < buf.Length && !eof
      modifies this`fill, this`eof, buf, src
      ensures Valid() && old(fill) <= fill && buf[..old(fill)] == old(buf[..fill])
      ensures old(src.rest) == buf[old(fill)..fill] + src.rest
      ensures if eof then fill == old(fill) else fill > old(fill)
    {
      var chunk := src.Read(buf.Length - fill);
      forall k | 0 <= k < |chunk| { buf[fill + k] := chunk[k]; }
      assert buf[fill..fill + |chunk|] == chunk;
      assert buf[..fill] == old(buf[..fill]);
      fill := fill + |chunk|;
      eof := eof || |chunk| == 0;
    }

    /** Make room, then read once. */
    method Refill() returns (ok: bool)
      requires Valid() && pos == end && !eof
      modifies this`buf, this`fill, this`pos, this`end, this`eof, buf, src
      ensures Valid() && pos == end && (buf == old(buf) || fresh(buf))
      ensures Remaining() == old(Remaining())
      ensures ok ==> |src.rest| < old(|src.rest|) || (eof && src.rest == old(src.rest))
      ensures !ok ==> old(fill - pos) == MAX_RECORD
    {
      Slide();
      ghost var kept := buf[..fill];
      ok := Grow();
      assert buf[..fill] == buf[pos..fill] == kept;
      if !ok { return; }
      ghost var held, coming := fill, src.rest;
      Receive();
      assert buf[..fill] == buf[..held] + buf[held..fill];
      assert buf[end..fill] + src.rest == kept + coming;
    }

    method Deliver(k: nat)
      requires Valid() && pos == end && k <= fill - pos
      modifies this`end, this`bytes, this`line
      ensures Valid() && Remaining() == old(Remaining())[k..]
      ensures line == old(line) + 1 && bytes == old(bytes) + k
    {
      end := pos + k;
      bytes := bytes + k;
      line := line + 1;
      assert buf[end..fill] + src.rest == (buf[pos..fill] + src.rest)[k..];
    }

    /** Split the window as it stands. */
    method ScanWindow(ghost s: seq<byte>) returns (scan: Scan)
      requires Valid() && pos == end && !(pos == fill && eof) && s == Remaining()
      modifies this`ranges, this`scratch
      ensures Valid()
      ensures match scan
        case Done(k) =>
          && s != [] && !Wide(s, delim) && Record(s, true, delim).Row?
          && Record(s, true, delim).used == k <= fill - pos && Current(Record(s, true, delim).fields)
        case Fail(e) => s != [] && !Wide(s, delim) && Record(s, true, delim) == Bad(e)
        case Need => !eof && Record(buf[pos..fill], false, delim) == More
    {
      ghost var window := buf[pos..fill];
      scan, ranges, scratch := ScanRecord(buf[pos..fill], eof, delim);
      WindowDecides(window, src.rest, eof, delim);
      assert s == window + src.rest;
    }

    /** Advance to the next record.  What it answers depends on the bytes that
    remain, never on how reads split them. */
    method Next() returns (r: Got)
      requires Valid()
      modifies this, buf, src
      ensures Valid() && (buf == old(buf) || fresh(buf))
      ensures var s := old(Remaining());
        match r
        case End => s == [] && Remaining() == s
        case Refused => Wide(s, delim) && Remaining() == s
        case Error(e) => s != [] && !Wide(s, delim) && Record(s, true, delim) == Bad(e) && Remaining() == s
        case Found =>
          && s != [] && !Wide(s, delim) && Record(s, true, delim).Row?
          && Current(Record(s, true, delim).fields)
          && Record(s, true, delim).used <= |s|
          && Remaining() == s[Record(s, true, delim).used..]
          && line == old(line) + 1 && bytes == old(bytes) + Record(s, true, delim).used
    {
      ghost var s := Remaining();
      pos := end;
      while true
        invariant Valid() && pos == end && (buf == old(buf) || fresh(buf))
        invariant Remaining() == s && line == old(line) && bytes == old(bytes)
        decreases |src.rest|, if eof then 0 else 1
      {
        if pos == fill && eof { return End; }
        var scan := ScanWindow(s);
        match scan {
          case Done(k) =>
            Deliver(k);
            return Found;
          case Fail(e) => return Error(e);
          case Need =>
            FullWindowIsWide(buf[pos..fill], src.rest, delim);
            var ok := Refill();
            if !ok { return Refused; }
        }
      }
    }
  }

  /** A window and what follows it: whatever the window decides is what the
  whole decides, and no record it decides is too wide. */
  lemma {:induction false} WindowDecides(window: seq<byte>, rest: seq<byte>, eof: bool, delim: byte)
    requires |window| <= MAX_RECORD && (eof ==> rest == [] && |window| < MAX_RECORD)
    ensures var o := Record(window, eof, delim); var s := window + rest;
      && (o != More && s != [] ==> Record(s, true, delim) == o && !Wide(s, delim))
      && (o.Row? ==> o.used <= |window| && (s != [] && window != [] ==> o.used > 0))
      && (eof ==> o != More)
      && (window == [] && !eof ==> o == More)
  {
    var o, s := Record(window, eof, delim), window + rest;
    RecordDecided(window, 0, eof, delim, []);
    if eof {
      assert s == window;
    } else if o != More {
      RecordGrows(window, s, 0, true, delim, []);
      if |s| >= MAX_RECORD {
        assert window <= s[..MAX_RECORD];
        RecordGrows(window, s[..MAX_RECORD], 0, false, delim, []);
      }
    }
  }

  /** A full window that decides nothing makes the record too wide. */
  lemma {:induction false} FullWindowIsWide(window: seq<byte>, rest: seq<byte>, delim: byte)
    requires Record(window, false, delim) == More
    ensures |window| == MAX_RECORD ==> Wide(window + rest, delim)
  {
    if |window| == MAX_RECORD { assert (window + rest)[..MAX_RECORD] == window; }
  }

  /** `rows` were read from the front of `s`, and `left` is what remains. */
  predicate ReadSoFar(s: seq<byte>, rows: seq<seq<Field>>, left: seq<byte>, delim: byte) {
    Parse(s, delim) == Parsed(rows + Parse(left, delim).rows, Parse(left, delim).ending)
  }

  lemma {:induction false} ReadOne(s: seq<byte>, rows: seq<seq<Field>>, left: seq<byte>, delim: byte)
    requires ReadSoFar(s, rows, left, delim) && left != [] && !Wide(left, delim) && Record(left, true, delim).Row?
    ensures var r := Record(left, true, delim);
      0 < r.used <= |left| && ReadSoFar(s, rows + [r.fields], left[r.used..], delim)
  {
    RecordDecided(left, 0, true, delim, []);
    var r := Record(left, true, delim);
    var rest := Parse(left[r.used..], delim).rows;
    assert rows + ([r.fields] + rest) == rows + [r.fields] + rest;
  }

  /** Read every record: the answer is that of one scan of the whole input, for
  any input and any reads. */
  method ReadAll(recs: Records) returns (rows: seq<seq<Field>>, ending: Ending)
    requires recs.Valid()
    modifies recs, recs.buf, recs.src
    ensures Parsed(rows, ending) == Parse(old(recs.Remaining()), recs.delim)
  {
    ghost var s := recs.Remaining();
    rows := [];
    assert [] + Parse(s, recs.delim).rows == Parse(s, recs.delim).rows;
    while true
      invariant recs.Valid() && (recs.buf == old(recs.buf) || fresh(recs.buf))
      invariant ReadSoFar(s, rows, recs.Remaining(), recs.delim)
      decreases |recs.Remaining()|
    {
      ghost var left := recs.Remaining();
      RecordDecided(left, 0, true, recs.delim, []);
      var r := recs.Next();
      assert rows + [] == rows;
      match r {
        case End => return rows, Ended;
        case Refused => return rows, TooWide;
        case Error(e) => return rows, Malformed(e);
        case Found =>
          ReadOne(s, rows, left, recs.delim);
          var fields := recs.Fields(Record(left, true, recs.delim).fields);
          rows := rows + [fields];
      }
    }
  }
}
