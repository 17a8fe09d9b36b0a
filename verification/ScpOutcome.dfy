/** Every way in which a download can end, by what the remote sends, and what a file record is. */
module ScpOutcome {
  import opened Bytes
  import opened Digits
  import opened ScpRecord
  import opened Scp

  // ---- The outcome of a download ---------------------------------------------------------------

  predicate NoFeed(s: seq<byte>) {
    forall j :: 0 <= j < |s| ==> s[j] != 10
  }

  /** How the first line that is not a timestamp ends a transfer, unless it is a file record. */
  predicate RefusedBy(line: seq<byte>, r: Download)
    requires line != []
  {
    if line[0] == 1 || line[0] == 2 then r == Failed(Remote)
    else if line[0] == 68 || line[0] == 69 then r == Failed(Directory)
    else if line[0] == 67 then r == Failed(BadRecord)
    else r == Failed(UnexpectedControl)
  }

  /** What becomes of a file of this size, given what follows its record. */
  predicate BodyEnds(meta: Meta, size: nat, rest: seq<byte>, r: Download) {
    if |rest| <= size then r == Failed(AckEnded)
    else if rest[size] == 0 then r == File(meta, rest[..size])
    else if rest[size] == 1 || rest[size] == 2 then r == Failed(Remote)
    else r == Failed(UnexpectedAck)
  }

  /**
   After k timestamps, what is left is nothing, part of a line, or a line and the rest; a negative size counts as none.
   Written are a zero to begin with, one for each timestamp, one for a file record and one for a complete file.
   */
  predicate After(k: nat, line: seq<byte>, rest: seq<byte>, r: Download, written: seq<byte>) {
    if NoFeed(line) then
      rest == [] && r == Failed(if line == [] then NoFile else ControlEnded) && written == Nuls(1 + k)
    else
      && IsLine(line) && line[0] != 84
      && if line[0] != 67 || Parse(line).None? then RefusedBy(line, r) && written == Nuls(1 + k)
         else
           && BodyEnds(Parse(line).value, if Parse(line).value.size > 0 then Parse(line).value.size else 0, rest, r)
           && written == Nuls(if r.File? then 3 + k else 2 + k)
  }

  /** The input is timestamps and then this, with that result. */
  ghost predicate Comes(input: seq<byte>, ts: seq<seq<byte>>, line: seq<byte>, rest: seq<byte>,
                        r: Download, written: seq<byte>) {
    && input == Flatten(ts) + line + rest
    && (forall k :: 0 <= k < |ts| ==> IsLine(ts[k]) && ts[k][0] == 84)
    && After(|ts|, line, rest, r, written)
  }

  /** The timestamps at the front, and the line that follows, whole or not. */
  lemma {:induction false} Sections(input: seq<byte>) returns (ts: seq<seq<byte>>, line: seq<byte>, rest: seq<byte>)
    ensures input == Flatten(ts) + line + rest && forall k :: 0 <= k < |ts| ==> IsTimestamp(ts[k])
    ensures NoFeed(line) ==> rest == []
    ensures !NoFeed(line) ==> IsLine(line) && line[0] != 84
    decreases |input|
  {
    if NoFeed(input) {
      ts, line, rest := [], input, [];
    } else {
      var n := FirstLine(input);
      if input[0] == 84 {
        ts, line, rest := Sections(input[n..]);
        FlattenCons(input[..n], ts);
        Regroup(input[..n], Flatten(ts), line, rest);
        assert input == input[..n] + input[n..];
        ts := [input[..n]] + ts;
      } else {
        ts, line, rest := [], input[..n], input[n..];
      }
    }
  }

  lemma NulsThen(k: nat)
    ensures [NUL] + Nuls(k) == Nuls(1 + k) && Nuls(1 + k) + [NUL] == Nuls(2 + k)
  {
  }

  /** The receiver after a record whose body has this size. */
  lemma BodyOutcome(meta: Meta, w: seq<byte>, rest: seq<byte>)
    ensures var s := RunSink(Sink(if BodyLen(meta) == 0 then Status(meta, []) else Body(meta, []), w), rest);
            BodyEnds(meta, BodyLen(meta), rest, AtEnd(s.phase)) && s.written == if s.phase.Stored? then w + [NUL] else w
  {
    var s := Sink(if BodyLen(meta) == 0 then Status(meta, []) else Body(meta, []), w);
    var n := BodyLen(meta);
    if |rest| <= n {
      RunAccepted(meta, w, rest);
    } else {
      RunThen(s, rest[..n], rest[n..], Sink(Status(meta, rest[..n]), w)) by {
        RunAccepted(meta, w, rest[..n]);
      }
      assert rest == rest[..n] + rest[n..];
      StatusOutcome(meta, rest[..n], w, rest[n..]);
    }
  }

  lemma StatusOutcome(meta: Meta, body: seq<byte>, w: seq<byte>, rest: seq<byte>)
    requires rest != []
    ensures RunSink(Sink(Status(meta, body), w), rest)
            == if rest[0] == NUL then Sink(Stored(meta, body), w + [NUL]) else Sink(Refused(AckError(rest[0])), w)
  {
    RunSinkOver(SinkStep(Sink(Status(meta, body), w), rest[0]), rest[1..]);
  }

  /** What a line that is not a timestamp leads to when this much has been written before it. */
  predicate LineEnds(line: seq<byte>, rest: seq<byte>, r: Download, written: seq<byte>, w: seq<byte>)
    requires line != []
  {
    if line[0] != 67 || Parse(line).None? then RefusedBy(line, r) && written == w
    else BodyEnds(Parse(line).value, BodyLen(Parse(line).value), rest, r)
         && written == if r.File? then w + [NUL] + [NUL] else w + [NUL]
  }

  lemma LineRefused(w: seq<byte>, line: seq<byte>, rest: seq<byte>)
    requires line != [] && line[0] != 84 && (line[0] != 67 || Parse(line).None?)
    ensures var s := RunSink(OnLine(line, w), rest); RefusedBy(line, AtEnd(s.phase)) && s.written == w
  {
    RunSinkOver(OnLine(line, w), rest);
  }

  lemma LineAccepted(w: seq<byte>, line: seq<byte>, rest: seq<byte>, meta: Meta)
    requires line != [] && line[0] == 67 && Parse(line) == Some(meta)
    ensures var s := RunSink(OnLine(line, w), rest);
            && BodyEnds(meta, BodyLen(meta), rest, AtEnd(s.phase))
            && s.written == if s.phase.Stored? then w + [NUL] + [NUL] else w + [NUL]
  {
    BodyOutcome(meta, w + [NUL], rest);
  }

  lemma LineDecides(w: seq<byte>, line: seq<byte>, rest: seq<byte>, s: Sink)
    requires line != [] && line[0] != 84 && s == RunSink(OnLine(line, w), rest)
    ensures LineEnds(line, rest, AtEnd(s.phase), s.written, w)
  {
    if line[0] != 67 || Parse(line).None? {
      LineRefused(w, line, rest);
    } else {
      LineAccepted(w, line, rest, Parse(line).value);
    }
  }

  /** A whole line that is not a timestamp decides, with what follows it. */
  lemma LineOutcome(w: seq<byte>, line: seq<byte>, rest: seq<byte>)
    requires IsLine(line) && line[0] != 84
    ensures var s := RunSink(Sink(Control([]), w), line + rest);
            LineEnds(line, rest, AtEnd(s.phase), s.written, w)
  {
    RunLine(w, line);
    RunThen(Sink(Control([]), w), line, rest, OnLine(line, w));
    LineDecides(w, line, rest, RunSink(OnLine(line, w), rest));
  }

  lemma PartOutcome(w: seq<byte>, part: seq<byte>)
    requires NoFeed(part)
    ensures RunSink(Sink(Control([]), w), part) == Sink(Control(part), w)
  {
    RunWithinLine([], w, part);
    assert [] + part == part;
  }

  lemma PartTail(k: nat, line: seq<byte>)
    requires NoFeed(line)
    ensures var s := RunSink(Sink(Control([]), Nuls(1 + k)), line);
            After(k, line, [], AtEnd(s.phase), s.written)
  {
    PartOutcome(Nuls(1 + k), line);
  }

  lemma MoreNuls(k: nat, w: seq<byte>)
    requires w == Nuls(1 + k)
    ensures w + [NUL] == Nuls(2 + k) && w + [NUL] + [NUL] == Nuls(3 + k)
  {
  }

  lemma LineTail(k: nat, line: seq<byte>, rest: seq<byte>, r: Download, written: seq<byte>, w: seq<byte>)
    requires IsLine(line) && line[0] != 84 && w == Nuls(1 + k) && LineEnds(line, rest, r, written, w)
    ensures After(k, line, rest, r, written)
  {
    MoreNuls(k, w);
    assert line[|line| - 1] == 10;
  }

  lemma TailOutcome(k: nat, line: seq<byte>, rest: seq<byte>)
    requires NoFeed(line) ==> rest == []
    requires !NoFeed(line) ==> IsLine(line) && line[0] != 84
    ensures var s := RunSink(Sink(Control([]), Nuls(1 + k)), line + rest);
            After(k, line, rest, AtEnd(s.phase), s.written)
  {
    if NoFeed(line) {
      PartTail(k, line);
      assert line + rest == line;
    } else {
      var w := Nuls(1 + k);
      var s := RunSink(Sink(Control([]), w), line + rest);
      LineOutcome(w, line, rest);
      LineTail(k, line, rest, AtEnd(s.phase), s.written, w);
    }
  }

  /** Every input a download can meet, with its result and everything written in reply. */
  lemma DownloadComes(input: seq<byte>) returns (ts: seq<seq<byte>>, line: seq<byte>, rest: seq<byte>)
    ensures var s := RunSink(INIT_SINK, input); Comes(input, ts, line, rest, AtEnd(s.phase), s.written)
  {
    ts, line, rest := Sections(input);
    RunTimestamps(ts, [NUL]);
    NulsThen(|ts|);
    RunThen(INIT_SINK, Flatten(ts), line + rest, Sink(Control([]), Nuls(1 + |ts|)));
    assert input == Flatten(ts) + (line + rest);
    TailOutcome(|ts|, line, rest);
  }

  // ---- What a file record is -----------------------------------------------------------------------

  predicate NoSpace(s: seq<byte>) {
    forall j :: 0 <= j < |s| ==> s[j] != 32
  }

  /** A decimal number with an optional sign, within 64 bits. */
  predicate IsDecimal(s: seq<byte>, n: int) {
    var digits := if s != [] && (s[0] == 43 || s[0] == 45) then s[1..] else s;
    && digits != [] && AllDigits(10, digits)
    && n == (if s[0] == 45 then 0 - Value(10, digits) else Value(10, digits))
    && 0 - 0x8000_0000_0000_0000 <= n < 0x8000_0000_0000_0000
  }

  /** C, octal digits of at most 32 bits, a space, a decimal number, a space, and the name as it stands. */
  ghost predicate IsRecord(text: seq<byte>, mode: seq<byte>, length: seq<byte>, meta: Meta) {
    && text == [67] + mode + [32] + length + [32] + meta.name
    && mode != [] && AllDigits(8, mode) && Value(8, mode) < 0x1_0000_0000 && meta.perm == Value(8, mode) % 512
    && IsDecimal(length, meta.size)
  }

  lemma ParseIntExactly(s: seq<byte>, n: int)
    ensures ParseInt(s, SIZE_HALF) == Some(n) <==> IsDecimal(s, n)
  {
  }

  lemma DecimalHasNoSpace(s: seq<byte>, n: int)
    requires IsDecimal(s, n)
    ensures NoSpace(s)
  {
    var digits := if s[0] == 43 || s[0] == 45 then s[1..] else s;
    NoSpaceInDigits(10, digits);
    forall j | 0 <= j < |s|
      ensures s[j] != 32
    {
      assert digits != s ==> j == 0 || s[j] == digits[j - 1];
    }
  }

  /** The first of several fields. */
  lemma SplitFirst(s: seq<byte>, n: nat) returns (a: seq<byte>, t: seq<byte>)
    requires n >= 2 && |SplitN(s, n)| == n
    ensures s == a + [32] + t && SplitN(s, n) == [a] + SplitN(t, n - 1) && |SplitN(t, n - 1)| == n - 1
  {
    var i := IndexOf(s, SP);
    a, t := s[..i], s[i + 1..];
  }

  /** Two fields and the rest. */
  lemma SplitParts(s: seq<byte>) returns (a: seq<byte>, b: seq<byte>, c: seq<byte>)
    requires |SplitN(s, 3)| == 3
    ensures SplitN(s, 3) == [a, b, c] && s == a + [32] + b + [32] + c
  {
    var t;
    a, t := SplitFirst(s, 3);
    b, c := SplitFirst(t, 2);
    Joined(a, b, c);
  }

  lemma Joined(a: seq<byte>, b: seq<byte>, c: seq<byte>)
    ensures a + [32] + (b + [32] + c) == a + [32] + b + [32] + c
  {
  }

  lemma RecordParses(line: seq<byte>, mode: seq<byte>, length: seq<byte>, meta: Meta)
    requires IsRecord(TrimLineEnd(line), mode, length, meta)
    ensures Parse(line) == Some(meta)
  {
    NoSpaceInDigits(8, mode);
    DecimalHasNoSpace(length, meta.size);
    RegroupFields([67] + mode, length, meta.name, []);
    SplitFields([67] + mode, length, meta.name);
    assert ([67] + mode)[1..] == mode;
    ParseIntExactly(length, meta.size);
    ParseOfFields(line, [67] + mode, length, meta.name, Value(8, mode), meta.size);
  }

  lemma FieldsOfRecord(text: seq<byte>, a: seq<byte>, b: seq<byte>, c: seq<byte>, perm: nat, size: int)
    requires text == a + [32] + b + [32] + c && |a| >= 2 && a[0] == 67
    requires ParseUint(a[1..], 8, MODE_LIMIT) == Some(perm) && ParseInt(b, SIZE_HALF) == Some(size)
    ensures IsRecord(text, a[1..], b, Meta(size, perm % 512, c))
  {
    assert a == [67] + a[1..];
    ParseIntExactly(b, size);
  }

  /** What the fields of a line that parses are. */
  lemma ParsedFields(line: seq<byte>, a: seq<byte>, b: seq<byte>, c: seq<byte>)
    requires Parse(line).Some? && SplitN(TrimLineEnd(line), 3) == [a, b, c]
    ensures |a| >= 2 && a[0] == 67 && ParseUint(a[1..], 8, MODE_LIMIT).Some? && ParseInt(b, SIZE_HALF).Some?
    ensures Parse(line).value
         == Meta(ParseInt(b, SIZE_HALF).value, ParseUint(a[1..], 8, MODE_LIMIT).value % 512, c)
  {
  }

  lemma ParsedIsRecord(line: seq<byte>, meta: Meta) returns (mode: seq<byte>, length: seq<byte>)
    requires Parse(line) == Some(meta)
    ensures IsRecord(TrimLineEnd(line), mode, length, meta)
  {
    var a, b, c := SplitParts(TrimLineEnd(line));
    ParsedFields(line, a, b, c);
    mode, length := a[1..], b;
    FieldsOfRecord(TrimLineEnd(line), a, b, c, ParseUint(a[1..], 8, MODE_LIMIT).value, ParseInt(b, SIZE_HALF).value);
  }

  /** Some reading of the text as a record. */
  ghost predicate Reads(text: seq<byte>, meta: Meta) {
    exists mode, length :: IsRecord(text, mode, length, meta)
  }

  lemma ReadsParses(line: seq<byte>, meta: Meta)
    requires Reads(TrimLineEnd(line), meta)
    ensures Parse(line) == Some(meta)
  {
    var mode, length :| IsRecord(TrimLineEnd(line), mode, length, meta);
    RecordParses(line, mode, length, meta);
  }

  lemma ParsedReads(line: seq<byte>, meta: Meta)
    requires Parse(line) == Some(meta)
    ensures Reads(TrimLineEnd(line), meta)
  {
    var mode, length := ParsedIsRecord(line, meta);
  }

  /** A control line parses exactly when, without its line end, it is a record, and as what that says. */
  lemma ParseExactly(line: seq<byte>, meta: Meta)
    ensures Parse(line) == Some(meta) <==> Reads(TrimLineEnd(line), meta)
  {
    if Parse(line) == Some(meta) {
      ParsedReads(line, meta);
    }
    if Reads(TrimLineEnd(line), meta) {
      ReadsParses(line, meta);
    }
  }
}
