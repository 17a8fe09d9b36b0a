/**
 The classic scp protocol: the receiving and the sending end as processes that consume one byte at a
 time, and the client's download and upload as methods over a connection.
 */
module Scp {
  import opened Bytes
  import opened ScpRecord

  datatype Error =
    | NoFile | ControlEnded | Remote | Directory | BadRecord | UnexpectedControl
    | AckEnded | UnexpectedAck | ShortBody | NegativeSize

  const NUL: byte := 0

  /** The failure a status byte other than zero stands for: 1 and 2 carry a message, others are noise. */
  function AckError(b: byte): Error {
    if b == 1 || b == 2 then Remote else UnexpectedAck
  }

  // ---- The receiving end ----------------------------------------------------------

  datatype SinkPhase =
    | Control(line: seq<byte>)
    | Body(meta: Meta, got: seq<byte>)
    | Status(meta: Meta, got: seq<byte>)
    | Stored(meta: Meta, body: seq<byte>)
    | Refused(e: Error)

  /** A receiver and every byte it has written so far. */
  datatype Sink = Sink(phase: SinkPhase, written: seq<byte>)

  function BodyLen(meta: Meta): nat {
    Max(0, meta.size)
  }

  /** A record is acknowledged; timestamps are skipped, and a file record opens the body. */
  function OnLine(line: seq<byte>, written: seq<byte>): Sink
    requires line != []
  {
    var c := line[0];
    if c == 84 then Sink(Control([]), written + [NUL])
    else if c == 1 || c == 2 then Sink(Refused(Remote), written)
    else if c == 68 || c == 69 then Sink(Refused(Directory), written)
    else if c == CHAR_C then
      match Parse(line)
      case None => Sink(Refused(BadRecord), written)
      case Some(meta) =>
        Sink(if BodyLen(meta) == 0 then Status(meta, []) else Body(meta, []), written + [NUL])
    else Sink(Refused(UnexpectedControl), written)
  }

  function SinkStep(s: Sink, b: byte): Sink {
    match s.phase
    case Control(line) =>
      if b == LF then OnLine(line + [b], s.written) else s.(phase := Control(line + [b]))
    case Body(meta, got) =>
      s.(phase := if |got| + 1 >= BodyLen(meta) then Status(meta, got + [b]) else Body(meta, got + [b]))
    case Status(meta, got) =>
      if b == NUL then Sink(Stored(meta, got), s.written + [NUL]) else s.(phase := Refused(AckError(b)))
    case Stored(_, _) => s
    case Refused(_) => s
  }

  function RunSink(s: Sink, input: seq<byte>): Sink
    decreases input
  {
    if input == [] then s else RunSink(SinkStep(s, input[0]), input[1..])
  }

  const INIT_SINK: Sink := Sink(Control([]), [NUL])

  datatype Download = File(meta: Meta, body: seq<byte>) | Failed(e: Error)

  /** What the receiver makes of the end of its input. */
  function AtEnd(p: SinkPhase): Download {
    match p
    case Stored(meta, body) => File(meta, body)
    case Refused(e) => Failed(e)
    case Control(line) => Failed(if line == [] then NoFile else ControlEnded)
    case Body(_, _) => Failed(AckEnded)
    case Status(_, _) => Failed(AckEnded)
  }

  lemma {:induction false} RunSinkAppend(s: Sink, xs: seq<byte>, ys: seq<byte>)
    ensures RunSink(s, xs + ys) == RunSink(RunSink(s, xs), ys)
    decreases xs
  {
    if xs == [] {
      assert xs + ys == ys;
    } else {
      assert (xs + ys)[1..] == xs[1..] + ys;
      RunSinkAppend(SinkStep(s, xs[0]), xs[1..], ys);
    }
  }

  lemma {:induction false} RunSinkOver(s: Sink, xs: seq<byte>)
    requires s.phase.Stored? || s.phase.Refused?
    ensures RunSink(s, xs) == s
    decreases xs
  {
    if xs != [] {
      RunSinkOver(s, xs[1..]);
    }
  }

  lemma {:induction false} RunWithinLine(acc: seq<byte>, w: seq<byte>, xs: seq<byte>)
    requires forall j :: 0 <= j < |xs| ==> xs[j] != LF
    ensures RunSink(Sink(Control(acc), w), xs) == Sink(Control(acc + xs), w)
    decreases xs
  {
    if xs == [] {
      assert acc + xs == acc;
    } else {
      RunWithinLine(acc + [xs[0]], w, xs[1..]);
      assert acc + [xs[0]] + xs[1..] == acc + xs;
    }
  }

  lemma RunLine(w: seq<byte>, line: seq<byte>)
    requires IsLine(line)
    ensures RunSink(Sink(Control([]), w), line) == OnLine(line, w)
  {
    var xs := line[..|line| - 1];
    assert line == xs + [LF];
    RunSinkAppend(Sink(Control([]), w), xs, [LF]);
    RunWithinLine([], w, xs);
    assert [] + xs == xs;
    assert [LF][1..] == [];
  }

  lemma {:induction false} RunBody(meta: Meta, got: seq<byte>, w: seq<byte>, xs: seq<byte>)
    requires |got| + |xs| <= BodyLen(meta) && |got| < BodyLen(meta)
    ensures RunSink(Sink(Body(meta, got), w), xs)
            == Sink(if |got| + |xs| == BodyLen(meta) then Status(meta, got + xs) else Body(meta, got + xs), w)
    decreases xs
  {
    if xs == [] {
      assert got + xs == got;
    } else {
      assert got + [xs[0]] + xs[1..] == got + xs;
      if |xs| > 1 {
        RunBody(meta, got + [xs[0]], w, xs[1..]);
      } else {
        assert xs[1..] == [] && got + [xs[0]] == got + xs;
      }
    }
  }

  /** From an accepted record to the end of a body that may be cut short. */
  lemma RunAccepted(meta: Meta, w: seq<byte>, xs: seq<byte>)
    requires |xs| <= BodyLen(meta)
    ensures RunSink(Sink(if BodyLen(meta) == 0 then Status(meta, []) else Body(meta, []), w), xs)
            == Sink(if |xs| == BodyLen(meta) then Status(meta, xs) else Body(meta, xs), w)
  {
    if BodyLen(meta) > 0 {
      RunBody(meta, [], w, xs);
      assert [] + xs == xs;
    }
  }

  // ---- What a download accepts, as a grammar ----------------------------------------------

  predicate IsTimestamp(line: seq<byte>) {
    IsLine(line) && line[0] == 84
  }

  function Nuls(k: nat): seq<byte> {
    seq(k, _ => NUL)
  }

  /** The remote sent timestamps, one file record, exactly the body it announced, and a zero status byte. */
  ghost predicate Sends(input: seq<byte>, ts: seq<seq<byte>>, record: seq<byte>, meta: Meta, body: seq<byte>) {
    && (forall k :: 0 <= k < |ts| ==> IsTimestamp(ts[k]))
    && IsLine(record) && record[0] == CHAR_C && Parse(record) == Some(meta)
    && |body| == BodyLen(meta)
    && Flatten(ts) + record + body + [NUL] <= input
  }

  lemma {:induction false} RunTimestamps(ts: seq<seq<byte>>, w: seq<byte>)
    requires forall k :: 0 <= k < |ts| ==> IsTimestamp(ts[k])
    ensures RunSink(Sink(Control([]), w), Flatten(ts)) == Sink(Control([]), w + Nuls(|ts|))
    decreases |ts|
  {
    if ts == [] {
      assert w + Nuls(0) == w;
    } else {
      RunLine(w, ts[0]);
      RunSinkAppend(Sink(Control([]), w), ts[0], Flatten(ts[1..]));
      RunTimestamps(ts[1..], w + [NUL]);
      assert w + [NUL] + Nuls(|ts| - 1) == w + Nuls(|ts|);
    }
  }

  lemma RunStatus(meta: Meta, body: seq<byte>, w: seq<byte>, rest: seq<byte>)
    ensures RunSink(Sink(Status(meta, body), w), [NUL] + rest) == Sink(Stored(meta, body), w + [NUL])
  {
    assert ([NUL] + rest)[1..] == rest;
    RunSinkOver(Sink(Stored(meta, body), w + [NUL]), rest);
  }

  /** A file record, its whole body and the status byte. */
  lemma RunFile(record: seq<byte>, meta: Meta, body: seq<byte>, rest: seq<byte>, w: seq<byte>)
    requires IsLine(record) && record[0] == CHAR_C && Parse(record) == Some(meta) && |body| == BodyLen(meta)
    ensures RunSink(Sink(Control([]), w), record + (body + ([NUL] + rest)))
            == Sink(Stored(meta, body), w + [NUL] + [NUL])
  {
    RunSinkAppend(Sink(Control([]), w), record, body + ([NUL] + rest));
    RunLine(w, record);
    RunSinkAppend(OnLine(record, w), body, [NUL] + rest);
    RunAccepted(meta, w + [NUL], body);
    RunStatus(meta, body, w + [NUL], rest);
  }

  lemma SplitSent(input: seq<byte>, a: seq<byte>, b: seq<byte>, c: seq<byte>, d: seq<byte>) returns (rest: seq<byte>)
    requires a + b + c + d <= input
    ensures input == a + (b + (c + (d + rest)))
  {
    rest := input[|a + b + c + d|..];
    assert input == a + b + c + d + rest;
    assert a + b + c + d + rest == a + (b + (c + (d + rest)));
  }

  /** Whatever the grammar admits is stored, and answered with three zeros plus one per timestamp. */
  lemma SendsIsStored(input: seq<byte>, ts: seq<seq<byte>>, record: seq<byte>, meta: Meta, body: seq<byte>)
    requires Sends(input, ts, record, meta, body)
    ensures RunSink(INIT_SINK, input) == Sink(Stored(meta, body), Nuls(3 + |ts|))
  {
    var rest := SplitSent(input, Flatten(ts), record, body, [NUL]);
    RunTimestamps(ts, [NUL]);
    RunThen(INIT_SINK, Flatten(ts), record + (body + ([NUL] + rest)), Sink(Control([]), [NUL] + Nuls(|ts|)));
    RunFile(record, meta, body, rest, [NUL] + Nuls(|ts|));
    NulsAround(|ts|);
  }

  lemma RunThen(s: Sink, xs: seq<byte>, ys: seq<byte>, t: Sink)
    requires RunSink(s, xs) == t
    ensures RunSink(s, xs + ys) == RunSink(t, ys)
  {
    RunSinkAppend(s, xs, ys);
  }

  lemma NulsAround(k: nat)
    ensures [NUL] + Nuls(k) + [NUL] + [NUL] == Nuls(3 + k)
  {
  }

  /** A transfer that succeeds has read a line. */
  lemma HasLine(w: seq<byte>, input: seq<byte>)
    requires RunSink(Sink(Control([]), w), input).phase.Stored?
    ensures exists j :: 0 <= j < |input| && input[j] == LF
  {
    if forall j :: 0 <= j < |input| ==> input[j] != LF {
      RunWithinLine([], w, input);
    }
  }

  lemma {:induction false} FirstLine(input: seq<byte>) returns (n: nat)
    requires exists j :: 0 <= j < |input| && input[j] == LF
    ensures n <= |input| && IsLine(input[..n])
  {
    n := IndexOf(input, LF) + 1;
  }

  /** A line either ends the transfer, is a timestamp, or opens a body. */
  lemma LineOpens(line: seq<byte>, w: seq<byte>, rest: seq<byte>)
    requires IsLine(line) && RunSink(Sink(Control([]), w), line + rest).phase.Stored?
    ensures RunSink(OnLine(line, w), rest).phase.Stored?
    ensures || (IsTimestamp(line) && OnLine(line, w) == Sink(Control([]), w + [NUL]))
            || (line[0] == CHAR_C && Parse(line).Some?)
  {
    RunSinkAppend(Sink(Control([]), w), line, rest);
    RunLine(w, line);
    var s := OnLine(line, w);
    if s.phase.Refused? {
      RunSinkOver(s, rest);
    }
  }

  /** Conversely, whatever is stored was sent according to the grammar, by the bytes read so far. */
  lemma {:induction false} StoredIsSent(w: seq<byte>, input: seq<byte>)
      returns (ts: seq<seq<byte>>, record: seq<byte>, meta: Meta, body: seq<byte>)
    requires RunSink(Sink(Control([]), w), input).phase.Stored?
    ensures Sends(input, ts, record, meta, body)
    decreases |input|
  {
    HasLine(w, input);
    var n := FirstLine(input);
    var line, rest := input[..n], input[n..];
    assert input == line + rest;
    LineOpens(line, w, rest);
    if IsTimestamp(line) {
      ts, record, meta, body := StoredIsSent(w + [NUL], rest);
      SendsAfterTimestamp(line, rest, ts, record, meta, body);
      ts := [line] + ts;
    } else {
      ts, record, meta := [], line, Parse(line).value;
      body := StoredBody(meta, w + [NUL], rest);
      SendsFile(line, rest, meta, body);
    }
  }

  lemma Regroup(a: seq<byte>, b: seq<byte>, c: seq<byte>, d: seq<byte>)
    ensures a + b + c + d == a + (b + c + d)
  {
  }

  lemma PrefixUnder(a: seq<byte>, x: seq<byte>, y: seq<byte>)
    requires x <= y
    ensures a + x <= a + y
  {
  }

  lemma FlattenCons(x: seq<byte>, xs: seq<seq<byte>>)
    ensures Flatten([x] + xs) == x + Flatten(xs)
  {
    assert ([x] + xs)[1..] == xs;
  }

  lemma SendsFile(record: seq<byte>, rest: seq<byte>, meta: Meta, body: seq<byte>)
    requires IsLine(record) && record[0] == CHAR_C && Parse(record) == Some(meta)
    requires |body| == BodyLen(meta) && body + [NUL] <= rest
    ensures Sends(record + rest, [], record, meta, body)
  {
    assert Flatten([]) + record == record;
    assert record + body + [NUL] == record + (body + [NUL]);
    PrefixUnder(record, body + [NUL], rest);
  }

  lemma SendsAfterTimestamp(line: seq<byte>, rest: seq<byte>,
                            ts: seq<seq<byte>>, record: seq<byte>, meta: Meta, body: seq<byte>)
    requires IsTimestamp(line) && Sends(rest, ts, record, meta, body)
    ensures Sends(line + rest, [line] + ts, record, meta, body)
  {
    var sent := Flatten(ts) + record + body + [NUL];
    FlattenCons(line, ts);
    Regroup(line, Flatten(ts), record, body);
    assert Flatten([line] + ts) + record + body + [NUL] == line + sent;
    PrefixUnder(line, sent, rest);
  }

  lemma StoredBody(meta: Meta, w: seq<byte>, rest: seq<byte>) returns (body: seq<byte>)
    requires var s := Sink(if BodyLen(meta) == 0 then Status(meta, []) else Body(meta, []), w);
             RunSink(s, rest).phase.Stored?
    ensures |body| == BodyLen(meta) && body + [NUL] <= rest
  {
    var s := Sink(if BodyLen(meta) == 0 then Status(meta, []) else Body(meta, []), w);
    var k := Min(BodyLen(meta), |rest|);
    body := rest[..k];
    assert rest == body + rest[k..];
    RunSinkAppend(s, body, rest[k..]);
    RunAccepted(meta, w, body);
    StatusStored(meta, body, w, rest[k..]);
  }

  lemma StatusStored(meta: Meta, body: seq<byte>, w: seq<byte>, rest: seq<byte>)
    requires var phase := if |body| == BodyLen(meta) then Status(meta, body) else Body(meta, body);
             RunSink(Sink(phase, w), rest).phase.Stored?
    requires |body| == BodyLen(meta) || rest == []
    ensures |body| == BodyLen(meta) && rest != [] && rest[0] == NUL
  {
    if rest != [] && rest[0] != NUL {
      RunSinkOver(Sink(Refused(AckError(rest[0])), w), rest[1..]);
    }
  }

  /**
   A download succeeds exactly on the inputs of the grammar, stores exactly the announced body, and
   has then written three zeros plus one for every timestamp record.
   */
  lemma {:induction false} DownloadExactly(input: seq<byte>)
    ensures AtEnd(RunSink(INIT_SINK, input).phase).File? <==>
              exists ts, record, meta, body :: Sends(input, ts, record, meta, body)
    ensures forall ts, record, meta, body :: Sends(input, ts, record, meta, body) ==>
              && AtEnd(RunSink(INIT_SINK, input).phase) == File(meta, body)
              && RunSink(INIT_SINK, input).written == Nuls(3 + |ts|)
  {
    forall ts, record, meta, body | Sends(input, ts, record, meta, body)
      ensures RunSink(INIT_SINK, input) == Sink(Stored(meta, body), Nuls(3 + |ts|))
    {
      SendsIsStored(input, ts, record, meta, body);
    }
    if AtEnd(RunSink(INIT_SINK, input).phase).File? {
      var ts, record, meta, body := StoredIsSent([NUL], input);
    }
  }

  // ---- The sending end ------------------------------------------------------------------

  /** What is to be uploaded: the source may hold more than size bytes, or fewer. */
  datatype Job = Job(perm: nat, size: nat, name: seq<byte>, src: seq<byte>)

  datatype SourcePhase = AwaitReady | AwaitRecord | AwaitFinal | Sent | Aborted(e: Error)

  datatype Source = Source(phase: SourcePhase, written: seq<byte>)

  const INIT_SOURCE: Source := Source(AwaitReady, [])

  function Header(job: Job): seq<byte> {
    Format(job.perm, job.size, job.name)
  }

  /** io.CopyN: size bytes if the source has them, all it has otherwise. */
  function Payload(job: Job): seq<byte> {
    if job.size <= |job.src| then job.src[..job.size] else job.src
  }

  function SourceStep(job: Job, s: Source, b: byte): Source {
    if s.phase.Sent? || s.phase.Aborted? then s
    else if b != NUL then s.(phase := Aborted(AckError(b)))
    else
      match s.phase
      case AwaitReady => Source(AwaitRecord, s.written + Header(job))
      case AwaitRecord =>
        if job.size <= |job.src| then Source(AwaitFinal, s.written + Payload(job) + [NUL])
        else Source(Aborted(ShortBody), s.written + Payload(job))
      case AwaitFinal => s.(phase := Sent)
      case _ => s
  }

  function RunSource(job: Job, s: Source, acks: seq<byte>): Source
    decreases acks
  {
    if acks == [] then s else RunSource(job, SourceStep(job, s, acks[0]), acks[1..])
  }

  lemma {:induction false} RunSourceAppend(job: Job, s: Source, xs: seq<byte>, ys: seq<byte>)
    ensures RunSource(job, s, xs + ys) == RunSource(job, RunSource(job, s, xs), ys)
    decreases xs
  {
    if xs == [] {
      assert xs + ys == ys;
    } else {
      assert (xs + ys)[1..] == xs[1..] + ys;
      RunSourceAppend(job, SourceStep(job, s, xs[0]), xs[1..], ys);
    }
  }

  lemma {:induction false} RunSourceOver(job: Job, s: Source, xs: seq<byte>)
    requires s.phase.Sent? || s.phase.Aborted?
    ensures RunSource(job, s, xs) == s
    decreases xs
  {
    if xs != [] {
      RunSourceOver(job, s, xs[1..]);
    }
  }

  /** What the sender makes of the end of its input. */
  function SourceAtEnd(p: SourcePhase): Option<Error> {
    match p
    case Sent => None
    case Aborted(e) => Some(e)
    case _ => Some(AckEnded)
  }

  // ---- The client's methods ----------------------------------------------------------------

  /** A connection to a remote scp: everything it will ever send, and everything written to it. */
  class Conn {
    const input: seq<byte>
    var pos: nat
    var written: seq<byte>

    ghost predicate Valid()
      reads this
    {
      pos <= |input|
    }

    constructor (input: seq<byte>)
      ensures Valid() && this.input == input && pos == 0 && written == []
    {
      this.input, pos, written := input, 0, [];
    }

    method Write(p: seq<byte>)
      modifies `written
      ensures written == old(written) + p
    {
      written := written + p;
    }

    /** One byte, or None at the end of the stream. */
    method ReadByte() returns (b: Option<byte>)
      requires Valid()
      modifies `pos
      ensures Valid()
      ensures old(pos) == |input| ==> b == None && pos == old(pos)
      ensures old(pos) < |input| ==> b == Some(input[old(pos)]) && pos == old(pos) + 1
    {
      if pos == |input| {
        return None;
      }
      b := Some(input[pos]);
      pos := pos + 1;
    }

    /** ReadString('\n'): a whole line, or what was left before the end of the stream. */
    method ReadLine() returns (line: seq<byte>, whole: bool)
      requires Valid()
      modifies `pos
      ensures Valid() && old(pos) <= pos && line == input[old(pos)..pos]
      ensures whole ==> IsLine(line)
      ensures !whole ==> pos == |input| && forall j :: 0 <= j < |line| ==> line[j] != LF
    {
      line, whole := [], false;
      while pos < |input|
        invariant old(pos) <= pos <= |input| && line == input[old(pos)..pos]
        invariant forall j :: 0 <= j < |line| ==> line[j] != LF
      {
        line := line + [input[pos]];
        pos := pos + 1;
        if line[|line| - 1] == LF {
          return line, true;
        }
      }
    }

    /** Up to n bytes: fewer only at the end of the stream. */
    method ReadUpTo(n: nat) returns (data: seq<byte>)
      requires Valid()
      modifies `pos
      ensures Valid() && old(pos) <= pos && data == input[old(pos)..pos] && |data| == Min(n, |input| - old(pos))
    {
      var k := Min(n, |input| - pos);
      data := input[pos..pos + k];
      pos := pos + k;
    }

    /** A status byte: zero is fine, one and two come with a message. */
    method ReadAck() returns (e: Option<Error>)
      requires Valid()
      modifies `pos
      ensures Valid()
      ensures old(pos) == |input| ==> e == Some(AckEnded)
      ensures old(pos) < |input| ==>
                e == if input[old(pos)] == NUL then None else Some(AckError(input[old(pos)]))
      ensures e.None? ==> pos == old(pos) + 1
    {
      var b := ReadByte();
      if b.None? {
        return Some(AckEnded);
      }
      if b.value == NUL {
        return None;
      }
      if b.value == 1 || b.value == 2 {
        var _, _ := ReadLine();
        return Some(Remote);
      }
      e := Some(UnexpectedAck);
    }
  }

  /** Where the receiver stands after what has been read so far, and what is still to come. */
  ghost predicate Reached(c: Conn, s: Sink)
    reads c
  {
    c.pos <= |c.input| && c.written == s.written
    && RunSink(INIT_SINK, c.input) == RunSink(s, c.input[c.pos..])
  }

  /** A whole line has been read: the receiver moves on by it, or has refused for good. */
  lemma LineRead(input: seq<byte>, at: nat, line: seq<byte>, w: seq<byte>, rest: seq<byte>)
    requires at <= |input| && input[at..] == line + rest && IsLine(line)
    requires RunSink(INIT_SINK, input) == RunSink(Sink(Control([]), w), input[at..])
    ensures RunSink(INIT_SINK, input) == RunSink(OnLine(line, w), rest)
    ensures OnLine(line, w).phase.Refused? ==> RunSink(INIT_SINK, input) == OnLine(line, w)
  {
    RunSinkAppend(Sink(Control([]), w), line, rest);
    RunLine(w, line);
    if OnLine(line, w).phase.Refused? {
      RunSinkOver(OnLine(line, w), rest);
    }
  }

  /** The stream has ended inside a line. */
  lemma EndRead(input: seq<byte>, at: nat, line: seq<byte>, w: seq<byte>)
    requires at <= |input| && input[at..] == line && forall j :: 0 <= j < |line| ==> line[j] != LF
    requires RunSink(INIT_SINK, input) == RunSink(Sink(Control([]), w), input[at..])
    ensures RunSink(INIT_SINK, input) == Sink(Control(line), w)
  {
    RunWithinLine([], w, line);
    assert [] + line == line;
  }

  /** Receives one file with a sink that reads its body to the end. */
  method SCPDownload(c: Conn) returns (r: Download)
    requires c.Valid() && c.pos == 0 && c.written == []
    modifies c
    ensures r == AtEnd(RunSink(INIT_SINK, c.input).phase)
    ensures c.written == RunSink(INIT_SINK, c.input).written
  {
    c.Write([NUL]);
    assert c.input[0..] == c.input && [] + [NUL] == [NUL];
    while true
      invariant Reached(c, Sink(Control([]), c.written))
      decreases |c.input| - c.pos
    {
      ghost var at, w := c.pos, c.written;
      var line, whole := c.ReadLine();
      if !whole {
        assert c.input[at..] == line;
        EndRead(c.input, at, line, w);
        return Failed(if line == [] then NoFile else ControlEnded);
      }
      assert c.input[at..] == line + c.input[c.pos..];
      LineRead(c.input, at, line, w, c.input[c.pos..]);
      if line[0] == 84 {
        c.Write([NUL]);
        continue;
      }
      r := OnOtherLine(c, line);
      return;
    }
  }

  /** A control line that is not a timestamp: a file record, or the end of the transfer. */
  method OnOtherLine(c: Conn, line: seq<byte>) returns (r: Download)
    requires c.Valid() && IsLine(line) && line[0] != 84
    requires RunSink(INIT_SINK, c.input) == RunSink(OnLine(line, c.written), c.input[c.pos..])
    requires OnLine(line, c.written).phase.Refused? ==> RunSink(INIT_SINK, c.input) == OnLine(line, c.written)
    modifies c
    ensures r == AtEnd(RunSink(INIT_SINK, c.input).phase)
    ensures c.written == RunSink(INIT_SINK, c.input).written
  {
    if line[0] == 1 || line[0] == 2 {
      return Failed(Remote);
    } else if line[0] == 68 || line[0] == 69 {
      return Failed(Directory);
    } else if line[0] != CHAR_C {
      return Failed(UnexpectedControl);
    }
    var meta := Parse(line);
    if meta.None? {
      return Failed(BadRecord);
    }
    c.Write([NUL]);
    r := ReceiveFile(c, meta.value);
  }

  /** The body and its status byte, after an acknowledged record. */
  method ReceiveFile(c: Conn, meta: Meta) returns (r: Download)
    requires Reached(c, Sink(if BodyLen(meta) == 0 then Status(meta, []) else Body(meta, []), c.written))
    modifies c
    ensures r == AtEnd(RunSink(INIT_SINK, c.input).phase)
    ensures c.written == RunSink(INIT_SINK, c.input).written
  {
    ghost var at, w := c.pos, c.written;
    var body := c.ReadUpTo(BodyLen(meta));
    ghost var rest := c.input[c.pos..];
    assert c.input[at..] == body + rest;
    RunSinkAppend(Sink(if BodyLen(meta) == 0 then Status(meta, []) else Body(meta, []), w), body, rest);
    RunAccepted(meta, w, body);
    var e := c.ReadAck();
    if e.Some? {
      if rest != [] {
        RunSinkOver(Sink(Refused(e.value), w), rest[1..]);
      }
      return Failed(e.value);
    }
    c.Write([NUL]);
    RunSinkOver(Sink(Stored(meta, body), c.written), rest[1..]);
    r := File(meta, body);
  }

  ghost predicate Heard(c: Conn, job: Job, s: Source)
    reads c
  {
    c.pos <= |c.input| && c.written == s.written
    && RunSource(job, INIT_SOURCE, c.input) == RunSource(job, s, c.input[c.pos..])
  }

  const DEFAULT_MODE: nat := 420  // 0644

  /** What an upload to a path is to send. */
  function JobOf(remotePath: seq<byte>, mode: nat, size: nat, src: seq<byte>): Job {
    Job((if mode == 0 then DEFAULT_MODE else mode) % PERM_COUNT, size, BaseName(remotePath), src)
  }

  /** Why the acknowledgement at position k of the input ends a transfer. */
  predicate AckFails(acks: seq<byte>, k: nat, e: Option<Error>) {
    if k >= |acks| then e == Some(AckEnded)
    else acks[k] != 0 && e == Some(if acks[k] == 1 || acks[k] == 2 then Remote else UnexpectedAck)
  }

  /**
   What an upload of size bytes may write and report, by the acknowledgements it gets: nothing before
   the first zero, then its announcement, then the data, cut to the size and ended by a zero byte.
   */
  ghost predicate Uploaded(line: seq<byte>, size: nat, src: seq<byte>, acks: seq<byte>,
                           e: Option<Error>, written: seq<byte>) {
    if acks == [] || acks[0] != 0 then AckFails(acks, 0, e) && written == []
    else if |acks| < 2 || acks[1] != 0 then AckFails(acks, 1, e) && written == line
    else if size > |src| then e == Some(ShortBody) && written == line + src
    else written == line + src[..size] + [0] && if |acks| < 3 || acks[2] != 0 then AckFails(acks, 2, e) else e == None
  }

  /** Some announcement of the path, the permission bits and the size. */
  ghost predicate IsAnnouncement(line: seq<byte>, p: seq<byte>, perm: nat, size: nat) {
    exists digits, length, name :: Announces(line, digits, length, name, p, perm, size)
  }

  lemma HeaderAnnounces(p: seq<byte>, mode: nat, size: nat, src: seq<byte>)
    ensures IsAnnouncement(Header(JobOf(p, mode, size, src)), p, if mode == 0 then 420 else mode % 512, size)
  {
    var perm := JobOf(p, mode, size, src).perm;
    assert perm == if mode == 0 then 420 else mode % 512;
    var digits, length := FormatAnnounces(p, perm, size);
  }

  lemma FirstAck(job: Job, acks: seq<byte>)
    requires acks != [] && acks[0] == 0
    ensures RunSource(job, INIT_SOURCE, acks) == RunSource(job, Source(AwaitRecord, Header(job)), acks[1..])
  {
    assert [] + Header(job) == Header(job);
  }

  lemma AckRefused(job: Job, s: Source, acks: seq<byte>)
    requires !s.phase.Sent? && !s.phase.Aborted?
    requires acks == [] || acks[0] != 0
    ensures AckFails(acks, 0, SourceAtEnd(RunSource(job, s, acks).phase))
    ensures RunSource(job, s, acks).written == s.written
  {
    if acks != [] {
      RunSourceOver(job, s.(phase := Aborted(AckError(acks[0]))), acks[1..]);
    }
  }

  /** After the acknowledged record. */
  lemma SecondAck(job: Job, acks: seq<byte>)
    requires acks != [] && acks[0] == 0
    ensures var s := RunSource(job, Source(AwaitRecord, Header(job)), acks);
            if job.size > |job.src| then s == Source(Aborted(ShortBody), Header(job) + job.src)
            else s == RunSource(job, Source(AwaitFinal, Header(job) + job.src[..job.size] + [0]), acks[1..])
  {
    if job.size > |job.src| {
      RunSourceOver(job, Source(Aborted(ShortBody), Header(job) + job.src), acks[1..]);
    }
  }

  lemma ThirdAck(job: Job, w: seq<byte>, acks: seq<byte>)
    requires acks != [] && acks[0] == 0
    ensures RunSource(job, Source(AwaitFinal, w), acks) == Source(Sent, w)
  {
    RunSourceOver(job, Source(Sent, w), acks[1..]);
  }

  lemma AckLater(acks: seq<byte>, k: nat, j: nat, e: Option<Error>)
    requires j <= |acks| && AckFails(acks[j..], k, e)
    ensures AckFails(acks, j + k, e)
  {
  }

  /** Every upload, by the acknowledgements it gets. */
  lemma UploadExactly(p: seq<byte>, mode: nat, size: nat, src: seq<byte>, acks: seq<byte>)
    ensures var job := JobOf(p, mode, size, src);
            var s := RunSource(job, INIT_SOURCE, acks);
            && Uploaded(Header(job), size, src, acks, SourceAtEnd(s.phase), s.written)
            && IsAnnouncement(Header(job), p, if mode == 0 then 420 else mode % 512, size)
  {
    var job := JobOf(p, mode, size, src);
    HeaderAnnounces(p, mode, size, src);
    if acks == [] || acks[0] != 0 {
      AckRefused(job, INIT_SOURCE, acks);
    } else {
      FirstAck(job, acks);
      AfterRecord(p, mode, size, src, acks);
    }
  }

  lemma AfterRecord(p: seq<byte>, mode: nat, size: nat, src: seq<byte>, acks: seq<byte>)
    requires acks != [] && acks[0] == 0
    ensures var job := JobOf(p, mode, size, src);
            var s := RunSource(job, Source(AwaitRecord, Header(job)), acks[1..]);
            Uploaded(Header(job), size, src, acks, SourceAtEnd(s.phase), s.written)
  {
    var job := JobOf(p, mode, size, src);
    var s := Source(AwaitRecord, Header(job));
    if |acks| < 2 || acks[1] != 0 {
      AckRefused(job, s, acks[1..]);
      AckLater(acks, 0, 1, SourceAtEnd(RunSource(job, s, acks[1..]).phase));
    } else {
      SecondAck(job, acks[1..]);
      if size <= |src| {
        AfterBody(job, Header(job) + src[..size] + [0], acks);
      }
    }
  }

  lemma AfterBody(job: Job, w: seq<byte>, acks: seq<byte>)
    requires |acks| >= 2
    ensures var s := RunSource(job, Source(AwaitFinal, w), acks[1..][1..]);
            && s.written == w
            && if |acks| < 3 || acks[2] != 0 then AckFails(acks, 2, SourceAtEnd(s.phase)) else s.phase == Sent
  {
    assert acks[1..][1..] == acks[2..];
    if |acks| < 3 || acks[2] != 0 {
      AckRefused(job, Source(AwaitFinal, w), acks[2..]);
      AckLater(acks, 0, 2, SourceAtEnd(RunSource(job, Source(AwaitFinal, w), acks[2..]).phase));
    } else {
      ThirdAck(job, w, acks[2..]);
    }
  }

  /** Waits for a status byte; a failure to get a zero ends the transfer. */
  method AwaitAck(c: Conn, job: Job, ghost s: Source) returns (e: Option<Error>)
    requires Heard(c, job, s) && (s.phase.AwaitReady? || s.phase.AwaitRecord? || s.phase.AwaitFinal?)
    modifies c`pos
    ensures e.Some? ==>
              && c.written == RunSource(job, INIT_SOURCE, c.input).written
              && e == SourceAtEnd(RunSource(job, INIT_SOURCE, c.input).phase)
    ensures e.None? ==>
              && c.pos <= |c.input|
              && RunSource(job, INIT_SOURCE, c.input) == RunSource(job, SourceStep(job, s, NUL), c.input[c.pos..])
  {
    ghost var at, rest := c.pos, c.input[c.pos..];
    e := c.ReadAck();
    if rest != [] {
      assert rest[1..] == c.input[at + 1..];
      if rest[0] != NUL {
        RunSourceOver(job, s.(phase := Aborted(AckError(rest[0]))), rest[1..]);
      }
    }
  }

  /** Sends one file: header, body and a zero byte, each after the acknowledgement of what came before. */
  method SCPUpload(c: Conn, remotePath: seq<byte>, mode: nat, size: int, src: seq<byte>) returns (e: Option<Error>)
    requires c.Valid() && c.pos == 0 && c.written == []
    modifies c
    ensures size < 0 ==> e == Some(NegativeSize) && c.written == []
    ensures size >= 0 ==> exists line ::
              && IsAnnouncement(line, remotePath, if mode == 0 then 420 else mode % 512, size)
              && Uploaded(line, size, src, c.input, e, c.written)
    ensures size >= 0 ==>
              var s := RunSource(JobOf(remotePath, mode, size, src), INIT_SOURCE, c.input);
              e == SourceAtEnd(s.phase) && c.written == s.written
  {
    if size < 0 {
      return Some(NegativeSize);
    }
    var job := JobOf(remotePath, mode, size, src);
    UploadExactly(remotePath, mode, size, src, c.input);
    assert c.input[0..] == c.input;
    e := AwaitAck(c, job, INIT_SOURCE);
    if e.Some? {
      return;
    }
    c.Write(Format(job.perm, job.size, job.name));
    e := AwaitAck(c, job, Source(AwaitRecord, c.written));
    if e.Some? {
      return;
    }
    e := SendBody(c, job);
  }

  method SendBody(c: Conn, job: Job) returns (e: Option<Error>)
    requires c.pos <= |c.input|
    requires RunSource(job, INIT_SOURCE, c.input)
             == RunSource(job, SourceStep(job, Source(AwaitRecord, c.written), NUL), c.input[c.pos..])
    modifies c
    ensures var s := RunSource(job, INIT_SOURCE, c.input);
            e == SourceAtEnd(s.phase) && c.written == s.written
  {
    c.Write(Payload(job));
    if job.size > |job.src| {
      RunSourceOver(job, Source(Aborted(ShortBody), c.written), c.input[c.pos..]);
      return Some(ShortBody);
    }
    c.Write([NUL]);
    ghost var s := Source(AwaitFinal, c.written);
    e := AwaitAck(c, job, s);
    if e.None? {
      RunSourceOver(job, s.(phase := Sent), c.input[c.pos..]);
    }
  }
}
