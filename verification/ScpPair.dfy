/**
 An upload and a download talking to each other over a reliable duplex channel of any capacity, with
 every step of either end scheduled arbitrarily: bytes written one at a time into bounded buffers,
 bytes read one at a time, and a process that reads only when everything it had to write is written.
 */
module ScpPair {
  import opened Bytes
  import opened ScpRecord
  import opened Scp

  /** Both ends, with how many bytes each has put into the channel and the other has taken out. */
  datatype Net = Net(src: Source, snk: Sink, sent: nat, taken: nat, acked: nat, heard: nat)

  datatype Agent = SourceWrites | SourceReads | SinkWrites | SinkReads

  const START: Net := Net(INIT_SOURCE, INIT_SINK, 0, 0, 0, 0)

  predicate Enabled(cap: nat, n: Net, a: Agent) {
    match a
    case SourceWrites => n.sent < |n.src.written| && n.sent - n.taken < cap
    case SourceReads =>
      !n.src.phase.Sent? && !n.src.phase.Aborted? && n.sent >= |n.src.written| && n.heard < n.acked <= |n.snk.written|
    case SinkWrites => n.acked < |n.snk.written| && n.acked - n.heard < cap
    case SinkReads =>
      !n.snk.phase.Stored? && !n.snk.phase.Refused? && n.acked >= |n.snk.written| && n.taken < n.sent <= |n.src.written|
  }

  function Step(job: Job, cap: nat, n: Net, a: Agent): Net
    requires Enabled(cap, n, a)
  {
    match a
    case SourceWrites => n.(sent := n.sent + 1)
    case SourceReads => n.(src := SourceStep(job, n.src, n.snk.written[n.heard]), heard := n.heard + 1)
    case SinkWrites => n.(acked := n.acked + 1)
    case SinkReads => n.(snk := SinkStep(n.snk, n.src.written[n.taken]), taken := n.taken + 1)
  }

  /** A schedule in which every step is possible when it is taken. */
  predicate Possible(job: Job, cap: nat, n: Net, sched: seq<Agent>)
    decreases sched
  {
    sched != [] ==> Enabled(cap, n, sched[0]) && Possible(job, cap, Step(job, cap, n, sched[0]), sched[1..])
  }

  function After(job: Job, cap: nat, n: Net, sched: seq<Agent>): Net
    requires Possible(job, cap, n, sched)
    decreases sched
  {
    if sched == [] then n else After(job, cap, Step(job, cap, n, sched[0]), sched[1..])
  }

  // ---- Each end as a function of how much it has read -----------------------------------

  /** A job the protocol can announce: permission bits, a 64-bit size, that much data, one clean line. */
  predicate Sendable(job: Job) {
    job.perm < PERM_COUNT && job.size < SIZE_HALF && job.size <= |job.src| && CleanName(job.name)
  }

  function MetaOf(job: Job): Meta {
    Meta(job.size, job.perm, job.name)
  }

  /** Everything the sender writes over a whole transfer. */
  function Full(job: Job): seq<byte> {
    Header(job) + Payload(job) + [NUL]
  }

  /** The sender after k acknowledgements. */
  function SourceAt(job: Job, k: nat): Source {
    if k == 0 then INIT_SOURCE
    else if k == 1 then Source(AwaitRecord, Header(job))
    else Source(if k == 2 then AwaitFinal else Sent, Full(job))
  }

  lemma SourceAdvances(job: Job, k: nat)
    requires Sendable(job) && k < 3
    ensures SourceStep(job, SourceAt(job, k), NUL) == SourceAt(job, k + 1)
  {
    assert [] + Header(job) == Header(job);
  }

  /** How many acknowledgements the receiver has written after t bytes. */
  function AcksAfter(job: Job, t: nat): nat {
    if t < |Header(job)| then 1 else if t < |Full(job)| then 2 else 3
  }

  lemma HeaderFacts(job: Job)
    requires Sendable(job)
    ensures IsLine(Header(job)) && Header(job)[0] == CHAR_C && Parse(Header(job)) == Some(MetaOf(job))
    ensures |Payload(job)| == BodyLen(MetaOf(job))
  {
    RecordIsLine(job.perm, job.size, job.name);
    ParseFormat(job.perm, job.size, job.name);
  }

  /** Part of the header: nothing but a partial line. */
  lemma SinkInHeader(job: Job, t: nat)
    requires Sendable(job) && t < |Header(job)|
    ensures RunSink(INIT_SINK, Header(job)[..t]) == Sink(Control(Header(job)[..t]), [NUL])
  {
    HeaderFacts(job);
    RunWithinLine([], [NUL], Header(job)[..t]);
    assert [] + Header(job)[..t] == Header(job)[..t];
  }

  /** The header and part of the body, or all of it. */
  lemma SinkInBody(job: Job, k: nat)
    requires Sendable(job) && k <= |Payload(job)|
    ensures RunSink(INIT_SINK, Header(job) + Payload(job)[..k])
            == Sink(if k == |Payload(job)| then Status(MetaOf(job), Payload(job)[..k])
                    else Body(MetaOf(job), Payload(job)[..k]), [NUL] + [NUL])
  {
    HeaderFacts(job);
    RunSinkAppend(INIT_SINK, Header(job), Payload(job)[..k]);
    RunLine([NUL], Header(job));
    RunAccepted(MetaOf(job), [NUL] + [NUL], Payload(job)[..k]);
  }

  lemma SinkAtEnd(job: Job)
    requires Sendable(job)
    ensures RunSink(INIT_SINK, Full(job)) == Sink(Stored(MetaOf(job), Payload(job)), [NUL] + [NUL] + [NUL])
  {
    HeaderFacts(job);
    RunFile(Header(job), MetaOf(job), Payload(job), [], [NUL]);
    assert Full(job) == Header(job) + (Payload(job) + ([NUL] + []));
  }

  /** The receiver after any prefix of the transfer. */
  lemma SinkAt(job: Job, t: nat)
    requires Sendable(job) && t <= |Full(job)|
    ensures var s := RunSink(INIT_SINK, Full(job)[..t]);
            && s.written == Nuls(AcksAfter(job, t)) && !s.phase.Refused?
            && (if t == |Full(job)| then s.phase == Stored(MetaOf(job), Payload(job)) else !s.phase.Stored?)
  {
    var h := |Header(job)|;
    if t < h {
      SinkInHeader(job, t);
      assert Full(job)[..t] == Header(job)[..t];
    } else if t < |Full(job)| {
      SinkInBody(job, t - h);
      assert Full(job)[..t] == Header(job) + Payload(job)[..t - h];
    } else {
      SinkAtEnd(job);
      assert Full(job)[..t] == Full(job);
    }
  }

  // ---- Invariant ---------------------------------------------------------------------------

  ghost predicate NetInv(job: Job, n: Net) {
    && n.heard <= 3 && n.src == SourceAt(job, n.heard)
    && n.taken <= |Full(job)| && n.snk == RunSink(INIT_SINK, Full(job)[..n.taken])
    && n.taken <= n.sent <= |n.src.written| && n.heard <= n.acked <= AcksAfter(job, n.taken)
  }

  lemma ReadOneMore(s: seq<byte>, t: nat, start: Sink)
    requires t < |s|
    ensures RunSink(start, s[..t + 1]) == SinkStep(RunSink(start, s[..t]), s[t])
  {
    assert s[..t + 1] == s[..t] + [s[t]];
    RunSinkAppend(start, s[..t], [s[t]]);
    assert [s[t]][1..] == [];
  }

  lemma StepKeeps(job: Job, cap: nat, n: Net, a: Agent)
    requires Sendable(job) && NetInv(job, n) && Enabled(cap, n, a)
    ensures NetInv(job, Step(job, cap, n, a))
  {
    SinkAt(job, n.taken);
    match a
    case SourceReads => SourceAdvances(job, n.heard);
    case SinkReads =>
      ReadOneMore(Full(job), n.taken, INIT_SINK);
      assert n.src.written[n.taken] == Full(job)[n.taken];
    case _ =>
  }

  predicate Complete(job: Job, n: Net) {
    n.src.phase == Sent && n.snk.phase == Stored(MetaOf(job), Payload(job))
  }

  /** Lockstep: whichever end is behind can always take its next step, so no buffer ever blocks both. */
  lemma SomeoneCanMove(job: Job, cap: nat, n: Net)
    requires Sendable(job) && NetInv(job, n) && cap >= 1 && !Complete(job, n)
    ensures exists a :: Enabled(cap, n, a)
  {
    SinkAt(job, n.taken);
    HeaderFacts(job);
    if n.sent < |n.src.written| {
      if n.sent - n.taken < cap {
        assert Enabled(cap, n, SourceWrites);
      } else if n.acked < |n.snk.written| {
        assert Enabled(cap, n, SinkWrites);
      } else {
        assert Enabled(cap, n, SinkReads);
      }
    } else if n.acked < |n.snk.written| {
      assert Enabled(cap, n, SinkWrites);
    } else if n.taken < n.sent {
      assert Enabled(cap, n, SinkReads);
    } else {
      assert Enabled(cap, n, SourceReads);
    }
  }

  function Progress(n: Net): nat {
    n.sent + n.taken + n.acked + n.heard
  }

  lemma ProgressIsBounded(job: Job, n: Net)
    requires NetInv(job, n)
    ensures Progress(n) <= 2 * |Full(job)| + 6
  {
  }

  lemma {:induction false} AfterKeeps(job: Job, cap: nat, n: Net, sched: seq<Agent>)
    requires Sendable(job) && NetInv(job, n) && Possible(job, cap, n, sched)
    ensures NetInv(job, After(job, cap, n, sched))
    ensures Progress(After(job, cap, n, sched)) == Progress(n) + |sched|
    decreases sched
  {
    if sched != [] {
      StepKeeps(job, cap, n, sched[0]);
      AfterKeeps(job, cap, Step(job, cap, n, sched[0]), sched[1..]);
    }
  }

  /**
   However the two ends are scheduled, over buffers of any capacity, they never deadlock, take a
   bounded number of steps, and when no step is left both have succeeded and the receiver has the
   same permission bits, size, name and body.
   */
  lemma UploadMeetsDownload(job: Job, cap: nat, sched: seq<Agent>)
    requires Sendable(job) && cap >= 1 && Possible(job, cap, START, sched)
    ensures |sched| <= 2 * |Full(job)| + 6
    ensures var n := After(job, cap, START, sched);
            && (Complete(job, n) || exists a :: Enabled(cap, n, a))
            && ((forall a :: !Enabled(cap, n, a)) ==>
                  n.src.phase == Sent
                  && n.snk.phase == Stored(Meta(job.size, job.perm, job.name), job.src[..job.size]))
  {
    assert Full(job)[..0] == [];
    AfterKeeps(job, cap, START, sched);
    var n := After(job, cap, START, sched);
    ProgressIsBounded(job, n);
    if !Complete(job, n) {
      SomeoneCanMove(job, cap, n);
    }
  }

  // ---- By path, mode and size ----------------------------------------------------------------

  lemma AnnouncedMeta(line: seq<byte>, p: seq<byte>, perm: nat, size: nat, name: seq<byte>)
    requires IsAnnouncement(line, p, perm, size) && perm < PERM_COUNT && size < SIZE_HALF
    requires NamedAfter(p, name) && CleanName(name)
    ensures IsLine(line) && line[0] == CHAR_C && Parse(line) == Some(Meta(size, perm, name))
  {
    var digits, length, n :| Announces(line, digits, length, n, p, perm, size);
    NamedOnce(p, n, name);
    AnnouncedParses(line, digits, length, name, p, perm, size);
    AnnouncedIsLine(line, digits, length, name, p, perm, size);
  }

  /**
   What a successful upload has written is stored by a receiver as the last component of the path, with
   the permission bits asked for and the first size bytes of the source, and acknowledged as the upload was.
   */
  lemma UploadedIsStored(p: seq<byte>, perm: nat, size: nat, src: seq<byte>, name: seq<byte>,
                         acks: seq<byte>, line: seq<byte>, written: seq<byte>)
    requires Uploaded(line, size, src, acks, None, written) && IsAnnouncement(line, p, perm, size)
    requires perm < PERM_COUNT && size < SIZE_HALF && NamedAfter(p, name) && CleanName(name)
    ensures size <= |src|
    ensures RunSink(INIT_SINK, written) == Sink(Stored(Meta(size, perm, name), src[..size]), [0, 0, 0])
    ensures [0, 0, 0] <= acks
  {
    AnnouncedMeta(line, p, perm, size, name);
    FileIsStored(line, Meta(size, perm, name), src[..size]);
  }

  lemma FileIsStored(record: seq<byte>, meta: Meta, body: seq<byte>)
    requires IsLine(record) && record[0] == CHAR_C && Parse(record) == Some(meta) && |body| == BodyLen(meta)
    ensures RunSink(INIT_SINK, record + body + [0]) == Sink(Stored(meta, body), [0, 0, 0])
  {
    RunFile(record, meta, body, [], [NUL]);
    assert record + body + [0] == record + (body + ([NUL] + []));
  }

  /** A path with a name that can be sent makes a job that can be. */
  lemma PathIsSendable(p: seq<byte>, mode: nat, size: nat, src: seq<byte>, name: seq<byte>)
    requires size < SIZE_HALF && size <= |src| && NamedAfter(p, name) && CleanName(name)
    ensures var job := JobOf(p, mode, size, src);
            && Sendable(job) && job.name == name && job.size == size && job.src == src
            && job.perm == if mode == 0 then 420 else mode % 512
  {
    BaseNameNames(p);
    NamedOnce(p, BaseName(p), name);
  }

  /**
   The same over any channel and schedule: an upload and a receiver end with both successful, and the
   receiver has the size, the bits, the last component of the path, and the first size bytes.
   */
  lemma UploadArrives(p: seq<byte>, mode: nat, size: nat, src: seq<byte>, name: seq<byte>, cap: nat, sched: seq<Agent>)
    requires size < SIZE_HALF && size <= |src| && NamedAfter(p, name) && CleanName(name)
    requires cap >= 1 && Possible(JobOf(p, mode, size, src), cap, START, sched)
    ensures var n := After(JobOf(p, mode, size, src), cap, START, sched);
            var meta := Meta(size, if mode == 0 then 420 else mode % 512, name);
            || (exists a :: Enabled(cap, n, a))
            || (n.src.phase == Sent && n.snk.phase == Stored(meta, src[..size]))
  {
    PathIsSendable(p, mode, size, src, name);
    UploadMeetsDownload(JobOf(p, mode, size, src), cap, sched);
  }

  // ---- Which names arrive -------------------------------------------------------------------

  lemma {:induction false} TrimmedEnd(s: seq<byte>)
    ensures TrimLineEnd(s) <= s
    ensures TrimLineEnd(s) != [] ==> !IsLineEnd(TrimLineEnd(s)[|TrimLineEnd(s)| - 1])
    decreases |s|
  {
    if s != [] && IsLineEnd(s[|s| - 1]) {
      TrimmedEnd(s[..|s| - 1]);
    }
  }

  /** The last of the fields is a suffix of the text they were split from. */
  ghost predicate LastIsTail(fields: seq<seq<byte>>, s: seq<byte>) {
    fields != [] && IsSuffix(fields[|fields| - 1], s)
  }

  lemma OneMoreField(s: seq<byte>, x: seq<byte>, rest: seq<byte>, fields: seq<seq<byte>>)
    requires LastIsTail(fields, rest) && IsSuffix(rest, s)
    ensures LastIsTail([x] + fields, s)
  {
    assert ([x] + fields)[|fields|] == fields[|fields| - 1];
    SuffixTransitive(fields[|fields| - 1], rest, s);
  }

  /** Either the text is one field, or a field ends at the space at position k and the rest follows. */
  lemma SplitCases(s: seq<byte>, n: nat) returns (more: bool, k: nat)
    requires n >= 1
    ensures !more ==> SplitN(s, n) == [s]
    ensures more ==> n > 1 && k < |s| && SplitN(s, n) == [s[..k]] + SplitN(s[k + 1..], n - 1)
  {
    k := IndexOf(s, SP);
    more := n > 1 && k < |s|;
  }

  lemma DropIsSuffix(s: seq<byte>, k: nat)
    requires k <= |s|
    ensures IsSuffix(s[k..], s) && s[0..] == s
  {
  }

  lemma {:induction false} LastFieldIsSuffix(s: seq<byte>, n: nat) returns (fields: seq<seq<byte>>)
    requires n >= 1
    ensures fields == SplitN(s, n) && LastIsTail(fields, s)
    decreases n
  {
    var more, k := SplitCases(s, n);
    if more {
      var later := LastFieldIsSuffix(s[k + 1..], n - 1);
      fields := [s[..k]] + later;
      DropIsSuffix(s, k + 1);
      OneMoreField(s, s[..k], s[k + 1..], later);
    } else {
      fields := [s];
      DropIsSuffix(s, 0);
    }
  }

  lemma NameIsField(line: seq<byte>)
    requires Parse(line).Some?
    ensures IsSuffix(Parse(line).value.name, TrimLineEnd(line))
  {
    var fields := LastFieldIsSuffix(TrimLineEnd(line), 3);
  }

  lemma SuffixIsClean(name: seq<byte>, t: seq<byte>)
    requires IsSuffix(name, t) && CleanName(t)
    ensures CleanName(name)
  {
    forall j | 0 <= j < |name|
      ensures name[j] != LF
    {
      assert name[j] == t[|t| - |name| + j];
    }
  }

  lemma TrimmedLineIsClean(line: seq<byte>)
    requires IsLine(line)
    ensures CleanName(TrimLineEnd(line))
  {
    TrimmedEnd(line);
    var t := TrimLineEnd(line);
    assert t != [] ==> t[|t| - 1] == line[|t| - 1];
  }

  /** A name that came off one control line has no line feed and no carriage return at its end. */
  lemma ParsedNameIsClean(line: seq<byte>)
    requires IsLine(line) && Parse(line).Some?
    ensures CleanName(Parse(line).value.name)
  {
    TrimmedLineIsClean(line);
    NameIsField(line);
    SuffixIsClean(Parse(line).value.name, TrimLineEnd(line));
  }

  /** The receiver ends up with the sender's own name exactly when the name is clean. */
  lemma NameArrivesExactly(job: Job)
    requires job.perm < PERM_COUNT && job.size < SIZE_HALF && job.size <= |job.src|
    ensures CleanName(job.name) <==>
              (RunSink(INIT_SINK, Full(job)).phase.Stored? && RunSink(INIT_SINK, Full(job)).phase.meta.name == job.name)
  {
    if CleanName(job.name) {
      SinkAtEnd(job);
    } else if RunSink(INIT_SINK, Full(job)).phase.Stored? {
      var ts, record, meta, body := StoredIsSent([NUL], Full(job));
      SendsIsStored(Full(job), ts, record, meta, body);
      ParsedNameIsClean(record);
    }
  }
}
