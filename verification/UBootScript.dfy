/** The commands of the netboot flow, and when each of them passes, whatever the console answers. */
module UBootScript {
  import opened Bytes
  import opened Digits
  import opened Matching
  import opened Scanner
  import opened UBootExchange
  import opened UBootExpect
  import opened UBootText
  import AB = Autoboot
  import ImageNames

  const CRC_LIMIT: nat := 0x1_0000_0000

  type uint32 = n: nat | n < CRC_LIMIT

  function Text(bs: seq<byte>): string {
    seq(|bs|, i requires 0 <= i < |bs| => bs[i] as char)
  }

  // ---- Results ---------------------------------------------------------------------------

  datatype Error =
    | NoImage | NoServerIP | NotCaught(why: AB.BootError)
    | WriteFailed | Ctx | Closed | Reported(marker: string)

  /** Blocked while a wait has not returned. */
  datatype Result = Ok | Err(error: Error) | Blocked

  datatype Event = Cycled | SawAutoboot | Key | SawPrompt | Sent(line: string)

  /** How send-and-expect reports: the match, the failed write, or what cut the wait short. */
  function Waited(pick: Matcher<byte>, reply: Reply): Result {
    match reply
    case WriteFails => Err(WriteFailed)
    case Heard(chunks, ending) =>
      if Expect(pick, [], chunks).1 then Ok
      else
        match ending
        case CtxDone => Err(Ctx)
        case ConsoleClosed => Err(Closed)
        case NotCut => Blocked
  }

  // ---- One command -------------------------------------------------------------------------

  /** A line of the script, the pattern that ends its output, and what its output must not mention. */
  datatype Step = Step(text: string, until: Matcher<byte>, markers: seq<string>)

  predicate Silent(text: string, markers: seq<string>) {
    forall i :: 0 <= i < |markers| ==> !Mentions(text, markers[i])
  }

  /** The step's line is written, the pattern arrives, and the cleaned output mentions no marker. */
  predicate Passed(s: Step, reply: Reply) {
    reply.Heard? && Expect(s.until, [], reply.chunks).1 && Unmarked(s, Expect(s.until, [], reply.chunks).0)
  }

  /** Cleaned, what has been accumulated mentions no marker. */
  predicate Unmarked(s: Step, acc: seq<byte>) {
    Silent(Clean(Text(acc), s.text), s.markers)
  }

  /** The text received up to and including chunk k, after the echo of the command. */
  function Response(s: Step, chunks: seq<seq<byte>>, k: nat): string
    requires k < |chunks|
  {
    AfterEcho(Text(Flatten(chunks[..k + 1])), s.text)
  }

  /** The same without trimming or cleaning: the pattern is seen, and what was received by then, after the echo of
      the command, mentions no marker. */
  ghost predicate Answered(s: Step, reply: Reply) {
    && reply.Heard?
    && exists k :: FirstSeen(s.until, reply.chunks, k) && Silent(Response(s, reply.chunks, k), s.markers)
  }

  ghost predicate AllSolid(markers: seq<string>) {
    forall i :: 0 <= i < |markers| ==> Solid(markers[i])
  }

  lemma CleaningKeepsSilence(raw: string, command: string, markers: seq<string>)
    requires AllSolid(markers)
    ensures Silent(Clean(raw, command), markers) <==> Silent(AfterEcho(raw, command), markers)
  {
    forall i | 0 <= i < |markers|
      ensures Mentions(Clean(raw, command), markers[i]) <==> Mentions(AfterEcho(raw, command), markers[i])
    {
      CleaningKeepsMarkers(raw, command, markers[i]);
    }
  }

  /** What arrives until the pattern is first seen fits the window. */
  ghost predicate FitsWhenSeen(s: Step, reply: Reply) {
    reply.Heard? ==>
      forall k :: FirstSeen(s.until, reply.chunks, k) ==> |Flatten(reply.chunks[..k + 1])| <= MAX_PATTERN_WINDOW
  }

  /** However long the answer: passing is seeing the pattern with what is kept, after its echo, mentioning no marker. */
  lemma PassedIsKept(s: Step, reply: Reply)
    requires Fresh(s.until, EXPECT_MATCH_WIDTH) && AllSolid(s.markers) && reply.Heard?
    ensures var (acc, ok) := Expect(s.until, [], reply.chunks);
            && (ok <==> exists k :: FirstSeen(s.until, reply.chunks, k))
            && (forall k :: FirstSeen(s.until, reply.chunks, k) ==> Kept(acc, Flatten(reply.chunks[..k + 1])))
            && (Passed(s, reply) <==> ok && Silent(AfterEcho(Text(acc), s.text), s.markers))
  {
    ExpectRefinesRescan(s.until, reply.chunks);
    CleaningKeepsSilence(Text(Expect(s.until, [], reply.chunks).0), s.text, s.markers);
  }

  /** While the answer fits, that is the answer as it was received. */
  lemma PassedIsAnswered(s: Step, reply: Reply)
    requires Fresh(s.until, EXPECT_MATCH_WIDTH) && AllSolid(s.markers) && FitsWhenSeen(s, reply)
    ensures Passed(s, reply) <==> Answered(s, reply)
  {
    if reply.Heard? {
      PassedIsKept(s, reply);
      forall k | FirstSeen(s.until, reply.chunks, k)
        ensures Passed(s, reply) <==> Silent(Response(s, reply.chunks, k), s.markers)
      {
        ExpectReturnsAll(s.until, reply.chunks, k);
      }
    }
  }

  // ---- The script -----------------------------------------------------------------------------

  datatype Config = Config(
    prompt: Matcher<byte>, interrupt: Matcher<byte>, banner: Matcher<byte>,
    ethAct: string, loadAddr: string, coreMask: string, serverIP: string)

  datatype Params = Params(
    image: string, powerCycle: bool, serverIP: string, kernelArgs: string,
    verify: bool, imageLen: int, imageCRC: uint32)

  function ServerIP(c: Config, p: Params): string {
    if p.serverIP == "" then c.serverIP else p.serverIP
  }

  /** fmt's %x of a signed integer. */
  function Hex(n: int): string {
    if n < 0 then "-" + Text(Print(16, -n)) else Text(Print(16, n))
  }

  function CrcText(c: Config, p: Params): string {
    "crc32 -v " + c.loadAddr + " 0x" + Hex(p.imageLen) + " " + Text(Pad(8, Print(16, p.imageCRC)))
  }

  /** The checksum word is eight digits and denotes the expected checksum. */
  lemma CrcWordIsExact(crc: uint32)
    ensures |Pad(8, Print(16, crc))| == 8
    ensures ParseUint(Pad(8, Print(16, crc)), 16, CRC_LIMIT) == Some(crc)
  {
    PrintLength(16, crc, 8);
    ParsePrinted(16, 8, crc, CRC_LIMIT);
  }

  function BootText(c: Config, p: Params): string {
    "bootoctlinux $loadaddr coremask=" + c.coreMask + " endbootargs panic=0"
    + if ImageNames.TrimSpace(p.kernelArgs) != "" then " " + ImageNames.TrimSpace(p.kernelArgs) else ""
  }

  /** The commands that fetch the image. */
  function FetchSteps(c: Config, p: Params): seq<Step> {
    [ Step("setenv ethact " + c.ethAct, c.prompt, ["Unknown command"]),
      Step("dhcp", c.prompt, ["TIMEOUT", "not set", "failed"]),
      Step("setenv serverip " + ServerIP(c, p), c.prompt, []),
      Step("setenv loadaddr " + c.loadAddr, c.prompt, []),
      Step("tftpboot $loadaddr $serverip:/" + p.image, c.prompt,
           ["TFTP error", "Retry count exceeded", "not set", "abort"]) ]
  }

  function CrcStep(c: Config, p: Params): Step {
    Step(CrcText(c, p), c.prompt, ["bad", "!=", "error"])
  }

  function BootStep(c: Config, p: Params): Step {
    Step(BootText(c, p), c.banner, [])
  }

  function Assemble(fetch: seq<Step>, check: Option<Step>, boot: Step): seq<Step> {
    fetch + (if check.Some? then [check.value] else []) + [boot]
  }

  function Script(c: Config, p: Params): seq<Step> {
    Assemble(FetchSteps(c, p), if p.verify then Some(CrcStep(c, p)) else None, BootStep(c, p))
  }

  /** The lines of the first n steps, as written. */
  function Lines(script: seq<Step>, n: nat): seq<Event>
    requires n <= |script|
  {
    seq(n, i requires 0 <= i < n => Sent(script[i].text + "\r"))
  }

  function Verdicts(script: seq<Step>, replies: nat -> Reply): seq<bool> {
    seq(|script|, i requires 0 <= i < |script| => Passed(script[i], replies(i)))
  }

  /** The number of verdicts before the first that is false. */
  function Reach(v: seq<bool>): (n: nat)
    ensures n <= |v|
    ensures forall i :: 0 <= i < n ==> v[i]
    ensures n < |v| ==> !v[n]
  {
    if v == [] || !v[0] then 0 else 1 + Reach(v[1..])
  }

  /** The number of lines written: every step passed, and the first that is not unless its write failed. */
  function SentCount(v: seq<bool>, replies: nat -> Reply): (n: nat)
    ensures n <= |v|
  {
    var k := Reach(v);
    if k < |v| && replies(k).Heard? then k + 1 else k
  }

  lemma ReachIs(v: seq<bool>, n: nat)
    requires n <= |v| && (forall i :: 0 <= i < n ==> v[i]) && (n < |v| ==> !v[n])
    ensures Reach(v) == n
  {
  }

  ghost predicate Judged(v: seq<bool>, script: seq<Step>, replies: nat -> Reply) {
    && |v| == |script|
    && forall i {:trigger Passed(script[i], replies(i))} :: 0 <= i < |v| ==> v[i] == Passed(script[i], replies(i))
  }

  lemma VerdictsJudge(script: seq<Step>, replies: nat -> Reply)
    ensures Judged(Verdicts(script, replies), script, replies)
  {
  }

  predicate Upto(v: seq<bool>, n: nat) {
    n <= |v| && forall i :: 0 <= i < n ==> v[i]
  }

  lemma BootPasses(s: Step, reply: Reply)
    requires s.markers == []
    ensures Passed(s, reply) <==> Waited(s.until, reply).Ok?
    ensures Passed(s, reply) ==> reply.Heard?
  {
  }

  lemma LastVerdict(v: seq<bool>, i: nat, replies: nat -> Reply, ok: bool)
    requires |v| == i + 1 && Upto(v, i) && v[i] == ok && (ok ==> replies(i).Heard?)
    ensures ok <==> Reach(v) == |v|
    ensures SentCount(v, replies) == if replies(i).Heard? then i + 1 else i
  {
    ReachIs(v, if ok then i + 1 else i);
  }

  lemma OneMoreLine(script: seq<Step>, i: nat)
    requires i < |script|
    ensures Lines(script, i + 1) == Lines(script, i) + [Sent(script[i].text + "\r")]
  {
  }

  lemma ScriptShape(c: Config, p: Params)
    ensures var s := Script(c, p);
            && |s| == (if p.verify then 7 else 6)
            && s[..5] == FetchSteps(c, p) && s[|s| - 1] == BootStep(c, p)
            && (p.verify ==> s[5] == CrcStep(c, p))
  {
  }

  lemma SolidMarkers()
    ensures AllSolid(["Unknown command"]) && AllSolid(["TIMEOUT", "not set", "failed"])
  {
    assert "Unknown command"[0] == 'U';
    assert "TIMEOUT"[0] == 'T';
    assert "not set"[0] == 'n';
    assert "failed"[0] == 'f';
  }

  lemma SolidTftpMarkers()
    ensures AllSolid(["TFTP error", "Retry count exceeded", "not set", "abort"])
  {
    var words := ["TFTP error", "Retry count exceeded", "not set", "abort"];
    forall i | 0 <= i < |words|
      ensures Solid(words[i])
    {
      assert words[i][0] == (if i == 0 then 'T' else if i == 1 then 'R' else if i == 2 then 'n' else 'a');
    }
  }

  lemma SolidCrcMarkers()
    ensures AllSolid(["bad", "!=", "error"])
  {
    assert "bad"[0] == 'b';
    assert "!="[0] == '!';
    assert "error"[0] == 'e';
  }

  lemma ScriptIsSolid(c: Config, p: Params, i: nat)
    requires i < |Script(c, p)|
    ensures AllSolid(Script(c, p)[i].markers)
  {
    ScriptShape(c, p);
    SolidMarkers();
    SolidTftpMarkers();
    SolidCrcMarkers();
    assert i < 5 ==> Script(c, p)[i] == FetchSteps(c, p)[i];
  }

  /** No other line of the script is the boot line. */
  lemma BootLineIsLast(c: Config, p: Params, n: nat)
    requires n <= |Script(c, p)|
    ensures Sent(BootText(c, p) + "\r") in Lines(Script(c, p), n) <==> n == |Script(c, p)|
  {
    var s, line := Script(c, p), BootText(c, p) + "\r";
    ScriptShape(c, p);
    assert line[0] == 'b';
    forall i | 0 <= i < |s| - 1
      ensures s[i].text + "\r" != line
    {
      assert i < 5 ==> s[i] == FetchSteps(c, p)[i];
      assert (s[i].text + "\r")[0] != 'b';
    }
    if n == |s| {
      assert Lines(s, n)[n - 1] == Sent(line);
    }
  }

  /** With verification asked for, the last three commands are the fetch, the checksum and the boot line. */
  lemma ChecksumJustBeforeBoot(c: Config, p: Params)
    ensures p.verify ==> Script(c, p)[4..] == [FetchSteps(c, p)[4], CrcStep(c, p), BootStep(c, p)]
    ensures !p.verify ==> Script(c, p)[4..] == [FetchSteps(c, p)[4], BootStep(c, p)]
  {
    ScriptShape(c, p);
  }

  /** The boot line is among the lines written. */
  predicate Booted(c: Config, p: Params, replies: nat -> Reply) {
    var s := Script(c, p);
    Sent(BootText(c, p) + "\r") in Lines(s, SentCount(Verdicts(s, replies), replies))
  }

  /** The kernel is booted exactly when every earlier command passed and the boot line could be written. */
  lemma BootedExactly(c: Config, p: Params, replies: nat -> Reply)
    ensures var s := Script(c, p);
            Booted(c, p, replies)
            <==> replies(|s| - 1).Heard? && AllPassed(s, replies, |s| - 1)
  {
    var s := Script(c, p);
    BootedByVerdicts(c, p, replies);
    PassedByVerdicts(s, replies, |s| - 1);
  }

  predicate AllPassed(s: seq<Step>, replies: nat -> Reply, n: nat)
    requires n <= |s|
  {
    forall i :: 0 <= i < n ==> Passed(s[i], replies(i))
  }

  lemma PassedByVerdicts(s: seq<Step>, replies: nat -> Reply, n: nat)
    requires n <= |s|
    ensures AllPassed(s, replies, n) <==> forall i :: 0 <= i < n ==> Verdicts(s, replies)[i]
  {
    var v := Verdicts(s, replies);
    assert forall i :: 0 <= i < n ==> v[i] == Passed(s[i], replies(i));
  }

  lemma BootedByVerdicts(c: Config, p: Params, replies: nat -> Reply)
    ensures var v := Verdicts(Script(c, p), replies);
            Booted(c, p, replies)
            <==> replies(|v| - 1).Heard? && forall i :: 0 <= i < |v| - 1 ==> v[i]
  {
    var v := Verdicts(Script(c, p), replies);
    ScriptShape(c, p);
    BootLineIsLast(c, p, SentCount(v, replies));
    CountsAll(v, replies);
  }

  /** Every line is written exactly when all verdicts but the last are true and the last line could be written. */
  lemma CountsAll(v: seq<bool>, replies: nat -> Reply)
    requires v != [] && (v[|v| - 1] ==> replies(|v| - 1).Heard?)
    ensures SentCount(v, replies) == |v|
       <==> replies(|v| - 1).Heard? && forall i :: 0 <= i < |v| - 1 ==> v[i]
  {
    if forall i :: 0 <= i < |v| - 1 ==> v[i] {
      ReachIs(v, if v[|v| - 1] then |v| else |v| - 1);
    }
  }
}
