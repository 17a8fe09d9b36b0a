/**
 The netboot flow line by line, each line and each error spelled out: what may be written to the console, in which
 order, and after which answers.
 */
module NetbootLines {
  import opened Bytes
  import opened Digits
  import opened ImageNames
  import opened Matching
  import opened UBootDialogue
  import opened UBootExchange
  import opened UBootExpect
  import opened UBootScript
  import opened UBootText
  import CS = ConsoleState

  // ---- The lines ------------------------------------------------------------------------------------

  predicate AllSpace(s: string) {
    forall i :: 0 <= i < |s| ==> IsSpace(s[i])
  }

  /** t is s without the white space at either end. */
  ghost predicate IsTrimmed(s: string, t: string) {
    && (exists a: string, b: string {:trigger AllSpace(a), AllSpace(b)} :: s == a + t + b && AllSpace(a) && AllSpace(b))
    && (t != "" ==> !IsSpace(t[0]) && !IsSpace(t[|t| - 1]))
  }

  /** The checksum command: the length in hexadecimal, with a sign if there is one, and the checksum in eight digits. */
  ghost predicate IsCrcLine(c: Config, p: Params, line: string) {
    exists length, word ::
      && line == "crc32 -v " + c.loadAddr + " 0x" + (if p.imageLen < 0 then "-" else "")
                 + Text(length) + " " + Text(word)
      && Spells(length, 16, 0, if p.imageLen < 0 then 0 - p.imageLen else p.imageLen)
      && |word| == 8 && ParseUint(word, 16, 0x1_0000_0000) == Some(p.imageCRC)
  }

  /** The boot line: the core mask, panic=0, and the caller's arguments, trimmed, when there are any. */
  ghost predicate IsBootLine(c: Config, p: Params, line: string) {
    exists args ::
      && IsTrimmed(p.kernelArgs, args)
      && line == "bootoctlinux $loadaddr coremask=" + c.coreMask + " endbootargs panic=0"
                 + (if args == "" then "" else " " + args)
  }

  /** How many lines there are. */
  function LineCount(p: Params): nat {
    if p.verify then 7 else 6
  }

  /** Line i of the flow. */
  ghost predicate IsLine(c: Config, p: Params, i: nat, line: string) {
    if i == 0 then line == "setenv ethact " + c.ethAct
    else if i == 1 then line == "dhcp"
    else if i == 2 then line == "setenv serverip " + if p.serverIP != "" then p.serverIP else c.serverIP
    else if i == 3 then line == "setenv loadaddr " + c.loadAddr
    else if i == 4 then line == "tftpboot $loadaddr $serverip:/" + p.image
    else if i == 5 && p.verify then IsCrcLine(c, p, line)
    else IsBootLine(c, p, line)
  }

  /** An answer to line i reports an error. */
  predicate Reports(p: Params, i: nat, answer: string) {
    if i == 0 then Mentions(answer, "Unknown command")
    else if i == 1 then Mentions(answer, "TIMEOUT") || Mentions(answer, "not set") || Mentions(answer, "failed")
    else if i == 4 then
      || Mentions(answer, "TFTP error") || Mentions(answer, "Retry count exceeded")
      || Mentions(answer, "not set") || Mentions(answer, "abort")
    else if i == 5 && p.verify then Mentions(answer, "bad") || Mentions(answer, "!=") || Mentions(answer, "error")
    else false
  }

  // ---- The answers ----------------------------------------------------------------------------------

  /** The console before line i, every earlier line having been waited for. */
  function Before(prompt: Matcher<byte>, console: CS.Console, talks: nat -> Talk, i: nat): CS.Console {
    if i == 0 then console else Hear(prompt, Before(prompt, console, talks, i - 1), talks(i - 1)).0
  }

  /** What line i hears. */
  function AnswerTo(prompt: Matcher<byte>, console: CS.Console, talks: nat -> Talk, i: nat): Reply {
    Hear(prompt, Before(prompt, console, talks, i), talks(i)).1
  }

  /** The prompt is seen, and what was kept of the answer by then, after the echo of the line, reports no error. */
  predicate Fine(prompt: Matcher<byte>, p: Params, i: nat, line: string, reply: Reply) {
    && reply.Heard? && Expect(prompt, [], reply.chunks).1
    && !Reports(p, i, AfterEcho(Text(Expect(prompt, [], reply.chunks).0), line))
  }

  /** Line k can be written and every earlier line has a fine answer. */
  ghost predicate Due(c: Config, p: Params, console: CS.Console, talks: nat -> Talk, lines: seq<string>, k: nat)
    requires k < |lines|
  {
    talks(k).written && forall i :: 0 <= i < k ==> Fine(c.prompt, p, i, lines[i], AnswerTo(c.prompt, console, talks, i))
  }

  /** Lines as they are written. */
  function AsSent(lines: seq<string>): seq<Event> {
    seq(|lines|, i requires 0 <= i < |lines| => Sent(lines[i] + "\r"))
  }

  /** All lines of the flow, in order. */
  ghost predicate AreLines(c: Config, p: Params, lines: seq<string>) {
    |lines| == LineCount(p) && forall i :: 0 <= i < |lines| ==> IsLine(c, p, i, lines[i])
  }

  /** The first n lines are the ones that are due. */
  ghost predicate DueUpTo(c: Config, p: Params, console: CS.Console, talks: nat -> Talk, lines: seq<string>, n: nat) {
    n <= |lines| && forall k :: 0 <= k < |lines| ==> (k < n <==> Due(c, p, console, talks, lines, k))
  }

  /** After the last line the kernel's banner is seen. */
  predicate BannerSeen(c: Config, p: Params, console: CS.Console, talks: nat -> Talk) {
    var k := LineCount(p) - 1;
    var reply := Hear(c.banner, Before(c.prompt, console, talks, k), talks(k)).1;
    reply.Heard? && Expect(c.banner, [], reply.chunks).1
  }

  /** What is written is the lines in order, up to the last that is due; all is well if that is all of them and the
      banner is seen. */
  ghost predicate FollowsFlow(c: Config, p: Params, console: CS.Console, talks: nat -> Talk, sent: seq<Event>,
                              ok: bool) {
    exists lines, n: nat {:trigger DueUpTo(c, p, console, talks, lines, n)} ::
      && AreLines(c, p, lines) && DueUpTo(c, p, console, talks, lines, n) && sent == AsSent(lines[..n])
      && (ok <==> n == |lines| && BannerSeen(c, p, console, talks))
  }

  // ---- The script writes these lines ------------------------------------------------------------------

  lemma {:induction false} LeftTrimmed(s: string) returns (a: string)
    ensures s == a + TrimSpaceLeft(s) && AllSpace(a)
    ensures TrimSpaceLeft(s) != "" ==> !IsSpace(TrimSpaceLeft(s)[0])
    decreases |s|
  {
    a := "";
    if s != "" && IsSpace(s[0]) {
      var b := LeftTrimmed(s[1..]);
      a := [s[0]] + b;
    }
  }

  lemma {:induction false} RightTrimmed(s: string) returns (b: string)
    ensures s == TrimSpaceRight(s) + b && AllSpace(b)
    ensures TrimSpaceRight(s) != "" ==> !IsSpace(TrimSpaceRight(s)[|TrimSpaceRight(s)| - 1])
    decreases |s|
  {
    b := "";
    if s != "" && IsSpace(s[|s| - 1]) {
      var a := RightTrimmed(s[..|s| - 1]);
      b := a + [s[|s| - 1]];
    }
  }

  lemma TrimSpaceTrims(s: string)
    ensures IsTrimmed(s, TrimSpace(s))
  {
    var l, t := TrimSpaceLeft(s), TrimSpace(s);
    var a := LeftTrimmed(s);
    var b := RightTrimmed(l);
    assert s == a + t + b;
    assert t != "" ==> t[0] == l[0];
  }

  lemma CrcTextIsLine(c: Config, p: Params)
    ensures IsCrcLine(c, p, CrcText(c, p))
  {
    var n: nat := if p.imageLen < 0 then 0 - p.imageLen else p.imageLen;
    var length, word := Print(16, n), Pad(8, Print(16, p.imageCRC));
    PrintSpells(16, n);
    CrcWordIsExact(p.imageCRC);
    assert Hex(p.imageLen) == (if p.imageLen < 0 then "-" else "") + Text(length);
    assert CrcText(c, p)
        == "crc32 -v " + c.loadAddr + " 0x" + (if p.imageLen < 0 then "-" else "") + Text(length) + " " + Text(word);
  }

  lemma BootTextIsLine(c: Config, p: Params)
    ensures IsBootLine(c, p, BootText(c, p))
  {
    TrimSpaceTrims(p.kernelArgs);
  }

  lemma ScriptLine(c: Config, p: Params, i: nat)
    requires i < LineCount(p)
    ensures |Script(c, p)| == LineCount(p) && IsLine(c, p, i, Script(c, p)[i].text)
  {
    ScriptShape(c, p);
    CrcTextIsLine(c, p);
    BootTextIsLine(c, p);
    assert i < 5 ==> Script(c, p)[i] == FetchSteps(c, p)[i];
  }

  lemma SilentOf(answer: string, markers: seq<string>)
    ensures |markers| == 0 ==> Silent(answer, markers)
    ensures |markers| == 1 ==> (Silent(answer, markers) <==> !Mentions(answer, markers[0]))
    ensures |markers| == 3 ==> (Silent(answer, markers) <==>
              !Mentions(answer, markers[0]) && !Mentions(answer, markers[1]) && !Mentions(answer, markers[2]))
    ensures |markers| == 4 ==> (Silent(answer, markers) <==>
              && !Mentions(answer, markers[0]) && !Mentions(answer, markers[1])
              && !Mentions(answer, markers[2]) && !Mentions(answer, markers[3]))
  {
  }

  lemma ScriptReports(c: Config, p: Params, i: nat, answer: string)
    requires i < LineCount(p)
    ensures |Script(c, p)| == LineCount(p) && (Silent(answer, Script(c, p)[i].markers) <==> !Reports(p, i, answer))
    ensures i < LineCount(p) - 1 ==> Script(c, p)[i].until == c.prompt
  {
    ScriptShape(c, p);
    SilentOf(answer, Script(c, p)[i].markers);
    assert i < 5 ==> Script(c, p)[i] == FetchSteps(c, p)[i];
  }

  lemma StepIsFine(c: Config, p: Params, i: nat, reply: Reply)
    requires i < LineCount(p) - 1 && |Script(c, p)| == LineCount(p)
    ensures Passed(Script(c, p)[i], reply) <==> Fine(c.prompt, p, i, Script(c, p)[i].text, reply)
  {
    var s := Script(c, p)[i];
    if reply.Heard? {
      var raw := Text(Expect(c.prompt, [], reply.chunks).0);
      ScriptReports(c, p, i, AfterEcho(raw, s.text));
      ScriptIsSolid(c, p, i);
      CleaningKeepsSilence(raw, s.text, s.markers);
    }
    ScriptReports(c, p, i, "");
  }

  lemma {:induction false} SameConsole(c: Config, p: Params, console: CS.Console, talks: nat -> Talk, i: nat)
    requires i < LineCount(p) && |Script(c, p)| == LineCount(p)
    ensures Dialogue(Script(c, p), console, talks).At(i) == Before(c.prompt, console, talks, i)
    decreases i
  {
    if i > 0 {
      SameConsole(c, p, console, talks, i - 1);
      ScriptReports(c, p, i - 1, "");
    }
  }

  lemma SameReply(c: Config, p: Params, console: CS.Console, talks: nat -> Talk, i: nat)
    requires i < LineCount(p) - 1 && |Script(c, p)| == LineCount(p)
    ensures Dialogue(Script(c, p), console, talks).Replies()(i) == AnswerTo(c.prompt, console, talks, i)
  {
    SameConsole(c, p, console, talks, i);
    ScriptReports(c, p, i, "");
  }

  /** The lines written and the verdicts of the script. */
  lemma SentIsDue(c: Config, p: Params, console: CS.Console, talks: nat -> Talk, lines: seq<string>, k: nat)
    requires AreLines(c, p, lines) && k < |lines| == |Script(c, p)|
    requires forall i :: 0 <= i < |lines| ==> lines[i] == Script(c, p)[i].text
    ensures var d := Dialogue(Script(c, p), console, talks);
            var v := Verdicts(d.script, d.Replies());
            k < SentCount(v, d.Replies()) <==> Due(c, p, console, talks, lines, k)
  {
    var d := Dialogue(Script(c, p), console, talks);
    var v := Verdicts(d.script, d.Replies());
    forall i | 0 <= i < k
      ensures v[i] <==> Fine(c.prompt, p, i, lines[i], AnswerTo(c.prompt, console, talks, i))
    {
      SameReply(c, p, console, talks, i);
      StepIsFine(c, p, i, d.Replies()(i));
    }
    VerdictNeedsWrite(d, k);
    CountedExactly(v, d.Replies(), k);
  }

  lemma VerdictNeedsWrite(d: Dialogue, k: nat)
    requires k < |d.script|
    ensures d.Replies()(k).Heard? <==> d.talks(k).written
    ensures forall i :: 0 <= i < |d.script| && Verdicts(d.script, d.Replies())[i] ==> d.Replies()(i).Heard?
  {
  }

  /** Line k is among those written exactly when the verdicts before it are true and it could be written. */
  lemma CountedExactly(v: seq<bool>, replies: nat -> Reply, k: nat)
    requires k < |v| && forall i :: 0 <= i < |v| && v[i] ==> replies(i).Heard?
    ensures k < SentCount(v, replies) <==> replies(k).Heard? && forall i :: 0 <= i < k ==> v[i]
  {
    assert Reach(v) < k ==> !v[Reach(v)];
  }

  lemma SentLines(script: seq<Step>, lines: seq<string>, n: nat)
    requires n <= |lines| == |script| && forall i :: 0 <= i < |lines| ==> lines[i] == script[i].text
    ensures Lines(script, n) == AsSent(lines[..n])
  {
  }

  lemma LastStep(c: Config, p: Params)
    ensures |Script(c, p)| == LineCount(p)
    ensures var s := Script(c, p)[LineCount(p) - 1]; s.until == c.banner && s.markers == []
  {
    ScriptShape(c, p);
  }

  lemma LastReply(d: Dialogue, c: Config, p: Params, console: CS.Console, talks: nat -> Talk, k: nat)
    requires d == Dialogue(Script(c, p), console, talks) && |d.script| == LineCount(p) && k == LineCount(p) - 1
    requires d.script[k].until == c.banner
    ensures d.Replies()(k) == Hear(c.banner, Before(c.prompt, console, talks, k), talks(k)).1
  {
    SameConsole(c, p, console, talks, k);
  }

  lemma PassesUnmarked(s: Step, reply: Reply)
    requires s.markers == []
    ensures Passed(s, reply) <==> reply.Heard? && Expect(s.until, [], reply.chunks).1
  {
  }

  lemma LastVerdictIs(c: Config, p: Params, console: CS.Console, talks: nat -> Talk)
    ensures var d := Dialogue(Script(c, p), console, talks);
            && |d.script| == LineCount(p)
            && (Passed(d.script[LineCount(p) - 1], d.Replies()(LineCount(p) - 1)) <==> BannerSeen(c, p, console, talks))
  {
    var d, k := Dialogue(Script(c, p), console, talks), LineCount(p) - 1;
    LastStep(c, p);
    LastReply(d, c, p, console, talks, k);
    PassesUnmarked(d.script[k], d.Replies()(k));
  }

  lemma AllTrue(v: seq<bool>, replies: nat -> Reply)
    requires v != [] && forall i :: 0 <= i < |v| && v[i] ==> replies(i).Heard?
    ensures Reach(v) == |v| <==> SentCount(v, replies) == |v| && v[|v| - 1]
  {
  }

  /** The script passes exactly if every line was written and the banner is seen. */
  lemma WellExactly(c: Config, p: Params, console: CS.Console, talks: nat -> Talk)
    ensures var d := Dialogue(Script(c, p), console, talks);
            var v := Verdicts(d.script, d.Replies());
            && |v| == LineCount(p)
            && (Reach(v) == |v| <==> SentCount(v, d.Replies()) == |v| && BannerSeen(c, p, console, talks))
  {
    var d := Dialogue(Script(c, p), console, talks);
    var v := Verdicts(d.script, d.Replies());
    LastVerdictIs(c, p, console, talks);
    VerdictNeedsWrite(d, 0);
    AllTrue(v, d.Replies());
    assert v[|v| - 1] == Passed(d.script[|v| - 1], d.Replies()(|v| - 1));
  }

  /** What the script writes is the spelled-out flow. */
  lemma ScriptFollowsFlow(c: Config, p: Params, console: CS.Console, talks: nat -> Talk)
    ensures var d := Dialogue(Script(c, p), console, talks);
            var v := Verdicts(d.script, d.Replies());
            FollowsFlow(c, p, console, talks, Lines(d.script, SentCount(v, d.Replies())), Reach(v) == |v|)
  {
    var d := Dialogue(Script(c, p), console, talks);
    ScriptLine(c, p, 0);
    var lines := seq(|d.script|, i requires 0 <= i < |d.script| => d.script[i].text);
    forall i | 0 <= i < |lines|
      ensures IsLine(c, p, i, lines[i])
    {
      ScriptLine(c, p, i);
    }
    var n := SentCount(Verdicts(d.script, d.Replies()), d.Replies());
    forall k | 0 <= k < |lines|
      ensures k < n <==> Due(c, p, console, talks, lines, k)
    {
      SentIsDue(c, p, console, talks, lines, k);
    }
    SentLines(d.script, lines, n);
    WellExactly(c, p, console, talks);
    assert DueUpTo(c, p, console, talks, lines, n);
  }

  // ---- What that says about the boot line -----------------------------------------------------------------

  /** No other line begins like the boot line. */
  lemma OtherLine(c: Config, p: Params, i: nat, line: string)
    requires i < LineCount(p) && IsLine(c, p, i, line)
    ensures line != "" && (line[0] == 'b' <==> i == LineCount(p) - 1)
  {
  }

  /** Something that begins like the boot line is among what is written. */
  predicate BootSent(sent: seq<Event>) {
    exists k :: 0 <= k < |sent| && sent[k].Sent? && sent[k].line != "" && sent[k].line[0] == 'b'
  }

  /** The boot line is written exactly when it can be and every earlier line, as spelled out, has a fine answer. */
  lemma BootsExactly(c: Config, p: Params, console: CS.Console, talks: nat -> Talk, sent: seq<Event>,
                    ok: bool)
      returns (lines: seq<string>)
    requires FollowsFlow(c, p, console, talks, sent, ok)
    ensures AreLines(c, p, lines)
    ensures |sent| <= |lines| && sent == AsSent(lines[..|sent|])
    ensures BootSent(sent) <==> Sent(lines[LineCount(p) - 1] + "\r") in sent
    ensures BootSent(sent) <==> Due(c, p, console, talks, lines, LineCount(p) - 1)
    ensures ok <==> BootSent(sent) && BannerSeen(c, p, console, talks)
  {
    var n: nat;
    lines, n :| && AreLines(c, p, lines) && DueUpTo(c, p, console, talks, lines, n) && sent == AsSent(lines[..n])
                && (ok <==> n == |lines| && BannerSeen(c, p, console, talks));
    forall i | 0 <= i < |lines|
      ensures lines[i] != "" && (lines[i][0] == 'b' <==> i == LineCount(p) - 1)
    {
      OtherLine(c, p, i, lines[i]);
    }
    forall i | 0 <= i < n
      ensures sent[i] == Sent(lines[i] + "\r") && sent[i].line[0] == lines[i][0]
    {
    }
  }
}
