/**
 Two consoles that report an error of "dhcp" and on which the kernel is booted all the same: one whose answer is longer
 than what is kept of it, and one whose answers come one prompt late.
 */
module Overlooked {
  import opened Bytes
  import opened CleanBoot
  import opened Matching
  import opened MissedMarkers
  import opened Scanner
  import opened UBootDialogue
  import opened UBootExchange
  import opened UBootExpect
  import opened UBootScript
  import opened UBootText
  import CS = ConsoleState
  import PW = PatternWait

  /** The most that the read loop publishes at once. */
  const READ_SIZE: nat := 4096

  const PROMPT: seq<byte> := [61, 62]

  /** "failed". */
  const FAILED: seq<byte> := [102, 97, 105, 108, 101, 100]

  /** What "dhcp" prints: its echo, "TIMEOUT" and the prompt, on a line each. */
  const TIMED_OUT: seq<byte> :=
    [100, 104, 99, 112, 13, 10, 84, 73, 77, 69, 79, 85, 84, 13, 10, 61, 62]

  /** Matches "=>" at the end of the output. */
  function PickPrompt(t: seq<byte>): Option<nat> {
    if t == PROMPT then Some(2) else None
  }

  lemma PromptIsFresh()
    ensures Fresh(PickPrompt, EXPECT_MATCH_WIDTH)
  {
    EndAnchoredIsFresh(PickPrompt, EXPECT_MATCH_WIDTH);
  }

  /** Text that does not end in the prompt holds no match; text that does holds one. */
  lemma PromptAtEnd(t: seq<byte>)
    ensures FindIndex(PickPrompt, t).Some? <==> IsSuffix(PROMPT, t)
  {
    FindFromIsLeftmost(PickPrompt, t, 0);
    if IsSuffix(PROMPT, t) {
      assert t[|t| - 2..] == PROMPT;
    }
  }

  lemma PromptEnds(t: seq<byte>)
    ensures FindIndex(PickPrompt, t + PROMPT).Some?
  {
    PromptAtEnd(t + PROMPT);
  }

  lemma OtherEnds(t: seq<byte>, chunk: seq<byte>)
    requires chunk != [] && chunk[|chunk| - 1] != 62
    ensures FindIndex(PickPrompt, t + chunk).None?
  {
    PromptAtEnd(t + chunk);
    assert (t + chunk)[|t + chunk| - 1] == chunk[|chunk| - 1] && PROMPT[1] == 62;
  }

  // ---- A console that answers each line with given chunks ------------------------------------------

  type Answers = seq<seq<seq<byte>>>

  /** Line i is answered with answers[i]; nothing is seen after the lines that have an answer. */
  function Speech(answers: Answers): nat -> Talk {
    (i: nat) => Said(if i < |answers| then answers[i] else [])
  }

  /** Every answer ends with the first prompt in it. */
  ghost predicate Given(d: Dialogue, answers: Answers) {
    |answers| <= |d.script| && forall i :: 0 <= i < |answers| ==> GivenAt(d, i, answers[i])
  }

  ghost predicate GivenAt(d: Dialogue, i: nat, answer: seq<seq<byte>>) {
    i < |d.script| && d.talks(i) == Said(answer) && MatchedLast(d.script[i].until, [], answer)
  }

  ghost predicate Open(c: CS.Console) {
    CS.Inv(c) && !c.closed
  }

  lemma SaidTo(pick: Matcher<byte>, c: CS.Console, t: Talk, answer: seq<seq<byte>>)
    requires Open(c) && t == Said(answer) && MatchedLast(pick, [], answer)
    ensures var (d, r) := Hear(pick, c, t);
            r == Heard(answer, NotCut) && Open(d) && d.chunks == c.chunks + answer
    ensures Began(c, t) == PW.Len(c)
  {
    SaidIsHeard(pick, c, answer);
  }

  lemma OneAnswer(d: Dialogue, i: nat, k: nat, answer: seq<seq<byte>>)
    requires GivenAt(d, i, answer) && k == i + 1 && Open(d.At(i))
    ensures Open(d.At(k)) && d.At(k).chunks == d.At(i).chunks + answer
    ensures d.ReplyTo(i) == Heard(answer, NotCut) && d.From(i) == PW.Len(d.At(i))
  {
    SaidTo(d.script[i].until, d.At(i), d.talks(i), answer);
  }

  lemma {:induction false} StaysOpen(d: Dialogue, answers: Answers, i: nat)
    requires Given(d, answers) && Open(d.start) && i <= |answers|
    ensures Open(d.At(i))
    decreases i
  {
    if i > 0 {
      var h := i - 1;
      StaysOpen(d, answers, h);
      OneAnswer(d, h, i, answers[h]);
    }
  }

  /** Each line is answered as given. */
  lemma Answered(d: Dialogue, answers: Answers, i: nat)
    requires Given(d, answers) && Open(d.start) && i < |answers|
    ensures d.ReplyTo(i) == Heard(answers[i], NotCut) && d.From(i) == PW.Len(d.At(i))
  {
    StaysOpen(d, answers, i);
    OneAnswer(d, i, i + 1, answers[i]);
  }

  /** The next begins where its answer ends. */
  lemma NextFrom(d: Dialogue, answers: Answers, i: nat, k: nat)
    requires Given(d, answers) && Open(d.start) && k == i + 1 < |answers|
    ensures d.From(k) == d.Until(i)
  {
    Answered(d, answers, k);
    StaysOpen(d, answers, i);
    OneAnswer(d, i, k, answers[i]);
    FlattenAppend(d.At(i).chunks, answers[i]);
  }

  // ---- Text in which nothing is mentioned ----------------------------------------------------------

  /** Prompts and spaces. */
  predicate Blank(bs: seq<byte>) {
    forall i :: 0 <= i < |bs| ==> bs[i] == 61 || bs[i] == 62 || bs[i] == 32
  }

  lemma PaddingIsSilent(text: string, markers: seq<string>)
    requires AllSolid(markers)
    requires forall i :: 0 <= i < |text| ==> text[i] == '=' || text[i] == '>' || IsPad(text[i])
    ensures Silent(text, markers)
  {
    forall j | 0 <= j < |markers|
      ensures !Mentions(text, markers[j])
    {
      PromptCharsAreSilent(text, markers[j]);
    }
  }

  lemma BlankAfterEcho(acc: seq<byte>, command: string, markers: seq<string>)
    requires AllSolid(markers) && Blank(acc)
    ensures Silent(AfterEcho(Text(acc), command), markers)
  {
    var n := EchoEnd(Text(acc), command);
    assert forall i :: n <= i < |acc| ==> Text(acc)[i] == acc[i] as char;
    PaddingIsSilent(Text(acc)[n..], markers);
  }

  /** A line passes if its answer ends with the first prompt in it and what is kept of it is blank, or if it has no
      markers. */
  lemma BlankPasses(s: Step, chunks: seq<seq<byte>>)
    requires s.until == PickPrompt && AllSolid(s.markers) && MatchedLast(PickPrompt, [], chunks)
    requires s.markers == [] || Blank(Expect(PickPrompt, [], chunks).0)
    ensures Passed(s, Heard(chunks, NotCut))
  {
    PromptIsFresh();
    MatchedLastMatches(PickPrompt, [], chunks);
    PassedIsKept(s, Heard(chunks, NotCut));
    if s.markers != [] {
      BlankAfterEcho(Expect(PickPrompt, [], chunks).0, s.text, s.markers);
    }
  }

  lemma BarePrompt()
    ensures MatchedLast(PickPrompt, [], [PROMPT]) && Expect(PickPrompt, [], [PROMPT]) == (PROMPT, true)
  {
    assert [] + PROMPT == PROMPT;
    PromptEnds([]);
  }

  /** Every answer can be told from a failure by none of the checks. */
  ghost predicate Unremarkable(script: seq<Step>, answers: Answers) {
    |answers| < |script| && forall i :: 0 <= i < |answers| ==> GoesUnremarked(script[i], answers[i])
  }

  ghost predicate GoesUnremarked(s: Step, answer: seq<seq<byte>>) {
    && s.until == PickPrompt && AllSolid(s.markers) && MatchedLast(PickPrompt, [], answer)
    && (s.markers == [] || Blank(Expect(PickPrompt, [], answer).0))
  }

  lemma SpeechIsGiven(d: Dialogue, answers: Answers)
    requires Unremarkable(d.script, answers) && d.talks == Speech(answers)
    ensures Given(d, answers)
  {
    forall i | 0 <= i < |answers|
      ensures GivenAt(d, i, answers[i])
    {
      assert GoesUnremarked(d.script[i], answers[i]);
    }
  }

  lemma UnremarkedPasses(d: Dialogue, answers: Answers, i: nat)
    requires Given(d, answers) && Unremarkable(d.script, answers) && Open(d.start) && i < |answers|
    ensures Passed(d.script[i], d.ReplyTo(i))
  {
    Answered(d, answers, i);
    assert GoesUnremarked(d.script[i], answers[i]);
    BlankPasses(d.script[i], answers[i]);
  }

  lemma AllUnremarked(d: Dialogue, answers: Answers)
    requires Given(d, answers) && Unremarkable(d.script, answers) && Open(d.start)
    ensures forall i :: 0 <= i < |answers| ==> Passed(d.script[i], d.ReplyTo(i))
  {
    forall i | 0 <= i < |answers|
      ensures Passed(d.script[i], d.ReplyTo(i))
    {
      UnremarkedPasses(d, answers, i);
    }
  }

  lemma PassedBoots(c: Config, p: Params, console: CS.Console, talks: nat -> Talk)
    requires var d := Netboot(c, p, console, talks);
             && BootLine(c, p) < |d.script| && talks(BootLine(c, p)).written
             && forall i :: 0 <= i < BootLine(c, p) ==> Passed(d.script[i], d.ReplyTo(i))
    ensures Booted(c, p, Netboot(c, p, console, talks).Replies())
  {
    BootedByLines(c, p, console, talks);
  }

  /** If every line up to the boot line passes on its given answer, the kernel is booted. */
  lemma SpeechBoots(c: Config, p: Params, console: CS.Console, answers: Answers) returns (d: Dialogue)
    requires Open(console) && |answers| == BootLine(c, p) && Unremarkable(Script(c, p), answers)
    ensures d == Netboot(c, p, console, Speech(answers)) && Given(d, answers) && Booted(c, p, d.Replies())
  {
    d := Netboot(c, p, console, Speech(answers));
    SpeechIsGiven(d, answers);
    AllUnremarked(d, answers);
    assert Speech(answers)(BootLine(c, p)) == Said([]);
    PassedBoots(c, p, console, Speech(answers));
  }

  /** Line n is answered with this, every other with a prompt. */
  function Except(c: Config, p: Params, n: nat, answer: seq<seq<byte>>): Answers {
    seq(BootLine(c, p), i => if i == n then answer else [PROMPT])
  }

  lemma ExceptIsUnremarkable(c: Config, p: Params, n: nat, answer: seq<seq<byte>>)
    requires c.prompt == PickPrompt && n < BootLine(c, p)
    requires n < |Script(c, p)| ==> GoesUnremarked(Script(c, p)[n], answer)
    ensures Unremarkable(Script(c, p), Except(c, p, n, answer))
  {
    LastLine(c, p);
    BarePrompt();
    forall i | 0 <= i < BootLine(c, p)
      ensures GoesUnremarked(Script(c, p)[i], Except(c, p, n, answer)[i])
    {
      EarlierLine(c, p, i);
    }
  }

  // ---- An answer longer than what is kept ------------------------------------------------------------

  const BLANKS: nat := MAX_PATTERN_WINDOW / READ_SIZE

  function Spaces(n: nat): seq<byte> {
    seq(n, _ => 32)
  }

  /** n chunks of spaces. */
  function Padding(n: nat): seq<seq<byte>> {
    seq(n, _ => Spaces(READ_SIZE))
  }

  /** "failed", a whole window of spaces, the prompt. */
  function LongAnswer(): seq<seq<byte>> {
    [FAILED] + Padding(BLANKS) + [PROMPT]
  }

  lemma {:induction false} PaddingMatchesLast(acc: seq<byte>, n: nat)
    ensures MatchedLast(PickPrompt, acc, Padding(n) + [PROMPT])
    decreases n
  {
    if n == 0 {
      assert Padding(0) + [PROMPT] == [PROMPT];
      PromptEnds(acc);
    } else {
      OtherEnds(acc, Spaces(READ_SIZE));
      PaddingMatchesLast(Trim(acc + Spaces(READ_SIZE)), n - 1);
      assert Padding(n) + [PROMPT] == [Spaces(READ_SIZE)] + (Padding(n - 1) + [PROMPT]);
      MatchedLastStep(PickPrompt, acc, Spaces(READ_SIZE), Padding(n - 1) + [PROMPT]);
    }
  }

  lemma LongMatchesLast()
    ensures MatchedLast(PickPrompt, [], LongAnswer())
  {
    OtherEnds([], FAILED);
    PaddingMatchesLast(Trim([] + FAILED), BLANKS);
    assert LongAnswer() == [FAILED] + (Padding(BLANKS) + [PROMPT]);
    MatchedLastStep(PickPrompt, [], FAILED, Padding(BLANKS) + [PROMPT]);
  }

  lemma {:induction false} FlattenPadding(n: nat)
    ensures Flatten(Padding(n)) == Spaces(READ_SIZE * n)
  {
    if n == 0 {
      assert Padding(0) == [] && Spaces(0) == [];
    } else {
      FlattenPadding(n - 1);
      assert Padding(n) == Padding(n - 1) + [Spaces(READ_SIZE)];
      FlattenSnoc(Padding(n - 1), Spaces(READ_SIZE));
    }
  }

  lemma LongText()
    ensures Flatten(LongAnswer()) == FAILED + Spaces(MAX_PATTERN_WINDOW) + PROMPT
  {
    PaddingText();
    FlattenAround(FAILED, Padding(BLANKS), PROMPT);
  }

  lemma PaddingText()
    ensures Flatten(Padding(BLANKS)) == Spaces(MAX_PATTERN_WINDOW)
  {
    FlattenPadding(BLANKS);
  }

  lemma FlattenAround(a: seq<byte>, rest: seq<seq<byte>>, b: seq<byte>)
    ensures Flatten([a] + rest + [b]) == a + Flatten(rest) + b
  {
    FlattenOne(a);
    FlattenAppend([a], rest);
    FlattenSnoc([a] + rest, b);
  }

  /** Until the padding exceeds the window, everything is held. */
  lemma {:induction false} HeldPadding(n: nat)
    requires n <= BLANKS
    ensures HeldBefore(LongAnswer(), n + 1) == if n == BLANKS then MAX_PATTERN_WINDOW / 2 else |FAILED| + READ_SIZE * n
  {
    if n == 0 {
      assert LongAnswer()[0] == FAILED && HeldBefore(LongAnswer(), 0) == 0;
    } else {
      HeldPadding(n - 1);
      assert LongAnswer()[n] == Spaces(READ_SIZE);
    }
  }

  /** At the prompt half a window and the prompt are held. */
  lemma LongHeld() returns (k: nat, n: nat)
    ensures |LongAnswer()| == k + 1 && HeldAt(LongAnswer(), k) == n <= MAX_PATTERN_WINDOW
  {
    HeldPadding(BLANKS);
    assert LongAnswer()[BLANKS + 1] == PROMPT;
    k, n := BLANKS + 1, MAX_PATTERN_WINDOW / 2 + 2;
  }

  /** What is kept of an answer seen at its last chunk. */
  lemma KeptAtEnd(answer: seq<seq<byte>>, k: nat, n: nat)
    requires MatchedLast(PickPrompt, [], answer) && |answer| == k + 1 && HeldAt(answer, k) == n
    ensures Expect(PickPrompt, [], answer).0 == Last(Flatten(answer), n)
  {
    PromptIsFresh();
    MatchedLastIsFirstSeen(PickPrompt, answer);
    ExpectReturnsHeld(PickPrompt, answer, k);
    assert answer[..k + 1] == answer;
  }

  lemma LongKept()
    ensures Blank(Expect(PickPrompt, [], LongAnswer()).0)
  {
    LongMatchesLast();
    var k, n := LongHeld();
    KeptAtEnd(LongAnswer(), k, n);
    LongTail(n);
  }

  lemma LongTail(n: nat)
    requires n <= MAX_PATTERN_WINDOW + 2
    ensures Blank(Last(Flatten(LongAnswer()), n))
  {
    LongText();
    BlankTail(n);
  }

  lemma BlankTail(n: nat)
    requires n <= MAX_PATTERN_WINDOW + 2
    ensures Blank(Last(FAILED + Spaces(MAX_PATTERN_WINDOW) + PROMPT, n))
  {
    var all := FAILED + Spaces(MAX_PATTERN_WINDOW) + PROMPT;
    assert forall i :: |FAILED| <= i < |all| ==> all[i] == 61 || all[i] == 62 || all[i] == 32;
  }

  /** The answer begins with "failed" and holds no echo of "dhcp". */
  lemma LongReports(text: string)
    requires text == Text(FAILED + Spaces(MAX_PATTERN_WINDOW) + PROMPT)
    ensures EchoEnd(text, "dhcp") == 0 && Lies(text, ["TIMEOUT", "not set", "failed"], 0, |text|)
  {
    forall i | 0 <= i < |text|
      ensures text[i] != 'h'
    {
      assert i < 6 ==> text[i] == FAILED[i] as char;
    }
    var i := IndexFrom(text, "dhcp", 0);
    if i.Some? {
      AtCovers(text, i.value, "dhcp", i.value + 1);
    }
    assert Lower("failed") == "failed";
    assert text[..6] == "failed";
    assert Lower(text)[0..6] == "failed";
    assert BeginsAt(text, ["TIMEOUT", "not set", "failed"][2], 0);
  }

  lemma DhcpLine(c: Config, p: Params)
    ensures 2 < BootLine(c, p) < |Script(c, p)|
    ensures Script(c, p)[1] == Step("dhcp", c.prompt, ["TIMEOUT", "not set", "failed"]) && Script(c, p)[2].markers == []
  {
    ScriptShape(c, p);
    assert Script(c, p)[1] == FetchSteps(c, p)[1] && Script(c, p)[2] == FetchSteps(c, p)[2];
  }

  ghost predicate AsRead(answers: Answers) {
    forall i, j :: 0 <= i < |answers| && 0 <= j < |answers[i]| ==> |answers[i][j]| <= READ_SIZE
  }

  lemma LongIsAsRead()
    ensures forall j :: 0 <= j < |LongAnswer()| ==> |LongAnswer()[j]| <= READ_SIZE
  {
  }

  lemma ExceptAsRead(c: Config, p: Params, n: nat, answer: seq<seq<byte>>)
    requires forall j :: 0 <= j < |answer| ==> |answer[j]| <= READ_SIZE
    ensures AsRead(Except(c, p, n, answer))
  {
  }

  lemma LongAnswers(c: Config, p: Params) returns (answers: Answers)
    requires c.prompt == PickPrompt
    ensures answers == Except(c, p, 1, LongAnswer()) && AsRead(answers)
    ensures |answers| == BootLine(c, p) && Unremarkable(Script(c, p), answers) && answers[1] == LongAnswer()
  {
    DhcpLine(c, p);
    EarlierLine(c, p, 1);
    LongMatchesLast();
    LongKept();
    LongIsAsRead();
    answers := Except(c, p, 1, LongAnswer());
    ExceptIsUnremarkable(c, p, 1, LongAnswer());
    ExceptAsRead(c, p, 1, LongAnswer());
  }

  /** What line i hears, where its answer is known. */
  lemma AnswerIs(d: Dialogue, answers: Answers, i: nat)
    requires Given(d, answers) && Open(d.start) && i < |answers|
    ensures d.From(i) <= d.Until(i) <= |d.Output()| && Answer(d, i, d.Until(i)) == Text(Flatten(answers[i]))
  {
    Answered(d, answers, i);
    HeardAt(d, i);
  }

  /**
   Every chunk no longer than what the read loop publishes at once: "dhcp" answers "failed" and then a window of
   spaces, the marker is trimmed away before the prompt comes, and the kernel is booted.
   */
  lemma BootedUnnoticed(c: Config, p: Params, console: CS.Console) returns (answers: Answers, d: Dialogue)
    requires c.prompt == PickPrompt && CS.Inv(console) && !console.closed
    ensures AsRead(answers) && d == Netboot(c, p, console, Speech(answers)) && Booted(c, p, d.Replies())
    ensures 1 < |d.script| && d.script[1].text == "dhcp" && d.From(1) <= d.Until(1) <= |d.Output()|
    ensures MarkerPrinted(d, 1, d.Until(1))
  {
    answers := LongAnswers(c, p);
    d := SpeechBoots(c, p, console, answers);
    DhcpLine(c, p);
    AnswerIs(d, answers, 1);
    LongText();
    LongReports(Answer(d, 1, d.Until(1)));
  }

  // ---- Answers that come one prompt late ---------------------------------------------------------------

  lemma LateMatchesLast()
    ensures MatchedLast(PickPrompt, [], [TIMED_OUT])
  {
    var t := TIMED_OUT[..15];
    assert TIMED_OUT == t + PROMPT && [] + TIMED_OUT == TIMED_OUT;
    PromptEnds(t);
  }

  lemma LateText()
    ensures Text(PROMPT + TIMED_OUT) == "=>dhcp\r\nTIMEOUT\r\n=>"
  {
  }

  /** Text that begins with a prompt and the late answer of "dhcp" mentions "TIMEOUT" after its echo. */
  lemma LateReports(text: string)
    requires Text(PROMPT + TIMED_OUT) <= text
    ensures Lies(text, ["TIMEOUT", "not set", "failed"], EchoEnd(text, "dhcp"), |text|)
  {
    LateText();
    LateEcho(text);
    var start := "=>dhcp\r\nTIMEOUT\r\n=>";
    assert text[8..15] == start[8..15] == "TIMEOUT";
    assert Lower(text)[8..15] == Lower("TIMEOUT");
    assert BeginsAt(text, ["TIMEOUT", "not set", "failed"][0], 8);
  }

  lemma LateEcho(text: string)
    requires "=>dhcp\r\nTIMEOUT\r\n=>" <= text
    ensures EchoEnd(text, "dhcp") == 6
  {
    var start := "=>dhcp\r\nTIMEOUT\r\n=>";
    assert text[2..6] == start[2..6] == "dhcp";
    assert At(text, 2, "dhcp");
    assert text[0..4][0] == '=' && text[1..5][0] == '>' && "dhcp"[0] == 'd';
    assert !At(text, 0, "dhcp") && !At(text, 1, "dhcp");
    var r := IndexFrom(text, "dhcp", 0);
    assert r.Some? && r.value == 2;
  }

  lemma LateAnswers(c: Config, p: Params) returns (answers: Answers)
    requires c.prompt == PickPrompt
    ensures AsRead(answers) && |answers| == BootLine(c, p) && Unremarkable(Script(c, p), answers) && 2 < |answers|
    ensures answers[1] == [PROMPT] && answers[2] == [TIMED_OUT]
  {
    DhcpLine(c, p);
    EarlierLine(c, p, 2);
    LateMatchesLast();
    answers := Except(c, p, 2, [TIMED_OUT]);
    ExceptIsUnremarkable(c, p, 2, [TIMED_OUT]);
    ExceptAsRead(c, p, 2, [TIMED_OUT]);
  }

  /** What the waits of lines 1 and 2 hear is one stretch. */
  lemma LateStretch(d: Dialogue, answers: Answers)
    requires Given(d, answers) && Open(d.start) && 2 < |answers|
    requires answers[1] == [PROMPT] && answers[2] == [TIMED_OUT]
    ensures d.From(1) <= d.Until(2) <= |d.Output()| && d.Output()[d.From(1)..d.Until(2)] == PROMPT + TIMED_OUT
  {
    Answered(d, answers, 1);
    Answered(d, answers, 2);
    NextFrom(d, answers, 1, 2);
    HeardAt(d, 1);
    HeardAt(d, 2);
    FlattenOne(PROMPT);
    FlattenOne(TIMED_OUT);
    TwoStretches(d.Output(), d.From(1), d.Until(1), d.Until(2));
  }

  lemma TwoStretches(s: seq<byte>, a: nat, b: nat, e: nat)
    requires a <= b <= e <= |s|
    ensures s[a..e] == s[a..b] + s[b..e]
  {
  }

  /** All that lines 1 and 2 hear is in what is printed from the subscription of line 1 on. */
  lemma LateInOutput(d: Dialogue, answers: Answers, t: nat)
    requires Given(d, answers) && Open(d.start) && 2 < |answers|
    requires answers[1] == [PROMPT] && answers[2] == [TIMED_OUT] && d.Until(2) <= t <= |d.Output()|
    ensures d.From(1) <= t && Text(PROMPT + TIMED_OUT) <= Answer(d, 1, t)
  {
    LateStretch(d, answers);
    TextPrefix(d.Output(), d.From(1), d.Until(2), t);
  }

  /**
   A prompt still outstanding ends the wait of "dhcp", and from then on each answer falls into the wait of the next
   line: that of "dhcp", with its "TIMEOUT", into that of "setenv serverip", which looks for no marker. The kernel is
   booted, though "TIMEOUT" was printed after the echo of "dhcp" before the boot line was written.
   */
  lemma BootedLate(c: Config, p: Params, console: CS.Console) returns (answers: Answers, d: Dialogue)
    requires c.prompt == PickPrompt && CS.Inv(console) && !console.closed
    ensures AsRead(answers) && d == Netboot(c, p, console, Speech(answers)) && Booted(c, p, d.Replies())
    ensures 1 < BootLine(c, p) && d.script[1].text == "dhcp" && HasReported(c, p, d, 1)
  {
    answers := LateAnswers(c, p);
    d := SpeechBoots(c, p, console, answers);
    DhcpLine(c, p);
    BeforeBoot(c, p, d, 1);
    BeforeBoot(c, p, d, 2);
    LateInOutput(d, answers, AtBoot(c, p, d));
    LateReports(Answer(d, 1, AtBoot(c, p, d)));
  }
}
