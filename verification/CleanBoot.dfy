/**
 What a boot says about the console's output: exactly when the kernel is booted, by position in the output; when that
 means that no command reported an error; and two consoles on which it does not.
 */
module CleanBoot {
  import opened Bytes
  import opened Matching
  import opened MissedMarkers
  import opened Scanner
  import opened UBootDialogue
  import opened UBootExchange
  import opened UBootExpect
  import opened UBootScript
  import opened UBootText
  import CS = ConsoleState
  import PW = PatternWait
  import WS = WaitScrollback

  /** The netboot script on this console. */
  function Netboot(c: Config, p: Params, console: CS.Console, talks: nat -> Talk): Dialogue {
    Dialogue(Script(c, p), console, talks)
  }

  /** The index of the boot line. */
  function BootLine(c: Config, p: Params): nat {
    if p.verify then 6 else 5
  }

  lemma LastLine(c: Config, p: Params)
    ensures BootLine(c, p) == |Script(c, p)| - 1 && Script(c, p)[BootLine(c, p)] == BootStep(c, p)
  {
    ScriptShape(c, p);
  }

  /** Every earlier line waits for the prompt, and its markers can be told from a prompt. */
  lemma EarlierLine(c: Config, p: Params, i: nat)
    requires i < BootLine(c, p)
    ensures i < |Script(c, p)| && Script(c, p)[i].until == c.prompt && AllSolid(Script(c, p)[i].markers)
  {
    ScriptShape(c, p);
    assert i < 5 ==> Script(c, p)[i] == FetchSteps(c, p)[i];
    ScriptIsSolid(c, p, i);
  }

  lemma PassedAll(d: Dialogue, n: nat)
    requires n <= |d.script|
    ensures AllPassed(d.script, d.Replies(), n) <==> forall i :: 0 <= i < n ==> Passed(d.script[i], d.ReplyTo(i))
  {
    forall i | 0 <= i < n
      ensures d.Replies()(i) == d.ReplyTo(i)
    {
    }
  }

  lemma WrittenIsHeard(d: Dialogue, i: nat)
    requires i < |d.script|
    ensures d.ReplyTo(i).Heard? <==> d.talks(i).written
    ensures d.Replies()(i) == d.ReplyTo(i)
  {
  }

  lemma BootedByLines(c: Config, p: Params, console: CS.Console, talks: nat -> Talk)
    ensures var d := Netboot(c, p, console, talks);
            BootLine(c, p) < |d.script| &&
            (Booted(c, p, d.Replies())
             <==> talks(BootLine(c, p)).written
                  && forall i :: 0 <= i < BootLine(c, p) ==> Passed(d.script[i], d.ReplyTo(i)))
  {
    var d := Netboot(c, p, console, talks);
    LastLine(c, p);
    BootedExactly(c, p, d.Replies());
    PassedAll(d, BootLine(c, p));
    WrittenIsHeard(d, BootLine(c, p));
  }

  // ---- Exactly when the kernel is booted --------------------------------------------------------------

  /** The output when the boot line is written. */
  function AtBoot(c: Config, p: Params, d: Dialogue): nat
    requires d.script == Script(c, p)
  {
    LastLine(c, p);
    d.Wrote(BootLine(c, p))
  }

  lemma BeforeBoot(c: Config, p: Params, d: Dialogue, i: nat)
    requires CS.Inv(d.start) && d.script == Script(c, p) && i < BootLine(c, p)
    ensures BootLine(c, p) < |d.script| && d.Until(i) <= AtBoot(c, p, d) <= |d.Output()|
  {
    LastLine(c, p);
    WaitsInOrder(d, i, BootLine(c, p));
    HeardAt(d, BootLine(c, p));
  }

  /** The prompt after line i was seen, and no error marker of it lies in the part its check looked at. */
  ghost predicate LooksClean(c: Config, p: Params, d: Dialogue, i: nat)
    requires CS.Inv(d.start) && d.script == Script(c, p) && i < BootLine(c, p)
  {
    BeforeBoot(c, p, d, i);
    PromptSeen(d, i) && !MarkerNoticed(d, i, AtBoot(c, p, d))
  }

  /** When the boot line is written, an error marker of line i has been printed since its subscription, after its
      echo. */
  ghost predicate HasReported(c: Config, p: Params, d: Dialogue, i: nat)
    requires CS.Inv(d.start) && d.script == Script(c, p) && i < BootLine(c, p)
  {
    BeforeBoot(c, p, d, i);
    MarkerPrinted(d, i, AtBoot(c, p, d))
  }

  /**
   The boot line is written exactly when it could be and every earlier line looks clean. So the kernel is booted
   although the console has reported an error exactly when some such line has reported one: outside the part looked
   at.
   */
  lemma BootedByOutput(c: Config, p: Params, console: CS.Console, talks: nat -> Talk)
    requires CS.Inv(console) && Fresh(c.prompt, EXPECT_MATCH_WIDTH)
    ensures var d := Netboot(c, p, console, talks);
            Booted(c, p, d.Replies())
            <==> talks(BootLine(c, p)).written && forall i :: 0 <= i < BootLine(c, p) ==> LooksClean(c, p, d, i)
  {
    var d := Netboot(c, p, console, talks);
    BootedByLines(c, p, console, talks);
    forall i | 0 <= i < BootLine(c, p)
      ensures Passed(d.script[i], d.ReplyTo(i)) <==> LooksClean(c, p, d, i)
    {
      BeforeBoot(c, p, d, i);
      EarlierLine(c, p, i);
      PassedInOutput(d, i, AtBoot(c, p, d));
    }
  }

  /** Line i has been heard out: its output fits the window, and all that was printed before the next line began to
      listen has been heard. */
  predicate HeardOut(d: Dialogue, i: nat)
    requires i + 1 < |d.script|
  {
    Taken(d.ReplyTo(i)) <= MAX_PATTERN_WINDOW && d.From(i + 1) == d.Until(i)
  }

  /** The output from the subscription of line i to that of the next mentions an error marker of it after the echo. */
  ghost predicate AnswerReports(d: Dialogue, i: nat) {
    i + 1 < |d.script| && d.From(i) <= d.From(i + 1) <= |d.Output()| && MarkerPrinted(d, i, d.From(i + 1))
  }

  lemma NextBegins(d: Dialogue, i: nat, k: nat)
    requires CS.Inv(d.start) && k == i + 1 < |d.script|
    ensures d.From(i) <= d.Until(i) <= d.From(k) <= |d.Output()|
  {
    WaitsInOrder(d, i, k);
    HeardAt(d, k);
  }

  lemma PassedHeardOut(d: Dialogue, i: nat)
    requires CS.Inv(d.start) && i + 1 < |d.script| && HeardOut(d, i)
    requires Fresh(d.script[i].until, EXPECT_MATCH_WIDTH) && AllSolid(d.script[i].markers)
    ensures Passed(d.script[i], d.ReplyTo(i)) <==> PromptSeen(d, i) && !AnswerReports(d, i)
  {
    NextBegins(d, i, i + 1);
    PassedWhenSettled(d, i, d.From(i + 1));
  }

  /**
   While each line is heard out, with the answers tiling the output from the first subscription to the last, the boot
   line is written exactly when it could be, every earlier prompt was seen, and no answer mentions one of its markers.
   */
  lemma BootedOnlyAfterCleanAnswers(c: Config, p: Params, console: CS.Console, talks: nat -> Talk)
    requires CS.Inv(console) && Fresh(c.prompt, EXPECT_MATCH_WIDTH) && BootLine(c, p) < |Script(c, p)|
    requires forall i :: 0 <= i < BootLine(c, p) ==> HeardOut(Netboot(c, p, console, talks), i)
    ensures var d := Netboot(c, p, console, talks);
            Booted(c, p, d.Replies())
            <==> talks(BootLine(c, p)).written
                 && forall i :: 0 <= i < BootLine(c, p) ==> PromptSeen(d, i) && !AnswerReports(d, i)
  {
    var d := Netboot(c, p, console, talks);
    BootedByLines(c, p, console, talks);
    forall i | 0 <= i < BootLine(c, p)
      ensures Passed(d.script[i], d.ReplyTo(i)) <==> PromptSeen(d, i) && !AnswerReports(d, i)
    {
      EarlierLine(c, p, i);
      PassedHeardOut(d, i);
    }
  }
}
