/**
 A script run on one console: each line is written and waited for where the one before has left the console, while
 others use it in the meantime. What each wait hears, by position in the output; and what a boot says about
 everything the console has printed.
 */
module UBootDialogue {
  import opened Bytes
  import opened Matching
  import opened MissedMarkers
  import opened Scanner
  import opened UBootExchange
  import opened UBootExpect
  import opened UBootScript
  import opened UBootText
  import CS = ConsoleState
  import PW = PatternWait
  import WS = WaitScrollback

  /** A script, the console it starts on, and what others do around each of its lines. */
  datatype Dialogue = Dialogue(script: seq<Step>, start: CS.Console, talks: nat -> Talk) {
    /** The console before line i. */
    function At(i: nat): CS.Console
      requires i <= |script|
      decreases i
    {
      if i == 0 then start else Hear(script[i - 1].until, At(i - 1), talks(i - 1)).0
    }

    function ReplyTo(i: nat): Reply
      requires i < |script|
    {
      Hear(script[i].until, At(i), talks(i)).1
    }

    function Replies(): nat -> Reply {
      (i: nat) => if i < |script| then ReplyTo(i) else WriteFails
    }

    /** How long the output was when wait i subscribed, when line i was written, and as far as wait i has heard. */
    function From(i: nat): nat
      requires i < |script|
    {
      Began(At(i), talks(i))
    }

    function Wrote(i: nat): nat
      requires i < |script|
    {
      WrittenAt(At(i), talks(i))
    }

    function Until(i: nat): nat
      requires i < |script|
    {
      From(i) + Taken(ReplyTo(i))
    }

    /** Everything the console has printed in the end. */
    function Output(): seq<byte> {
      CS.Stream(At(|script|))
    }
  }

  // ---- The waits, by position in the output --------------------------------------------------------

  /** From line i to line k, the next. */
  lemma NextSince(d: Dialogue, i: nat, k: nat)
    requires i < |d.script| && k == i + 1 && CS.Inv(d.At(i))
    ensures CS.Inv(d.At(k)) && WS.Since(d.At(i), d.At(k))
  {
    HearSince(d.script[i].until, d.At(i), d.talks(i));
  }

  lemma {:induction false} ConsoleInv(d: Dialogue, i: nat)
    requires CS.Inv(d.start) && i <= |d.script|
    ensures CS.Inv(d.At(i))
    decreases i
  {
    if i > 0 {
      ConsoleInv(d, i - 1);
      NextSince(d, i - 1, i);
    }
  }

  lemma NextGrows(d: Dialogue, i: nat, k: nat)
    requires CS.Inv(d.start) && i < |d.script| && k == i + 1
    ensures CS.Stream(d.At(i)) <= CS.Stream(d.At(k))
  {
    ConsoleInv(d, i);
    NextSince(d, i, k);
  }

  lemma PrefixTransitive(a: seq<byte>, b: seq<byte>, c: seq<byte>)
    requires a <= b <= c
    ensures a <= c
  {
  }

  lemma {:induction false} OutputGrows(d: Dialogue, i: nat, j: nat)
    requires CS.Inv(d.start) && i <= j <= |d.script|
    ensures CS.Stream(d.At(i)) <= CS.Stream(d.At(j))
    decreases j
  {
    if i < j {
      var k := j - 1;
      OutputGrows(d, i, k);
      NextGrows(d, k, j);
      PrefixTransitive(CS.Stream(d.At(i)), CS.Stream(d.At(k)), CS.Stream(d.At(j)));
    }
  }

  lemma SameSlice(s: seq<byte>, t: seq<byte>, a: nat, b: nat)
    requires s <= t && a <= b <= |s|
    ensures s[a..b] == t[a..b]
  {
  }

  /** Line i by itself, line k being the next. */
  lemma WrittenInTime(d: Dialogue, i: nat, k: nat)
    requires CS.Inv(d.start) && i < |d.script| && k == i + 1
    ensures PW.Len(d.At(i)) <= d.From(i) <= d.Wrote(i) <= PW.Len(d.At(k))
  {
    ConsoleInv(d, i);
    HearSince(d.script[i].until, d.At(i), d.talks(i));
  }

  lemma HeardInTime(d: Dialogue, i: nat, k: nat)
    requires CS.Inv(d.start) && i < |d.script| && k == i + 1
    ensures d.From(i) <= d.Until(i) <= PW.Len(d.At(k))
  {
    ConsoleInv(d, i);
    HeardIsStretch(d.script[i].until, d.At(i), d.talks(i));
  }

  lemma OneStretch(d: Dialogue, i: nat, k: nat)
    requires CS.Inv(d.start) && i < |d.script| && k == i + 1 && d.ReplyTo(i).Heard?
    ensures d.From(i) <= d.Until(i) <= PW.Len(d.At(k))
    ensures Flatten(d.ReplyTo(i).chunks) == CS.Stream(d.At(k))[d.From(i)..d.Until(i)]
  {
    ConsoleInv(d, i);
    HeardIsStretch(d.script[i].until, d.At(i), d.talks(i));
  }

  /** What wait i hears is the stretch of the output from From(i) to Until(i). It begins before its line is written. */
  lemma HeardAt(d: Dialogue, i: nat)
    requires CS.Inv(d.start) && i < |d.script|
    ensures d.From(i) <= d.Wrote(i) <= |d.Output()| && d.From(i) <= d.Until(i) <= |d.Output()|
    ensures d.ReplyTo(i).Heard? ==> Flatten(d.ReplyTo(i).chunks) == d.Output()[d.From(i)..d.Until(i)]
  {
    var k := i + 1;
    WrittenInTime(d, i, k);
    HeardInTime(d, i, k);
    OutputGrows(d, k, |d.script|);
    if d.ReplyTo(i).Heard? {
      OneStretch(d, i, k);
      SameSlice(CS.Stream(d.At(k)), d.Output(), d.From(i), d.Until(i));
    }
  }

  /** Line i is done with when a later line begins. */
  lemma DoneBefore(d: Dialogue, i: nat, j: nat)
    requires CS.Inv(d.start) && i < j <= |d.script|
    ensures d.Wrote(i) <= PW.Len(d.At(j)) && d.Until(i) <= PW.Len(d.At(j))
  {
    var k := i + 1;
    WrittenInTime(d, i, k);
    HeardInTime(d, i, k);
    OutputGrows(d, k, j);
  }

  /** The stretches are disjoint and in the order of the lines: each begins after the earlier lines have been written
      and the earlier waits have stopped. */
  lemma WaitsInOrder(d: Dialogue, i: nat, j: nat)
    requires CS.Inv(d.start) && i < j < |d.script|
    ensures d.Wrote(i) <= d.From(j) && d.Until(i) <= d.From(j)
  {
    DoneBefore(d, i, j);
    WrittenInTime(d, j, j + 1);
  }

  predicate HeardBy(d: Dialogue, i: nat, q: nat)
    requires i < |d.script|
  {
    d.From(i) <= q < d.Until(i)
  }

  lemma StopsBefore(d: Dialogue, i: nat, j: nat)
    requires CS.Inv(d.start) && j < i < |d.script|
    ensures d.Until(j) <= d.From(i)
  {
    WaitsInOrder(d, j, i);
  }

  lemma NotYetHeard(d: Dialogue, k: nat, q: nat, j: nat)
    requires CS.Inv(d.start) && k <= j < |d.script| && q < d.From(k)
    ensures !HeardBy(d, j, q)
  {
    if k < j {
      WaitsInOrder(d, k, j);
    }
  }

  /** A byte that wait i leaves unread goes to the next wait, k, if it comes after that has subscribed and wait k gets
      as far, and to no wait at all if it comes before. */
  lemma LeftUnread(d: Dialogue, i: nat, k: nat, q: nat)
    requires CS.Inv(d.start) && k == i + 1 < |d.script| && d.Until(i) <= q
    ensures q < d.Until(k) ==> (HeardBy(d, k, q) <==> q >= d.From(k))
    ensures q < d.From(k) ==> forall j :: 0 <= j < |d.script| ==> !HeardBy(d, j, q)
  {
    if q < d.From(k) {
      forall j | 0 <= j < |d.script|
        ensures !HeardBy(d, j, q)
      {
        if j < i {
          StopsBefore(d, i, j);
        } else if j > i {
          NotYetHeard(d, k, q, j);
        }
      }
    }
  }

  /** In a registered wait's stretch and queue together nothing published since it subscribed is missing. */
  lemma NothingMissing(d: Dialogue, i: nat)
    requires CS.Inv(d.start) && i < |d.script|
    ensures var (t, c) := (d.talks(i), d.At(i));
            var h := Wait(d.script[i].until, c, t);
            && d.From(i) <= PW.Len(h.console) && Mine(c, t) in h.console.all
            && (Mine(c, t) in h.console.subs ==>
                  Flatten(h.chunks) + CS.Queued(h.console.all[Mine(c, t)]) == CS.Stream(h.console)[d.From(i)..])
  {
    ConsoleInv(d, i);
    NothingMissed(d.script[i].until, d.At(i), d.talks(i));
  }

  // ---- What a step that passed says about the output --------------------------------------------------

  /** Everything printed from the subscription of line i up to position t. */
  function Answer(d: Dialogue, i: nat, t: nat): string
    requires i < |d.script| && d.From(i) <= t <= |d.Output()|
  {
    Text(d.Output()[d.From(i)..t])
  }

  /** The prompt after line i was seen. */
  predicate PromptSeen(d: Dialogue, i: nat)
    requires i < |d.script|
  {
    d.ReplyTo(i).Heard? && Expect(d.script[i].until, [], d.ReplyTo(i).chunks).1
  }

  /** Where in the output, counted from the subscription, the check of line i begins to look. */
  function Looked(d: Dialogue, i: nat): nat
    requires i < |d.script|
  {
    if d.ReplyTo(i).Heard? then LookedFromEnd(d.script[i], d.ReplyTo(i).chunks) else 0
  }

  /** Of everything printed up to t, an error marker of line i lies after its echo. */
  ghost predicate MarkerPrinted(d: Dialogue, i: nat, t: nat)
    requires i < |d.script| && d.From(i) <= t <= |d.Output()|
  {
    var a := Answer(d, i, t);
    Lies(a, d.script[i].markers, EchoEnd(a, d.script[i].text), |a|)
  }

  /** An error marker of line i lies in the part that its check looks at. */
  ghost predicate MarkerNoticed(d: Dialogue, i: nat, t: nat)
    requires i < |d.script| && d.From(i) <= t <= |d.Output()|
  {
    Lies(Answer(d, i, t), d.script[i].markers, Looked(d, i), Taken(d.ReplyTo(i)))
  }

  /** That is, what follows the echo mentions one of the markers. */
  lemma PrintedIsNotSilent(d: Dialogue, i: nat, t: nat)
    requires i < |d.script| && d.From(i) <= t <= |d.Output()|
    ensures MarkerPrinted(d, i, t) <==> !Silent(AfterEcho(Answer(d, i, t), d.script[i].text), d.script[i].markers)
  {
    var a := Answer(d, i, t);
    SilentFrom(a, EchoEnd(a, d.script[i].text), d.script[i].markers);
  }

  lemma TextPrefix(s: seq<byte>, a: nat, b: nat, t: nat)
    requires a <= b <= t <= |s|
    ensures Text(s[a..b]) <= Text(s[a..t])
  {
  }

  /** What wait i has heard, when its prompt was seen. */
  lemma SeenInOutput(d: Dialogue, i: nat, t: nat)
    requires CS.Inv(d.start) && i < |d.script| && Fresh(d.script[i].until, EXPECT_MATCH_WIDTH) && PromptSeen(d, i)
    requires d.Until(i) <= t <= |d.Output()|
    ensures var chunks := d.ReplyTo(i).chunks;
            && chunks != [] && FirstSeen(d.script[i].until, chunks, |chunks| - 1)
            && chunks[..|chunks| - 1 + 1] == chunks && Text(Flatten(chunks)) <= Answer(d, i, t)
  {
    var chunks := d.ReplyTo(i).chunks;
    HeardAt(d, i);
    SeenAtLast(d.script[i].until, d.At(i), d.talks(i));
    TextPrefix(d.Output(), d.From(i), d.Until(i), t);
  }

  /** For a reply whose last chunk completes the match and an answer that begins with it. */
  lemma PassedAtEnd(s: Step, reply: Reply, answer: string)
    requires Fresh(s.until, EXPECT_MATCH_WIDTH) && AllSolid(s.markers) && reply.Heard?
    requires reply.chunks != [] && FirstSeen(s.until, reply.chunks, |reply.chunks| - 1)
    requires reply.chunks[..|reply.chunks| - 1 + 1] == reply.chunks && Text(Flatten(reply.chunks)) <= answer
    ensures Passed(s, reply) <==> !Lies(answer, s.markers, LookedFromEnd(s, reply.chunks), Taken(reply))
    ensures answer == Text(Flatten(reply.chunks)) && Taken(reply) <= MAX_PATTERN_WINDOW ==>
              (Passed(s, reply) <==> !Lies(answer, s.markers, EchoEnd(answer, s.text), |answer|))
  {
    var all, k := Flatten(reply.chunks), |reply.chunks| - 1;
    PassedByPart(s, reply, k);
    LiesWithin(Text(all), answer, s.markers, LookedFromEnd(s, reply.chunks));
    if answer == Text(all) && |all| <= MAX_PATTERN_WINDOW {
      ExpectReturnsAll(s.until, reply.chunks, k);
      ExpectReturnsHeld(s.until, reply.chunks, k);
      assert Last(all, HeldAt(reply.chunks, k)) == all;
    }
  }

  /**
   A step passes exactly when its prompt is seen and no marker lies in the part looked at; so, of whatever has been
   printed by position t, now or while later commands were waited for, an error marker goes unnoticed exactly when one
   lies there and none in that part.
   */
  lemma PassedInOutput(d: Dialogue, i: nat, t: nat)
    requires CS.Inv(d.start) && i < |d.script| && d.Until(i) <= t <= |d.Output()|
    requires Fresh(d.script[i].until, EXPECT_MATCH_WIDTH) && AllSolid(d.script[i].markers)
    ensures Passed(d.script[i], d.ReplyTo(i)) <==> PromptSeen(d, i) && !MarkerNoticed(d, i, t)
    ensures Passed(d.script[i], d.ReplyTo(i)) && MarkerPrinted(d, i, t)
       <==> PromptSeen(d, i) && MarkerPrinted(d, i, t) && !MarkerNoticed(d, i, t)
  {
    if PromptSeen(d, i) {
      SeenInOutput(d, i, t);
      PassedAtEnd(d.script[i], d.ReplyTo(i), Answer(d, i, t));
    }
  }

  /** While what is heard fits the window and nothing else has been printed by t, that is the whole answer. */
  lemma PassedWhenSettled(d: Dialogue, i: nat, t: nat)
    requires CS.Inv(d.start) && i < |d.script| && t == d.Until(i) <= |d.Output()|
    requires Taken(d.ReplyTo(i)) <= MAX_PATTERN_WINDOW
    requires Fresh(d.script[i].until, EXPECT_MATCH_WIDTH) && AllSolid(d.script[i].markers)
    ensures Passed(d.script[i], d.ReplyTo(i)) <==> PromptSeen(d, i) && !MarkerPrinted(d, i, t)
  {
    if PromptSeen(d, i) {
      SeenInOutput(d, i, t);
      HeardAt(d, i);
      PassedAtEnd(d.script[i], d.ReplyTo(i), Answer(d, i, t));
    }
  }
}
