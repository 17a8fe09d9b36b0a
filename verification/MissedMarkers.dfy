/**
 Error markers that a checked command overlooks. A check looks at part of what the command printed: what was kept of
 the output when the prompt was first seen, after the echo found there. Exactly when that misses a marker.
 */
module MissedMarkers {
  import opened Bytes
  import opened Matching
  import opened Scanner
  import opened UBootExchange
  import opened UBootExpect
  import opened UBootScript
  import opened UBootText

  /** A mention of the marker, in any case of letters, begins at position i. */
  predicate BeginsAt(text: string, marker: string, i: nat) {
    At(Lower(text), i, Lower(marker))
  }

  /** Some marker is mentioned between positions a and b. */
  ghost predicate Lies(text: string, markers: seq<string>, a: nat, b: nat) {
    exists j, i: nat :: 0 <= j < |markers| && a <= i && i + |markers[j]| <= b && BeginsAt(text, markers[j], i)
  }

  /** Where what follows the echo of the command begins. */
  function EchoEnd(raw: string, command: string): (n: nat)
    ensures n <= |raw| && raw[n..] == AfterEcho(raw, command)
  {
    match IndexFrom(raw, command, 0)
    case None => 0
    case Some(i) => i + |command|
  }

  lemma MentionsFrom(text: string, k: nat, marker: string)
    requires k <= |text|
    ensures Mentions(text[k..], marker)
       <==> exists i: nat :: k <= i && i + |marker| <= |text| && BeginsAt(text, marker, i)
  {
    var whole, part, m := Lower(text), Lower(text[k..]), Lower(marker);
    assert whole[k..k + |part|] == part;
    if UBootText.Contains(part, m) {
      var i :| 0 <= i <= |part| && At(part, i, m);
      AtShift(whole, k, part, i, m);
      assert BeginsAt(text, marker, k + i);
    }
    if i: nat :| k <= i && i + |marker| <= |text| && BeginsAt(text, marker, i) {
      AtShift(whole, k, part, i - k, m);
    }
  }

  lemma SilentFrom(text: string, k: nat, markers: seq<string>)
    requires k <= |text|
    ensures Silent(text[k..], markers) <==> !Lies(text, markers, k, |text|)
  {
    forall j | 0 <= j < |markers|
      ensures Mentions(text[k..], markers[j])
         <==> exists i: nat :: k <= i && i + |markers[j]| <= |text| && BeginsAt(text, markers[j], i)
    {
      MentionsFrom(text, k, markers[j]);
    }
  }

  /** What is mentioned within the beginning of a text depends on that beginning alone. */
  lemma LiesWithin(start: string, text: string, markers: seq<string>, a: nat)
    requires start <= text
    ensures Lies(start, markers, a, |start|) <==> Lies(text, markers, a, |start|)
  {
    var whole, part := Lower(text), Lower(start);
    assert whole[0..|part|] == part;
    forall j, i: nat | 0 <= j < |markers| && i + |markers[j]| <= |start|
      ensures BeginsAt(start, markers[j], i) <==> BeginsAt(text, markers[j], i)
    {
      AtShift(whole, 0, part, i, Lower(markers[j]));
    }
  }

  lemma DropMore(all: string, kept: string, n: nat)
    requires |kept| <= |all| && all[|all| - |kept|..] == kept && n <= |kept|
    ensures all[|all| - |kept| + n..] == kept[n..]
  {
  }

  lemma TextSuffix(all: seq<byte>, n: nat)
    requires n <= |all|
    ensures |Text(Last(all, n))| == n && Text(all)[|all| - n..] == Text(Last(all, n))
  {
  }

  // ---- The part that is looked at ----------------------------------------------------------------

  /** Everything received by the time chunk k has arrived. */
  function Received(chunks: seq<seq<byte>>, k: nat): string
    requires k < |chunks|
  {
    Text(Flatten(chunks[..k + 1]))
  }

  /** From where on the check looks at this text: in the last n bytes of it, after the echo found there. */
  function LookedFrom(s: Step, all: seq<byte>, n: nat): (r: nat)
    ensures r <= |all|
  {
    |all| - |Last(all, n)| + EchoEnd(Text(Last(all, n)), s.text)
  }

  /** The same when the last of these chunks completes the match. */
  function LookedFromEnd(s: Step, chunks: seq<seq<byte>>): (r: nat)
    ensures r <= |Flatten(chunks)|
  {
    if chunks == [] then 0 else LookedFrom(s, Flatten(chunks), HeldAt(chunks, |chunks| - 1))
  }

  lemma KeptIsSilent(s: Step, all: seq<byte>, n: nat)
    requires AllSolid(s.markers) && n <= |all|
    ensures Silent(Clean(Text(Last(all, n)), s.text), s.markers)
       <==> !Lies(Text(all), s.markers, LookedFrom(s, all, n), |all|)
  {
    var kept := Text(Last(all, n));
    CleaningKeepsSilence(kept, s.text, s.markers);
    TextSuffix(all, n);
    DropMore(Text(all), kept, EchoEnd(kept, s.text));
    SilentFrom(Text(all), LookedFrom(s, all, n), s.markers);
  }

  /** A step whose prompt is first seen at chunk k passes exactly when no marker lies in the part looked at, which
      begins where the lengths of the chunks and the echo say and ends with that chunk. */
  lemma PassedByPart(s: Step, reply: Reply, k: nat)
    requires Fresh(s.until, EXPECT_MATCH_WIDTH) && AllSolid(s.markers) && reply.Heard?
    requires FirstSeen(s.until, reply.chunks, k)
    ensures var all := Flatten(reply.chunks[..k + 1]);
            Passed(s, reply) <==> !Lies(Text(all), s.markers, LookedFrom(s, all, HeldAt(reply.chunks, k)), |all|)
  {
    ExpectReturnsHeld(s.until, reply.chunks, k);
    KeptIsSilent(s, Flatten(reply.chunks[..k + 1]), HeldAt(reply.chunks, k));
  }

  /**
   Whatever else the command prints after its prompt was first seen, now or in a later command's wait: with `answer`
   all of it, an error marker after the echo goes unnoticed exactly when one lies there and none lies in the part
   looked at.
   */
  lemma MissedExactly(s: Step, reply: Reply, k: nat, answer: string)
    requires Fresh(s.until, EXPECT_MATCH_WIDTH) && AllSolid(s.markers) && reply.Heard?
    requires FirstSeen(s.until, reply.chunks, k) && Received(reply.chunks, k) <= answer
    ensures var all := Flatten(reply.chunks[..k + 1]);
            Passed(s, reply) && !Silent(AfterEcho(answer, s.text), s.markers)
            <==> && Lies(answer, s.markers, EchoEnd(answer, s.text), |answer|)
                 && !Lies(answer, s.markers, LookedFrom(s, all, HeldAt(reply.chunks, k)), |all|)
  {
    var all := Flatten(reply.chunks[..k + 1]);
    PassedByPart(s, reply, k);
    LiesWithin(Text(all), answer, s.markers, LookedFrom(s, all, HeldAt(reply.chunks, k)));
    SilentFrom(answer, EchoEnd(answer, s.text), s.markers);
  }
}
