/** Waiting for a pattern in what the bootloader prints, with an accumulator trimmed to bound memory. */
module UBootExpect {
  import opened Bytes
  import opened Matching
  import opened Scanner

  /** What send-and-expect has accumulated when it stops, and whether it stopped at a match. */
  function Expect(pick: Matcher<byte>, acc: seq<byte>, chunks: seq<seq<byte>>): (seq<byte>, bool)
    decreases |chunks|
  {
    if chunks == [] then (acc, false)
    else
      var a := acc + chunks[0];
      if FindIndex(pick, a).Some? then (a, true) else Expect(pick, Trim(a), chunks[1..])
  }

  lemma ExpectUnroll(pick: Matcher<byte>, acc: seq<byte>, chunks: seq<seq<byte>>, i: nat)
    requires i < |chunks|
    ensures var a := acc + chunks[i];
            Expect(pick, acc, chunks[i..])
            == if FindIndex(pick, a).Some? then (a, true) else Expect(pick, Trim(a), chunks[i + 1..])
  {
    assert chunks[i..][0] == chunks[i] && chunks[i..][1..] == chunks[i + 1..];
  }

  /** The pattern occurs in everything received by the time chunk k has arrived. */
  predicate SeenBy(pick: Matcher<byte>, chunks: seq<seq<byte>>, k: nat)
    requires k < |chunks|
  {
    FindIndex(pick, Flatten(chunks[..k + 1])).Some?
  }

  /** Chunk k is the first at which rescanning everything received finds the pattern. */
  predicate FirstSeen(pick: Matcher<byte>, chunks: seq<seq<byte>>, k: nat) {
    k < |chunks| && SeenBy(pick, chunks, k) && forall j :: 0 <= j < k ==> !SeenBy(pick, chunks, j)
  }

  /** What is kept: a tail of everything received, all of it while it fits the window. */
  ghost predicate Kept(acc: seq<byte>, all: seq<byte>) {
    && IsSuffix(acc, all)
    && (|acc| >= MAX_PATTERN_WINDOW / 2 || acc == all)
    && (|all| <= MAX_PATTERN_WINDOW ==> acc == all)
  }

  lemma TrimKeeps(acc: seq<byte>, all: seq<byte>, chunk: seq<byte>)
    requires Kept(acc, all)
    ensures Kept(acc + chunk, all + chunk) && Kept(Trim(acc + chunk), all + chunk)
  {
    assert IsSuffix(acc + chunk, all + chunk);
    LastIsSuffix(acc + chunk, MAX_PATTERN_WINDOW / 2);
    SuffixTransitive(Trim(acc + chunk), acc + chunk, all + chunk);
  }

  /** The wait after chunks[..n], none of which completed an occurrence. */
  ghost predicate Waiting(pick: Matcher<byte>, acc: seq<byte>, chunks: seq<seq<byte>>, n: nat) {
    && n <= |chunks|
    && TrimInv(pick, acc, Flatten(chunks[..n])) && Kept(acc, Flatten(chunks[..n]))
    && forall j :: 0 <= j < n ==> !SeenBy(pick, chunks, j)
  }

  lemma UpToChunk(chunks: seq<seq<byte>>, n: nat)
    requires n < |chunks|
    ensures Flatten(chunks[..n + 1]) == Flatten(chunks[..n]) + chunks[n]
  {
    assert chunks[..n + 1] == chunks[..n] + [chunks[n]];
    FlattenSnoc(chunks[..n], chunks[n]);
  }

  lemma ChunkSeen(pick: Matcher<byte>, acc: seq<byte>, chunks: seq<seq<byte>>, n: nat)
    requires Fresh(pick, EXPECT_MATCH_WIDTH) && n < |chunks| && TrimInv(pick, acc, Flatten(chunks[..n]))
    ensures FindIndex(pick, acc + chunks[n]).Some? <==> SeenBy(pick, chunks, n)
    ensures FindIndex(pick, acc + chunks[n]).None? ==> TrimInv(pick, Trim(acc + chunks[n]), Flatten(chunks[..n + 1]))
  {
    UpToChunk(chunks, n);
    TrimRefinesRescan(pick, acc, Flatten(chunks[..n]), chunks[n]);
  }

  lemma ChunkKept(acc: seq<byte>, chunks: seq<seq<byte>>, n: nat)
    requires n < |chunks| && Kept(acc, Flatten(chunks[..n]))
    ensures Kept(acc + chunks[n], Flatten(chunks[..n + 1]))
    ensures Kept(Trim(acc + chunks[n]), Flatten(chunks[..n + 1]))
  {
    UpToChunk(chunks, n);
    TrimKeeps(acc, Flatten(chunks[..n]), chunks[n]);
  }

  /** How a wait ends: at the first chunk at which a rescan finds the pattern, or with no such chunk. */
  ghost predicate EndsAt(pick: Matcher<byte>, chunks: seq<seq<byte>>, a: seq<byte>, ok: bool) {
    && (ok <==> exists k :: FirstSeen(pick, chunks, k))
    && (forall k :: FirstSeen(pick, chunks, k) ==> Kept(a, Flatten(chunks[..k + 1])))
    && (!ok ==> Kept(a, Flatten(chunks)))
  }

  lemma FirstSeenIsUnique(pick: Matcher<byte>, chunks: seq<seq<byte>>, j: nat, k: nat)
    requires FirstSeen(pick, chunks, j) && FirstSeen(pick, chunks, k)
    ensures j == k
  {
  }

  lemma EndsHere(pick: Matcher<byte>, chunks: seq<seq<byte>>, a: seq<byte>, n: nat)
    requires FirstSeen(pick, chunks, n) && Kept(a, Flatten(chunks[..n + 1]))
    ensures EndsAt(pick, chunks, a, true)
  {
    forall k | FirstSeen(pick, chunks, k)
      ensures k == n
    {
      FirstSeenIsUnique(pick, chunks, k, n);
    }
  }

  lemma EndsNever(pick: Matcher<byte>, acc: seq<byte>, chunks: seq<seq<byte>>)
    requires Waiting(pick, acc, chunks, |chunks|)
    ensures EndsAt(pick, chunks, acc, false)
  {
    assert chunks[..|chunks|] == chunks;
  }

  lemma SeenFirst(pick: Matcher<byte>, acc: seq<byte>, chunks: seq<seq<byte>>, n: nat)
    requires Fresh(pick, EXPECT_MATCH_WIDTH) && n < |chunks| && Waiting(pick, acc, chunks, n)
    requires FindIndex(pick, acc + chunks[n]).Some?
    ensures FirstSeen(pick, chunks, n) && Kept(acc + chunks[n], Flatten(chunks[..n + 1]))
  {
    ChunkSeen(pick, acc, chunks, n);
    ChunkKept(acc, chunks, n);
  }

  lemma WaitsOn(pick: Matcher<byte>, acc: seq<byte>, chunks: seq<seq<byte>>, n: nat)
    requires Fresh(pick, EXPECT_MATCH_WIDTH) && n < |chunks| && Waiting(pick, acc, chunks, n)
    requires FindIndex(pick, acc + chunks[n]).None?
    ensures Waiting(pick, Trim(acc + chunks[n]), chunks, n + 1)
  {
    ChunkSeen(pick, acc, chunks, n);
    ChunkKept(acc, chunks, n);
  }

  lemma {:induction false} ExpectFrom(pick: Matcher<byte>, acc: seq<byte>, chunks: seq<seq<byte>>, n: nat)
      returns (a: seq<byte>, ok: bool)
    requires Fresh(pick, EXPECT_MATCH_WIDTH) && n <= |chunks| && Waiting(pick, acc, chunks, n)
    ensures (a, ok) == Expect(pick, acc, chunks[n..]) && EndsAt(pick, chunks, a, ok)
    decreases |chunks| - n
  {
    if n == |chunks| {
      a, ok := acc, false;
      EndsNever(pick, acc, chunks);
    } else {
      ExpectUnroll(pick, acc, chunks, n);
      if FindIndex(pick, acc + chunks[n]).Some? {
        a, ok := acc + chunks[n], true;
        SeenFirst(pick, acc, chunks, n);
        EndsHere(pick, chunks, a, n);
      } else {
        WaitsOn(pick, acc, chunks, n);
        a, ok := ExpectFrom(pick, Trim(acc + chunks[n]), chunks, n + 1);
      }
    }
  }

  /** Send-and-expect succeeds exactly when rescanning everything received ever finds the pattern, at the same
      chunk, and returns everything received until then as long as that fits the window. */
  lemma ExpectRefinesRescan(pick: Matcher<byte>, chunks: seq<seq<byte>>)
    requires Fresh(pick, EXPECT_MATCH_WIDTH)
    ensures EndsAt(pick, chunks, Expect(pick, [], chunks).0, Expect(pick, [], chunks).1)
  {
    assert chunks[..0] == [] && chunks[0..] == chunks;
    var a, ok := ExpectFrom(pick, [], chunks, 0);
  }

  /** What a wait that ended at a match returns, while the output up to that match fits the window. */
  lemma ExpectReturnsAll(pick: Matcher<byte>, chunks: seq<seq<byte>>, k: nat)
    requires Fresh(pick, EXPECT_MATCH_WIDTH) && FirstSeen(pick, chunks, k)
    ensures Expect(pick, [], chunks).1
    ensures Kept(Expect(pick, [], chunks).0, Flatten(chunks[..k + 1]))
    ensures |Flatten(chunks[..k + 1])| <= MAX_PATTERN_WINDOW ==>
              Expect(pick, [], chunks).0 == Flatten(chunks[..k + 1])
  {
    ExpectRefinesRescan(pick, chunks);
  }

  // ---- How much is looked at ------------------------------------------------------------------

  function TrimLen(n: nat): nat {
    if n > MAX_PATTERN_WINDOW then MAX_PATTERN_WINDOW / 2 else n
  }

  /** How many bytes are kept once n chunks have arrived without a match. */
  function HeldBefore(chunks: seq<seq<byte>>, n: nat): nat
    requires n <= |chunks|
  {
    if n == 0 then 0 else TrimLen(HeldBefore(chunks, n - 1) + |chunks[n - 1]|)
  }

  /** How many bytes are searched when chunk k arrives: of what came before it, only what was kept. */
  function HeldAt(chunks: seq<seq<byte>>, k: nat): nat
    requires k < |chunks|
  {
    HeldBefore(chunks, k) + |chunks[k]|
  }

  lemma TrimIsLast(all: seq<byte>, n: nat)
    requires n <= |all|
    ensures Trim(Last(all, n)) == Last(all, TrimLen(n))
  {
  }

  lemma LastGrows(all: seq<byte>, n: nat, chunk: seq<byte>)
    requires n <= |all|
    ensures Last(all, n) + chunk == Last(all + chunk, n + |chunk|)
  {
  }

  /** One more chunk, added to as much as is held before it. */
  lemma HoldsNext(acc: seq<byte>, chunks: seq<seq<byte>>, n: nat)
    requires n < |chunks| && HeldBefore(chunks, n) <= |Flatten(chunks[..n])|
    requires acc == Last(Flatten(chunks[..n]), HeldBefore(chunks, n))
    ensures HeldBefore(chunks, n + 1) <= HeldAt(chunks, n) <= |Flatten(chunks[..n + 1])|
    ensures acc + chunks[n] == Last(Flatten(chunks[..n + 1]), HeldAt(chunks, n))
    ensures Trim(acc + chunks[n]) == Last(Flatten(chunks[..n + 1]), HeldBefore(chunks, n + 1))
  {
    UpToChunk(chunks, n);
    LastGrows(Flatten(chunks[..n]), HeldBefore(chunks, n), chunks[n]);
    TrimIsLast(Flatten(chunks[..n + 1]), HeldAt(chunks, n));
  }

  lemma {:induction false} ExpectHolds(pick: Matcher<byte>, acc: seq<byte>, chunks: seq<seq<byte>>, n: nat, k: nat)
    requires Fresh(pick, EXPECT_MATCH_WIDTH) && FirstSeen(pick, chunks, k) && n <= k && Waiting(pick, acc, chunks, n)
    requires HeldBefore(chunks, n) <= |Flatten(chunks[..n])|
    requires acc == Last(Flatten(chunks[..n]), HeldBefore(chunks, n))
    ensures HeldAt(chunks, k) <= |Flatten(chunks[..k + 1])|
    ensures Expect(pick, acc, chunks[n..]) == (Last(Flatten(chunks[..k + 1]), HeldAt(chunks, k)), true)
    decreases k - n
  {
    ExpectUnroll(pick, acc, chunks, n);
    ChunkSeen(pick, acc, chunks, n);
    HoldsNext(acc, chunks, n);
    if n < k {
      assert !SeenBy(pick, chunks, n);
      WaitsOn(pick, acc, chunks, n);
      ExpectHolds(pick, Trim(acc + chunks[n]), chunks, n + 1, k);
    }
  }

  /** What a wait that ended at a match searched last and returns: as many of the last bytes as the lengths of the
      chunks say, whatever the pattern and the bytes are. */
  lemma ExpectReturnsHeld(pick: Matcher<byte>, chunks: seq<seq<byte>>, k: nat)
    requires Fresh(pick, EXPECT_MATCH_WIDTH) && FirstSeen(pick, chunks, k)
    ensures HeldAt(chunks, k) <= |Flatten(chunks[..k + 1])|
    ensures Expect(pick, [], chunks) == (Last(Flatten(chunks[..k + 1]), HeldAt(chunks, k)), true)
  {
    assert chunks[..0] == [] && chunks[0..] == chunks;
    ExpectHolds(pick, [], chunks, 0, k);
  }

  /** A wait whose last chunk completes the first match. */
  predicate MatchedLast(pick: Matcher<byte>, acc: seq<byte>, chunks: seq<seq<byte>>)
    decreases |chunks|
  {
    chunks != [] &&
    if FindIndex(pick, acc + chunks[0]).Some? then |chunks| == 1
    else MatchedLast(pick, Trim(acc + chunks[0]), chunks[1..])
  }

  lemma MatchedLastUnroll(pick: Matcher<byte>, acc: seq<byte>, chunks: seq<seq<byte>>, n: nat)
    requires n < |chunks|
    ensures MatchedLast(pick, acc, chunks[n..])
       <==> if FindIndex(pick, acc + chunks[n]).Some? then n == |chunks| - 1
            else MatchedLast(pick, Trim(acc + chunks[n]), chunks[n + 1..])
  {
    assert chunks[n..][0] == chunks[n] && chunks[n..][1..] == chunks[n + 1..];
  }

  /** Seen from a moment of the wait. */
  lemma {:induction false} MatchedLastFrom(pick: Matcher<byte>, acc: seq<byte>, chunks: seq<seq<byte>>, n: nat)
    requires Fresh(pick, EXPECT_MATCH_WIDTH) && n <= |chunks| && Waiting(pick, acc, chunks, n)
    ensures MatchedLast(pick, acc, chunks[n..]) <==> n < |chunks| && FirstSeen(pick, chunks, |chunks| - 1)
    decreases |chunks| - n
  {
    if n < |chunks| {
      MatchedLastUnroll(pick, acc, chunks, n);
      if FindIndex(pick, acc + chunks[n]).Some? {
        SeenFirst(pick, acc, chunks, n);
      } else {
        WaitsOn(pick, acc, chunks, n);
        ChunkSeen(pick, acc, chunks, n);
        MatchedLastFrom(pick, Trim(acc + chunks[n]), chunks, n + 1);
      }
    }
  }

  /** The last chunk completes the first match exactly when it is the first at which a rescan finds the pattern. */
  lemma MatchedLastIsFirstSeen(pick: Matcher<byte>, chunks: seq<seq<byte>>)
    requires Fresh(pick, EXPECT_MATCH_WIDTH)
    ensures MatchedLast(pick, [], chunks) <==> chunks != [] && FirstSeen(pick, chunks, |chunks| - 1)
  {
    assert chunks[..0] == [] && chunks[0..] == chunks;
    MatchedLastFrom(pick, [], chunks, 0);
  }
}
