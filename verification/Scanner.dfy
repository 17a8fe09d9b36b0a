/**
 The two searches that watch console output for a pattern without keeping all of it:
 the pattern waiter's incremental scanner and the bootloader driver's trimmed accumulator.
 Each is shown to report exactly what rescanning every byte ever fed would report.
 */
module Scanner {
  import opened Bytes
  import opened Matching

  const MAX_PATTERN_WINDOW: nat := 0x10_0000
  const PATTERN_SCAN_OVERLAP: nat := 0x1_0000

  /** The longest match that the overlap cannot lose. */
  const WAIT_MATCH_WIDTH: nat := PATTERN_SCAN_OVERLAP + 1

  /** The longest match that trimming to half a window cannot lose. */
  const EXPECT_MATCH_WIDTH: nat := MAX_PATTERN_WINDOW / 2 + 1

  // ---- Incremental scanner ------------------------------------------------------

  datatype AnyScanState = ScanState(acc: seq<byte>, scanned: nat)

  type ScanState = s: AnyScanState | s.scanned <= |s.acc| witness ScanState([], 0)

  const FRESH_SCAN: ScanState := ScanState([], 0)

  function ScanStart(scanned: nat): nat {
    Max(0, scanned - PATTERN_SCAN_OVERLAP)
  }

  /** Drop all but half a window once the accumulator exceeds the window. */
  function Trim(acc: seq<byte>): seq<byte> {
    if |acc| > MAX_PATTERN_WINDOW then Last(acc, MAX_PATTERN_WINDOW / 2) else acc
  }

  /** One scan: the next state and the matched text, if any. A match leaves `scanned` alone. */
  function ScanOnce(pick: Matcher<byte>, s: ScanState): (ScanState, Option<seq<byte>>) {
    var start := ScanStart(s.scanned);
    match FindIndex(pick, s.acc[start..])
    case Some((lo, hi)) => (s, Some(s.acc[start + lo..start + hi]))
    case None => (ScanState(Trim(s.acc), |Trim(s.acc)|), None)
  }

  function Feed(pick: Matcher<byte>, s: ScanState, chunk: seq<byte>): (ScanState, Option<seq<byte>>) {
    ScanOnce(pick, ScanState(s.acc + chunk, s.scanned))
  }

  /** The reference: the leftmost match in everything fed so far. */
  function NaiveMatch(pick: Matcher<byte>, fed: seq<byte>): Option<seq<byte>> {
    match FindIndex(pick, fed)
    case None => None
    case Some((lo, hi)) => Some(fed[lo..hi])
  }

  /** Holds between feeds until a match is found, with `fed` everything fed since the last reset. */
  ghost predicate ScanInv(pick: Matcher<byte>, s: ScanState, fed: seq<byte>) {
    && s.scanned == |s.acc| <= MAX_PATTERN_WINDOW
    && |s.acc| <= |fed| && s.acc == fed[|fed| - |s.acc|..]
    && (|s.acc| >= MAX_PATTERN_WINDOW / 2 || s.acc == fed)
    && (fed != [] ==> FindIndex(pick, fed).None?)
  }

  lemma FreshScanInv(pick: Matcher<byte>)
    ensures ScanInv(pick, FRESH_SCAN, [])
  {
  }

  /** A search of the window after a chunk arrives finds what a search of everything finds. */
  lemma WindowSearch(pick: Matcher<byte>, s: ScanState, fed: seq<byte>, chunk: seq<byte>)
    requires Fresh(pick, WAIT_MATCH_WIDTH) && ScanInv(pick, s, fed)
    ensures var start := ScanStart(s.scanned);
            FindIndex(pick, fed + chunk)
            == Shift(FindIndex(pick, (s.acc + chunk)[start..]), |fed| - |s.acc| + start)
  {
    var k := |fed| - |s.acc| + ScanStart(s.scanned);
    assert (s.acc + chunk)[ScanStart(s.scanned)..] == (fed + chunk)[k..];
    if fed == [] {
      assert (fed + chunk)[0..] == fed + chunk;
    } else {
      SearchTailOnly(pick, WAIT_MATCH_WIDTH, fed, chunk, k);
    }
  }

  lemma ScanFindsSame(pick: Matcher<byte>, s: ScanState, all: seq<byte>)
    requires |s.acc| <= |all| && s.acc == all[|all| - |s.acc|..]
    requires var start := ScanStart(s.scanned);
             FindIndex(pick, all) == Shift(FindIndex(pick, s.acc[start..]), |all| - |s.acc| + start)
    ensures ScanOnce(pick, s).1 == NaiveMatch(pick, all)
  {
    var start := ScanStart(s.scanned);
    var k := |all| - |s.acc|;
    match FindIndex(pick, s.acc[start..]) {
      case None =>
      case Some((lo, hi)) =>
        assert all[k..][start + lo..start + hi] == all[k + start + lo..k + start + hi];
    }
  }

  /** What a failed scan leaves behind is again a tail of everything fed, half a window long or whole. */
  lemma TrimKeepsTail(acc: seq<byte>, all: seq<byte>)
    requires |acc| <= |all| && acc == all[|all| - |acc|..]
    requires |acc| >= MAX_PATTERN_WINDOW / 2 || acc == all
    ensures var a := Trim(acc);
            |a| <= MAX_PATTERN_WINDOW && |a| <= |all| && a == all[|all| - |a|..]
            && (|a| >= MAX_PATTERN_WINDOW / 2 || a == all)
  {
  }

  lemma AppendIsTail(acc: seq<byte>, fed: seq<byte>, chunk: seq<byte>)
    requires |acc| <= |fed| && acc == fed[|fed| - |acc|..]
    ensures acc + chunk == (fed + chunk)[|fed| - |acc|..]
  {
  }

  /** The next feed reports exactly what a rescan of everything fed reports, with the same text. */
  lemma FeedReports(pick: Matcher<byte>, s: ScanState, fed: seq<byte>, chunk: seq<byte>)
    requires Fresh(pick, WAIT_MATCH_WIDTH) && ScanInv(pick, s, fed)
    ensures Feed(pick, s, chunk).1 == NaiveMatch(pick, fed + chunk)
  {
    AppendIsTail(s.acc, fed, chunk);
    WindowSearch(pick, s, fed, chunk);
    ScanFindsSame(pick, ScanState(s.acc + chunk, s.scanned), fed + chunk);
  }

  /** A feed that finds nothing keeps the invariant. */
  lemma FeedKeepsInv(pick: Matcher<byte>, s: ScanState, fed: seq<byte>, chunk: seq<byte>)
    requires Fresh(pick, WAIT_MATCH_WIDTH) && ScanInv(pick, s, fed)
    requires Feed(pick, s, chunk).1.None?
    ensures ScanInv(pick, Feed(pick, s, chunk).0, fed + chunk)
  {
    FeedReports(pick, s, fed, chunk);
    AppendIsTail(s.acc, fed, chunk);
    TrimKeepsTail(s.acc + chunk, fed + chunk);
  }

  /** Memory stays within the window plus the chunk just fed. */
  lemma FeedIsBounded(pick: Matcher<byte>, s: ScanState, chunk: seq<byte>)
    requires |s.acc| <= MAX_PATTERN_WINDOW
    ensures |Feed(pick, s, chunk).0.acc| <= MAX_PATTERN_WINDOW + |chunk|
    ensures Feed(pick, s, chunk).1.None? ==> |Feed(pick, s, chunk).0.acc| <= MAX_PATTERN_WINDOW
  {
  }

  /** The scanner after a list of chunks; it stops at the chunk that completes a match. */
  function FeedAll(pick: Matcher<byte>, chunks: seq<seq<byte>>): (ScanState, Option<seq<byte>>)
  {
    if chunks == [] then (FRESH_SCAN, None)
    else
      var r := FeedAll(pick, chunks[..|chunks| - 1]);
      if r.1.Some? then r else Feed(pick, r.0, chunks[|chunks| - 1])
  }

  /** The reference: rescan everything received so far after every chunk. */
  function RescanAll(pick: Matcher<byte>, chunks: seq<seq<byte>>): Option<seq<byte>> {
    if chunks == [] then None
    else
      var r := RescanAll(pick, chunks[..|chunks| - 1]);
      if r.Some? then r else NaiveMatch(pick, Flatten(chunks))
  }

  function Longest(chunks: seq<seq<byte>>): nat {
    if chunks == [] then 0 else Max(Longest(chunks[..|chunks| - 1]), |chunks[|chunks| - 1]|)
  }

  /** Over any sequence of feeds the two report at the same feed and with the same leftmost text. */
  lemma {:induction false} ScannerRefinesRescan(pick: Matcher<byte>, chunks: seq<seq<byte>>)
    requires Fresh(pick, WAIT_MATCH_WIDTH)
    ensures FeedAll(pick, chunks).1 == RescanAll(pick, chunks)
    ensures FeedAll(pick, chunks).1.None? ==> ScanInv(pick, FeedAll(pick, chunks).0, Flatten(chunks))
  {
    if chunks != [] {
      var before, chunk := chunks[..|chunks| - 1], chunks[|chunks| - 1];
      ScannerRefinesRescan(pick, before);
      var r := FeedAll(pick, before);
      if r.1.None? {
        FlattenLast(chunks);
        FeedRefines(pick, r.0, Flatten(before), chunk);
      }
    }
  }

  lemma FlattenLast(chunks: seq<seq<byte>>)
    requires chunks != []
    ensures Flatten(chunks) == Flatten(chunks[..|chunks| - 1]) + chunks[|chunks| - 1]
  {
    assert chunks == chunks[..|chunks| - 1] + [chunks[|chunks| - 1]];
    FlattenSnoc(chunks[..|chunks| - 1], chunks[|chunks| - 1]);
  }

  lemma FeedRefines(pick: Matcher<byte>, s: ScanState, fed: seq<byte>, chunk: seq<byte>)
    requires Fresh(pick, WAIT_MATCH_WIDTH) && ScanInv(pick, s, fed)
    ensures Feed(pick, s, chunk).1 == NaiveMatch(pick, fed + chunk)
    ensures Feed(pick, s, chunk).1.None? ==> ScanInv(pick, Feed(pick, s, chunk).0, fed + chunk)
  {
    FeedReports(pick, s, fed, chunk);
    if Feed(pick, s, chunk).1.None? {
      FeedKeepsInv(pick, s, fed, chunk);
    }
  }

  /** Memory stays within the window plus the longest chunk, over any sequence of feeds. */
  lemma {:induction false} FeedsAreBounded(pick: Matcher<byte>, chunks: seq<seq<byte>>)
    ensures |FeedAll(pick, chunks).0.acc| <= MAX_PATTERN_WINDOW + Longest(chunks)
    ensures FeedAll(pick, chunks).1.None? ==> |FeedAll(pick, chunks).0.acc| <= MAX_PATTERN_WINDOW
  {
    if chunks != [] {
      var before, chunk := chunks[..|chunks| - 1], chunks[|chunks| - 1];
      FeedsAreBounded(pick, before);
      var r := FeedAll(pick, before);
      if r.1.None? {
        FeedIsBounded(pick, r.0, chunk);
      }
    }
  }

  // ---- The scanner object -------------------------------------------------------

  class PatternScanner {
    const pick: Matcher<byte>
    var acc: seq<byte>
    var scanned: nat

    ghost predicate Valid()
      reads this
    {
      scanned <= |acc|
    }

    ghost function State(): ScanState
      requires Valid()
      reads this
    {
      ScanState(acc, scanned)
    }

    constructor (pick: Matcher<byte>)
      ensures Valid() && this.pick == pick && State() == FRESH_SCAN
    {
      this.pick, acc, scanned := pick, [], 0;
    }

    /** Appends a chunk and searches the unsearched tail plus the overlap. */
    method FeedChunk(chunk: seq<byte>) returns (found: Option<seq<byte>>)
      requires Valid()
      modifies this
      ensures Valid()
      ensures (State(), found) == Feed(pick, old(State()), chunk)
    {
      acc := acc + chunk;
      found := Scan();
    }

    method Scan() returns (found: Option<seq<byte>>)
      requires Valid()
      modifies this
      ensures Valid()
      ensures (State(), found) == ScanOnce(pick, old(State()))
    {
      var start := scanned - PATTERN_SCAN_OVERLAP;
      if start < 0 {
        start := 0;
      }
      var loc := FindIndex(pick, acc[start..]);
      if loc.Some? {
        return Some(acc[start + loc.value.0..start + loc.value.1]);
      }
      scanned := |acc|;
      if |acc| > MAX_PATTERN_WINDOW {
        var keep := MAX_PATTERN_WINDOW / 2;
        var dropped := |acc| - keep;
        acc := acc[dropped..];
        scanned := if scanned - dropped < 0 then 0 else scanned - dropped;
      }
      return None;
    }

    method Reset()
      modifies this
      ensures Valid() && State() == FRESH_SCAN
    {
      acc, scanned := [], 0;
    }
  }

  // ---- Trimmed accumulator ------------------------------------------------------

  /** Holds while send-and-expect keeps waiting: acc is a tail of everything received. */
  ghost predicate TrimInv(pick: Matcher<byte>, acc: seq<byte>, fed: seq<byte>) {
    && |acc| <= MAX_PATTERN_WINDOW
    && |acc| <= |fed| && acc == fed[|fed| - |acc|..]
    && (|acc| >= MAX_PATTERN_WINDOW / 2 || acc == fed)
    && (fed != [] ==> FindIndex(pick, fed).None?)
  }

  /** Matching the trimmed accumulator is matching everything received since the subscription. */
  lemma TrimRefinesRescan(pick: Matcher<byte>, acc: seq<byte>, fed: seq<byte>, chunk: seq<byte>)
    requires Fresh(pick, EXPECT_MATCH_WIDTH)
    requires TrimInv(pick, acc, fed)
    ensures FindIndex(pick, acc + chunk).Some? <==> FindIndex(pick, fed + chunk).Some?
    ensures FindIndex(pick, acc + chunk).None? ==> TrimInv(pick, Trim(acc + chunk), fed + chunk)
    ensures |acc + chunk| <= MAX_PATTERN_WINDOW + |chunk|
  {
    var k := |fed| - |acc|;
    assert acc + chunk == (fed + chunk)[k..];
    TrimKeepsTail(acc + chunk, fed + chunk);
    if fed != [] {
      SearchTailOnly(pick, EXPECT_MATCH_WIDTH, fed, chunk, k);
    }
  }
}
