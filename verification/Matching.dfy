/**
 Searching text with a regular expression, abstractly.

 A matcher says, for the text from some position to the end, whether the expression matches
 at that position and how long the match is. It may look at everything that follows but not
 at what came before, so expressions with a begin-of-text anchor are excluded.
 */
module Matching {
  import opened Bytes

  type Matcher<!T> = seq<T> -> Option<nat>

  /** A match that appears only once more text has arrived begins within the last width - 1
      elements of the old text. This is all that an incremental search relies on. */
  ghost predicate Fresh<T(!new)>(pick: Matcher<T>, width: nat) {
    forall t: seq<T>, u: seq<T> {:trigger pick(t + u)} ::
      u != [] && pick(t).None? && pick(t + u).Some? ==> |t| < width
  }

  /** Whether a match occurs depends on the matched elements alone, and none is longer than width. */
  ghost predicate SubstringLocal<T(!new)>(pick: Matcher<T>, m: seq<T> -> bool, width: nat) {
    && (forall t: seq<T> :: pick(t).Some? ==> pick(t).value <= |t| && m(t[..pick(t).value]))
    && (forall t: seq<T>, n: nat {:trigger t[..n]} :: n <= |t| && m(t[..n]) ==> pick(t).Some?)
    && (forall x: seq<T> :: m(x) ==> |x| <= width)
  }

  /** Matches reach the end of the text (a trailing end-of-text anchor) and none is longer than width. */
  ghost predicate EndAnchored<T(!new)>(pick: Matcher<T>, width: nat) {
    forall t: seq<T> :: pick(t).Some? ==> pick(t).value == |t| <= width
  }

  lemma SubstringLocalIsFresh<T(!new)>(pick: Matcher<T>, m: seq<T> -> bool, width: nat)
    requires SubstringLocal(pick, m, width)
    ensures Fresh(pick, width)
  {
    forall t: seq<T>, u: seq<T> | pick(t).None? && pick(t + u).Some?
      ensures |t| < width
    {
      var k := Min(pick(t + u).value, |t|);
      assert (t + u)[..k] == t[..k];
    }
  }

  lemma EndAnchoredIsFresh<T(!new)>(pick: Matcher<T>, width: nat)
    requires EndAnchored(pick, width)
    ensures Fresh(pick, width)
  {
  }

  /** Where the leftmost match at or after i begins and ends; a match never runs past the text. */
  function FindFrom<T>(pick: Matcher<T>, s: seq<T>, i: nat): (r: Option<(nat, nat)>)
    requires i <= |s|
    ensures r.Some? ==> i <= r.value.0 <= r.value.1 <= |s|
    decreases |s| - i
  {
    match pick(s[i..])
    case Some(n) => Some((i, Min(i + n, |s|)))
    case None => if i == |s| then None else FindFrom(pick, s, i + 1)
  }

  /** The leftmost match in s, as regexp.FindIndex reports it. */
  function FindIndex<T>(pick: Matcher<T>, s: seq<T>): (r: Option<(nat, nat)>)
    ensures r.Some? ==> r.value.0 <= r.value.1 <= |s|
  {
    FindFrom(pick, s, 0)
  }

  /** What FindFrom returns, without its recursion: the first position that matches, if any does. */
  ghost predicate IsLeftmost<T>(pick: Matcher<T>, s: seq<T>, i: nat, r: Option<(nat, nat)>)
    requires i <= |s|
  {
    match r
    case None => forall j :: i <= j <= |s| ==> pick(s[j..]).None?
    case Some((lo, hi)) =>
      && i <= lo <= |s|
      && pick(s[lo..]).Some? && hi == Min(lo + pick(s[lo..]).value, |s|)
      && (forall j :: i <= j < lo ==> pick(s[j..]).None?)
  }

  lemma {:induction false} FindFromIsLeftmost<T>(pick: Matcher<T>, s: seq<T>, i: nat)
    requires i <= |s|
    ensures IsLeftmost(pick, s, i, FindFrom(pick, s, i))
    decreases |s| - i
  {
    if pick(s[i..]).None? && i < |s| {
      FindFromIsLeftmost(pick, s, i + 1);
    }
  }

  lemma LeftmostIsUnique<T>(pick: Matcher<T>, s: seq<T>, i: nat, a: Option<(nat, nat)>, b: Option<(nat, nat)>)
    requires i <= |s| && IsLeftmost(pick, s, i, a) && IsLeftmost(pick, s, i, b)
    ensures a == b
  {
    if a.Some? && b.Some? {
      assert a.value.0 == b.value.0;
    }
  }

  /** A match reported relative to text whose first k elements were dropped. */
  function Shift(r: Option<(nat, nat)>, k: nat): Option<(nat, nat)> {
    match r
    case None => None
    case Some((lo, hi)) => Some((lo + k, hi + k))
  }

  /** Searching only the part that a fresh match can begin in finds what a search of everything finds. */
  lemma SearchTailOnly<T(!new)>(pick: Matcher<T>, width: nat, prior: seq<T>, u: seq<T>, k: nat)
    requires Fresh(pick, width) && width >= 1
    requires FindIndex(pick, prior).None?
    requires k <= Max(0, |prior| - (width - 1))
    ensures FindIndex(pick, prior + u) == Shift(FindIndex(pick, (prior + u)[k..]), k)
  {
    var s := prior + u;
    var tail := s[k..];
    var r := FindIndex(pick, tail);
    FindFromIsLeftmost(pick, prior, 0);
    FindFromIsLeftmost(pick, tail, 0);
    forall j | 0 <= j <= |tail|
      ensures tail[j..] == s[k + j..]
    {
    }
    forall j | 0 <= j < k
      ensures pick(s[j..]).None?
    {
      assert s[j..] == prior[j..] + u;
      assert pick(prior[j..]).None?;
      if u == [] {
        assert s[j..] == prior[j..];
      }
    }
    assert IsLeftmost(pick, s, 0, Shift(r, k)) by {
      forall j | k <= j <= (if r.None? then |s| else r.value.0 + k - 1)
        ensures pick(s[j..]).None?
      {
        assert tail[j - k..] == s[j..];
      }
    }
    FindFromIsLeftmost(pick, s, 0);
    LeftmostIsUnique(pick, s, 0, Shift(r, k), FindIndex(pick, s));
  }

  /** The expression matches somewhere within text[a..b]. */
  predicate Contains<T>(pick: Matcher<T>, text: seq<T>, a: nat, b: nat) {
    a <= b <= |text| && FindIndex(pick, text[a..b]).Some?
  }

  /** An occurrence inside a stretch of text is an occurrence in any longer stretch. */
  ghost predicate Persistent<T(!new)>(pick: Matcher<T>) {
    forall text: seq<T>, a: nat, b: nat, o: nat, e: nat
      {:trigger Contains(pick, text, a, b), Contains(pick, text, o, e)} ::
      o <= a <= b <= e <= |text| && Contains(pick, text, a, b) ==> Contains(pick, text, o, e)
  }

  lemma SubstringLocalPersists<T(!new)>(pick: Matcher<T>, m: seq<T> -> bool, width: nat)
    requires SubstringLocal(pick, m, width)
    ensures Persistent(pick)
  {
    forall text: seq<T>, a: nat, b: nat, o: nat, e: nat |
      o <= a <= b <= e <= |text| && Contains(pick, text, a, b)
      ensures Contains(pick, text, o, e)
    {
      OccurrencePersists(pick, m, width, text[o..a], text[a..b], text[b..e]);
      assert text[o..a] + text[a..b] + text[b..e] == text[o..e];
    }
  }

  /** An occurrence inside a piece of text is an occurrence in the text. */
  lemma OccurrencePersists<T(!new)>(pick: Matcher<T>, m: seq<T> -> bool, width: nat,
                                    before: seq<T>, s: seq<T>, after: seq<T>)
    requires SubstringLocal(pick, m, width)
    requires FindIndex(pick, s).Some?
    ensures FindIndex(pick, before + s + after).Some?
  {
    FindFromIsLeftmost(pick, s, 0);
    var (lo, hi) := FindIndex(pick, s).value;
    var big := before + s + after;
    var t := big[|before| + lo..];
    assert t == s[lo..] + after;
    assert t[..hi - lo] == s[lo..][..hi - lo];
    assert pick(t).Some?;
    FindFromIsLeftmost(pick, big, 0);
  }
}
