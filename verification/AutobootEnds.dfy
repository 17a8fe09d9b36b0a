/** Every way in which catching the bootloader can end, attempt by attempt. */
module AutobootEnds {
  import opened Autoboot
  import opened Matching
  import opened Bytes
  import CS = ConsoleState
  import PW = PatternWait
  import WS = WaitScrollback

  /** The console before attempt n, every earlier one having been waited for with 256 bytes of scrollback. */
  function BeforeKey(prompt: Matcher<byte>, c: CS.Console, attempts: seq<Attempt>, n: nat): CS.Console
    requires n <= |attempts|
  {
    if n == 0 then c else WaitAfter(prompt, BeforeKey(prompt, c, attempts, n - 1), attempts[n - 1]).c
  }

  /** The wait after a key. */
  function WaitAfter(prompt: Matcher<byte>, c: CS.Console, a: Attempt): PW.World {
    WaitOn(prompt, 256, CS.Run(c, a.before), a.turns)
  }

  /** The key is written, its wait fails, and the caller's deadline has not passed. */
  predicate InVain(prompt: Matcher<byte>, c: CS.Console, attempts: seq<Attempt>, n: nat)
    requires n < |attempts|
  {
    var x := WaitAfter(prompt, BeforeKey(prompt, c, attempts, n), attempts[n]);
    attempts[n].written && x.w.phase.Finished? && !WS.Found(x) && !attempts[n].expired
  }

  ghost predicate AllInVain(prompt: Matcher<byte>, c: CS.Console, attempts: seq<Attempt>, n: nat) {
    n <= |attempts| && forall i :: 0 <= i < n ==> InVain(prompt, c, attempts, i)
  }

  /** After k attempts in vain the rest decides. */
  ghost predicate Remains(all: Catch, rest: Catch, n: nat) {
    all.result == rest.result && all.console == rest.console && |all.keys| == n + |rest.keys|
  }

  lemma OneVain(prompt: Matcher<byte>, d: CS.Console, a: Attempt, rest: seq<Attempt>, left: nat)
    requires left > 0 && InVain(prompt, d, [a] + rest, 0)
    ensures Remains(Tries(prompt, d, [a] + rest, left), Tries(prompt, WaitAfter(prompt, d, a).c, rest, left - 1), 1)
  {
    assert ([a] + rest)[1..] == rest;
  }

  lemma SameVain(prompt: Matcher<byte>, c: CS.Console, attempts: seq<Attempt>, k: nat, rest: seq<Attempt>)
    requires k < |attempts| && InVain(prompt, c, attempts, k)
    ensures InVain(prompt, BeforeKey(prompt, c, attempts, k), [attempts[k]] + rest, 0)
    ensures BeforeKey(prompt, c, attempts, k + 1)
         == WaitAfter(prompt, BeforeKey(prompt, c, attempts, k), attempts[k]).c
  {
  }

  lemma RemainsOn(all: Catch, mid: Catch, rest: Catch, k: nat)
    requires Remains(all, mid, k) && Remains(mid, rest, 1)
    ensures Remains(all, rest, k + 1)
  {
  }

  /** What the attempts from n on come to. */
  function Later(prompt: Matcher<byte>, c: CS.Console, attempts: seq<Attempt>, left: nat, n: nat): Catch
    requires n <= left && n <= |attempts|
  {
    Tries(prompt, BeforeKey(prompt, c, attempts, n), attempts[n..], left - n)
  }

  lemma AllLater(prompt: Matcher<byte>, c: CS.Console, attempts: seq<Attempt>, left: nat)
    ensures Later(prompt, c, attempts, left, 0) == Tries(prompt, c, attempts, left)
  {
    assert attempts[0..] == attempts;
  }

  lemma NextVain(prompt: Matcher<byte>, c: CS.Console, attempts: seq<Attempt>, left: nat, k: nat, n: nat, all: Catch)
    requires n == k + 1 <= left && n <= |attempts| && InVain(prompt, c, attempts, k)
    requires Remains(all, Later(prompt, c, attempts, left, k), k)
    ensures Remains(all, Later(prompt, c, attempts, left, n), n)
  {
    var d, a, rest := BeforeKey(prompt, c, attempts, k), attempts[k], attempts[n..];
    SameVain(prompt, c, attempts, k, rest);
    OneVain(prompt, d, a, rest, left - k);
    assert attempts[k..] == [a] + rest;
    RemainsOn(all, Tries(prompt, d, [a] + rest, left - k), Tries(prompt, WaitAfter(prompt, d, a).c, rest, left - n), k);
  }

  lemma {:induction false} AfterVain(prompt: Matcher<byte>, c: CS.Console, attempts: seq<Attempt>, left: nat, n: nat,
                                     all: Catch)
    requires n <= left && AllInVain(prompt, c, attempts, n) && all == Tries(prompt, c, attempts, left)
    ensures Remains(all, Later(prompt, c, attempts, left, n), n)
    decreases n
  {
    if n == 0 {
      AllLater(prompt, c, attempts, left);
    } else {
      var k := n - 1;
      AfterVain(prompt, c, attempts, left, k, all);
      NextVain(prompt, c, attempts, left, k, n, all);
    }
  }

  /** The number of attempts in vain before the one that decides. */
  lemma {:induction false} VainCount(prompt: Matcher<byte>, c: CS.Console, attempts: seq<Attempt>, limit: nat)
      returns (n: nat)
    ensures n <= limit && AllInVain(prompt, c, attempts, n)
    ensures n == limit || n == |attempts| || !InVain(prompt, c, attempts, n)
    decreases limit
  {
    if limit == 0 {
      return 0;
    }
    n := VainCount(prompt, c, attempts, limit - 1);
    if n == limit - 1 && n < |attempts| && InVain(prompt, c, attempts, n) {
      n := limit;
    }
  }

  /** How attempt n, which is not in vain, decides. */
  ghost predicate DecidedBy(prompt: Matcher<byte>, r: Catch, c: CS.Console, a: Attempt, n: nat) {
    var x := WaitAfter(prompt, c, a);
    if !a.written then r.result == Failed(KeyNotWritten) && |r.keys| == n && r.console == CS.Run(c, a.before)
    else
      && |r.keys| == n + 1 && r.console == x.c
      && r.result == (if !x.w.phase.Finished? then Blocked else if WS.Found(x) then Prompt(x) else Failed(CtxDone))
  }

  lemma Decides(prompt: Matcher<byte>, d: CS.Console, a: Attempt, rest: seq<Attempt>, left: nat)
    requires left > 0 && !InVain(prompt, d, [a] + rest, 0)
    ensures DecidedBy(prompt, Tries(prompt, d, [a] + rest, left), d, a, 0)
  {
  }

  /** The attempts alone. */
  lemma TriesExactly(prompt: Matcher<byte>, c: CS.Console, attempts: seq<Attempt>, r: Catch) returns (n: nat)
    requires r == Tries(prompt, c, attempts, 8)
    ensures n <= 8 && AllInVain(prompt, c, attempts, n)
    ensures n == 8 ==> r.result == Failed(NoPrompt) && |r.keys| == 8 && r.console == BeforeKey(prompt, c, attempts, 8)
    ensures n < 8 && n == |attempts| ==> r.result == Blocked && |r.keys| == n
    ensures n < 8 && n < |attempts| ==> DecidedBy(prompt, r, BeforeKey(prompt, c, attempts, n), attempts[n], n)
  {
    n := VainCount(prompt, c, attempts, 8);
    AfterVain(prompt, c, attempts, 8, n, r);
    if n < 8 && n < |attempts| {
      DecidesNext(prompt, c, attempts, n, r);
    }
  }

  lemma DecidesNext(prompt: Matcher<byte>, c: CS.Console, attempts: seq<Attempt>, n: nat, r: Catch)
    requires n < 8 && n < |attempts| && !InVain(prompt, c, attempts, n)
    requires Remains(r, Tries(prompt, BeforeKey(prompt, c, attempts, n), attempts[n..], 8 - n), n)
    ensures DecidedBy(prompt, r, BeforeKey(prompt, c, attempts, n), attempts[n], n)
  {
    var d, a, rest := BeforeKey(prompt, c, attempts, n), attempts[n], attempts[n + 1..];
    assert attempts[n..] == [a] + rest;
    Decides(prompt, d, a, rest, 8 - n);
  }

  /**
   How catching ends: without the invitation nothing is written; otherwise keys are written until one could not be,
   the prompt is seen after one, or the deadline has passed, and it is given up after eight and not before.
   */
  lemma CatchExactly(interrupt: Matcher<byte>, prompt: Matcher<byte>, c: CS.Console, b: BootReply) returns (n: nat)
    ensures var x := Invitation(interrupt, c, b);
            var r := CatchBoot(interrupt, prompt, c, b);
            if !WS.Found(x) then
              r == Catch(if x.w.phase.Finished? then Failed(NoAutoboot) else Blocked, [], x.c)
            else
              && n <= 8 && AllInVain(prompt, x.c, b.attempts, n)
              && if n == 8 then
                   r.result == Failed(NoPrompt) && |r.keys| == 8 && r.console == BeforeKey(prompt, x.c, b.attempts, 8)
                 else if n == |b.attempts| then r.result == Blocked && |r.keys| == n
                 else DecidedBy(prompt, r, BeforeKey(prompt, x.c, b.attempts, n), b.attempts[n], n)
  {
    var x := Invitation(interrupt, c, b);
    if WS.Found(x) {
      n := TriesExactly(prompt, x.c, b.attempts, Tries(prompt, x.c, b.attempts, MAX_ATTEMPTS));
    } else {
      n := 0;
    }
  }
}
