/**
 Catching the bootloader before it boots by itself: wait for its invitation, then write the interrupt key until
 its prompt is seen. Both waits are those of the console's pattern waiter, so what they report is in the
 stream, and where.
 */
module Autoboot {
  import opened Bytes
  import opened Matching
  import opened Scanner
  import CS = ConsoleState
  import PW = PatternWait
  import WL = WaitLoop
  import WS = WaitScrollback

  const MAX_ATTEMPTS: nat := 8

  /** How much scrollback the wait for the prompt considers first. */
  const PROMPT_SCROLLBACK: int := 256

  datatype BootError = NoPower | PowerFailed | NoAutoboot | KeyNotWritten | NoPrompt | CtxDone

  /** One interrupt key: what the console sees before it is written, whether it is, the turns of the wait for the
      prompt, and whether the caller's own deadline has passed when that wait fails. */
  datatype Attempt = Attempt(before: seq<CS.Event>, written: bool, turns: seq<WL.Turn>, expired: bool)

  /** Everything the power supply and the console will do. */
  datatype BootReply = BootReply(
    cycled: bool, before: seq<CS.Event>, turns: seq<WL.Turn>, attempts: seq<Attempt>)

  /** Blocked while a wait has not returned; otherwise the failure, or the wait that saw the prompt. */
  datatype Caught = Blocked | Failed(error: BootError) | Prompt(x: PW.World)

  /** The result, how long the stream was when each key was written, and the console at the end. */
  datatype Catch = Catch(result: Caught, keys: seq<nat>, console: CS.Console)

  function WaitOn(pick: Matcher<byte>, scroll: int, c: CS.Console, turns: seq<WL.Turn>): PW.World {
    WL.Play(PW.Params(pick, scroll), PW.World(c, PW.START_WAITER), turns).0
  }

  /** The loop over interrupt keys, with this many attempts left. */
  function Tries(prompt: Matcher<byte>, c: CS.Console, attempts: seq<Attempt>, left: nat): Catch
    decreases left
  {
    if left == 0 then Catch(Failed(NoPrompt), [], c)
    else if attempts == [] then Catch(Blocked, [], c)
    else
      var a := attempts[0];
      var d := CS.Run(c, a.before);
      if !a.written then Catch(Failed(KeyNotWritten), [], d)
      else
        var x := WaitOn(prompt, PROMPT_SCROLLBACK, d, a.turns);
        if !x.w.phase.Finished? then Catch(Blocked, [PW.Len(d)], x.c)
        else if WS.Found(x) then Catch(Prompt(x), [PW.Len(d)], x.c)
        else if a.expired then Catch(Failed(CtxDone), [PW.Len(d)], x.c)
        else
          var r := Tries(prompt, x.c, attempts[1..], left - 1);
          Catch(r.result, [PW.Len(d)] + r.keys, r.console)
  }

  /** The wait for the invitation. */
  function Invitation(interrupt: Matcher<byte>, c: CS.Console, b: BootReply): PW.World {
    WaitOn(interrupt, 0, CS.Run(c, b.before), b.turns)
  }

  function CatchBoot(interrupt: Matcher<byte>, prompt: Matcher<byte>, c: CS.Console, b: BootReply): Catch {
    var x := Invitation(interrupt, c, b);
    if !x.w.phase.Finished? then Catch(Blocked, [], x.c)
    else if !WS.Found(x) then Catch(Failed(NoAutoboot), [], x.c)
    else Tries(prompt, x.c, b.attempts, MAX_ATTEMPTS)
  }

  // ---- What success means --------------------------------------------------------------------

  lemma WaitKeeps(pick: Matcher<byte>, scroll: int, c: CS.Console, turns: seq<WL.Turn>)
    requires CS.Inv(c)
    ensures CS.Inv(WaitOn(pick, scroll, c, turns).c) && WS.Since(c, WaitOn(pick, scroll, c, turns).c)
  {
    var p, x := PW.Params(pick, scroll), PW.World(c, PW.START_WAITER);
    var used := WL.PlayIsRun(p, x, turns);
    WS.WaitSince(p, x, WL.AllMoves(used));
  }

  /** A match is reported in bytes that begin no further back than the scrollback asked for, and have been published. */
  lemma WaitFinds(pick: Matcher<byte>, scroll: int, c: CS.Console, turns: seq<WL.Turn>)
    requires Fresh(pick, WAIT_MATCH_WIDTH) && CS.Inv(c) && scroll >= 0
    ensures var x := WaitOn(pick, scroll, c, turns);
            WS.Found(x) ==>
              && PW.Len(c) - scroll <= WS.MatchStart(pick, x) <= WS.MatchEnd(pick, x) <= PW.Len(x.c)
              && x.w.phase.outcome.text == CS.Stream(x.c)[WS.MatchStart(pick, x)..WS.MatchEnd(pick, x)]
  {
    var p := PW.Params(pick, scroll);
    var x := WaitOn(pick, scroll, c, turns);
    var f := WS.StartFloor(p, c, c);
    WS.PlayFloor(p, c, turns, f, PW.Len(c));
    if WS.Found(x) {
      MatchInStream(pick, x);
    }
  }

  lemma MatchInStream(pick: Matcher<byte>, x: PW.World)
    requires PW.FedOK(x.c, x.w) && WS.Found(x) && NaiveMatch(pick, x.w.fed) == Some(x.w.phase.outcome.text)
    ensures x.w.origin <= WS.MatchStart(pick, x) <= WS.MatchEnd(pick, x) <= PW.Len(x.c)
    ensures x.w.phase.outcome.text == CS.Stream(x.c)[WS.MatchStart(pick, x)..WS.MatchEnd(pick, x)]
  {
    var (lo, hi) := FindIndex(pick, x.w.fed).value;
    var a := x.w.origin;
    SliceWithin(CS.Stream(x.c), a, a + |x.w.fed|, lo, hi);
  }

  lemma SliceWithin(s: seq<byte>, a: nat, b: nat, lo: nat, hi: nat)
    requires lo <= hi && a + hi <= b <= |s|
    ensures s[a..b][lo..hi] == s[a + lo..a + hi]
  {
    var left, right := s[a..b][lo..hi], s[a + lo..a + hi];
    forall j | 0 <= j < hi - lo
      ensures left[j] == right[j]
    {
      assert left[j] == s[a..b][lo + j] == s[a + (lo + j)];
    }
    assert left == right;
  }

  predicate Ascending(keys: seq<nat>, from: nat, to: nat) {
    && (forall i :: 0 <= i < |keys| ==> from <= keys[i] <= to)
    && forall i, j :: 0 <= i < j < |keys| ==> keys[i] <= keys[j]
  }

  lemma AscendingCons(k: nat, keys: seq<nat>, from: nat, mid: nat, to: nat)
    requires from <= k <= mid <= to && Ascending(keys, mid, to)
    ensures Ascending([k] + keys, from, to)
  {
  }

  /** At most so many keys, each written later than the one before; the prompt only after one, and no further back
      than the scrollback its wait was given. */
  ghost predicate Shape(prompt: Matcher<byte>, c: CS.Console, r: Catch, left: nat) {
    && |r.keys| <= left && CS.Inv(r.console) && WS.Since(c, r.console)
    && Ascending(r.keys, PW.Len(c), PW.Len(r.console))
    && (r.result.Prompt? ==> PromptAfter(prompt, r))
  }

  ghost predicate PromptAfter(prompt: Matcher<byte>, r: Catch)
    requires r.result.Prompt?
  {
    var x := r.result.x;
    && r.keys != [] && x.c == r.console && WS.Found(x)
    && r.keys[|r.keys| - 1] - PROMPT_SCROLLBACK <= WS.MatchStart(prompt, x)
    && WS.MatchStart(prompt, x) <= WS.MatchEnd(prompt, x) <= PW.Len(x.c)
  }

  /** The attempt that ends the loop. */
  lemma LastKey(prompt: Matcher<byte>, c: CS.Console, d: CS.Console, turns: seq<WL.Turn>, result: Caught, left: nat)
    requires Fresh(prompt, WAIT_MATCH_WIDTH) && CS.Inv(d) && WS.Since(c, d) && left >= 1
    requires result.Prompt? ==> WS.Found(result.x) && result.x == WaitOn(prompt, PROMPT_SCROLLBACK, d, turns)
    ensures Shape(prompt, c, Catch(result, [PW.Len(d)], WaitOn(prompt, PROMPT_SCROLLBACK, d, turns).c), left)
  {
    WaitKeeps(prompt, PROMPT_SCROLLBACK, d, turns);
    WaitFinds(prompt, PROMPT_SCROLLBACK, d, turns);
    WS.SinceTransitive(c, d, WaitOn(prompt, PROMPT_SCROLLBACK, d, turns).c);
  }

  lemma EarlierKey(prompt: Matcher<byte>, c: CS.Console, k: nat, e: CS.Console, r: Catch, left: nat)
    requires WS.Since(c, e) && PW.Len(c) <= k <= PW.Len(e) && Shape(prompt, e, r, left)
    ensures Shape(prompt, c, Catch(r.result, [k] + r.keys, r.console), left + 1)
  {
    WS.SinceTransitive(c, e, r.console);
    AscendingCons(k, r.keys, PW.Len(c), PW.Len(e), PW.Len(r.console));
    assert r.keys != [] ==> ([k] + r.keys)[|r.keys|] == r.keys[|r.keys| - 1];
  }

  lemma {:induction false} TriesShape(prompt: Matcher<byte>, c: CS.Console, attempts: seq<Attempt>, left: nat)
    requires Fresh(prompt, WAIT_MATCH_WIDTH) && CS.Inv(c)
    ensures Shape(prompt, c, Tries(prompt, c, attempts, left), left)
    decreases left
  {
    if left > 0 && attempts != [] {
      var a := attempts[0];
      var d := CS.Run(c, a.before);
      WS.RunSince(c, a.before);
      if a.written {
        var x := WaitOn(prompt, PROMPT_SCROLLBACK, d, a.turns);
        if !x.w.phase.Finished? || WS.Found(x) || a.expired {
          LastKey(prompt, c, d, a.turns, Tries(prompt, c, attempts, left).result, left);
        } else {
          WaitKeeps(prompt, PROMPT_SCROLLBACK, d, a.turns);
          WS.SinceTransitive(c, d, x.c);
          TriesShape(prompt, x.c, attempts[1..], left - 1);
          EarlierKey(prompt, c, PW.Len(d), x.c, Tries(prompt, x.c, attempts[1..], left - 1), left - 1);
        }
      }
    }
  }

  /**
   Autoboot line, keys, prompt, by position in the output: on success the invitation lies in what was published
   after its wait began and before the first key; between one and eight keys were written, in order; and the
   prompt is seen no more than 256 bytes before the last of them.
   */
  lemma CaughtInOrder(interrupt: Matcher<byte>, prompt: Matcher<byte>, c: CS.Console, b: BootReply)
    requires Fresh(interrupt, WAIT_MATCH_WIDTH) && Fresh(prompt, WAIT_MATCH_WIDTH) && CS.Inv(c)
    ensures var r := CatchBoot(interrupt, prompt, c, b);
            && |r.keys| <= MAX_ATTEMPTS && CS.Inv(r.console) && WS.Since(c, r.console)
            && (r.keys != [] ==>
                  var x := Invitation(interrupt, c, b);
                  && WS.Found(x)
                  && PW.Len(CS.Run(c, b.before)) <= WS.MatchStart(interrupt, x)
                  && WS.MatchEnd(interrupt, x) <= PW.Len(x.c)
                  && Ascending(r.keys, PW.Len(x.c), PW.Len(r.console)))
            && (r.result.Prompt? ==> PromptAfter(prompt, r))
  {
    var d := CS.Run(c, b.before);
    var x := Invitation(interrupt, c, b);
    WS.RunSince(c, b.before);
    WaitKeeps(interrupt, 0, d, b.turns);
    WaitFinds(interrupt, 0, d, b.turns);
    WS.SinceTransitive(c, d, x.c);
    TriesShape(prompt, x.c, b.attempts, MAX_ATTEMPTS);
    WS.SinceTransitive(c, x.c, Tries(prompt, x.c, b.attempts, MAX_ATTEMPTS).console);
  }

  // ---- An old prompt ---------------------------------------------------------------------------

  lemma OneTryFresh(prompt: Matcher<byte>, c0: CS.Console, d: CS.Console, turns: seq<WL.Turn>)
    requires Fresh(prompt, WAIT_MATCH_WIDTH) && CS.Inv(c0) && CS.Inv(d) && WS.Since(c0, d)
    requires WS.Inert(prompt, CS.ReplayOf(c0, PROMPT_SCROLLBACK))
    ensures var x := WaitOn(prompt, PROMPT_SCROLLBACK, d, turns);
            && CS.Inv(x.c) && WS.Since(c0, x.c)
            && (WS.Found(x) ==> WS.MatchStart(prompt, x) >= PW.Len(c0))
  {
    WS.WaitNotStale(PW.Params(prompt, PROMPT_SCROLLBACK), c0, d, turns);
    WaitKeeps(prompt, PROMPT_SCROLLBACK, d, turns);
    WS.SinceTransitive(c0, d, WaitOn(prompt, PROMPT_SCROLLBACK, d, turns).c);
  }

  /** Keys written no earlier than c0 lead to no match that begins before c0, if its scrollback was inert. */
  lemma {:induction false} TriesFresh(prompt: Matcher<byte>, c0: CS.Console, c: CS.Console,
                                      attempts: seq<Attempt>, left: nat)
    requires Fresh(prompt, WAIT_MATCH_WIDTH) && CS.Inv(c0) && CS.Inv(c) && WS.Since(c0, c)
    requires WS.Inert(prompt, CS.ReplayOf(c0, PROMPT_SCROLLBACK))
    ensures var r := Tries(prompt, c, attempts, left).result;
            r.Prompt? ==> WS.MatchStart(prompt, r.x) >= PW.Len(c0)
    decreases left
  {
    if left > 0 && attempts != [] {
      var a := attempts[0];
      var d := CS.Run(c, a.before);
      WS.RunSince(c, a.before);
      WS.SinceTransitive(c0, c, d);
      if a.written {
        var x := WaitOn(prompt, PROMPT_SCROLLBACK, d, a.turns);
        OneTryFresh(prompt, c0, d, a.turns);
        TriesFresh(prompt, c0, x.c, attempts[1..], left - 1);
      }
    }
  }

  /** Whatever follows the first key, written at c, no prompt is reported that begins before it. */
  ghost predicate OnlyNewPrompts(prompt: Matcher<byte>, c: CS.Console) {
    forall attempts: seq<Attempt> {:trigger Tries(prompt, c, attempts, MAX_ATTEMPTS)} ::
      attempts != [] && attempts[0].before == [] ==>
        var r := Tries(prompt, c, attempts, MAX_ATTEMPTS).result;
        r.Prompt? ==> WS.MatchStart(prompt, r.x) >= PW.Len(c)
  }

  /**
   The prompt reported is one that came after the first key, whatever happens, exactly when no position in the last
   256 bytes of scrollback at that key can begin a match of the prompt pattern.
   */
  lemma OnlyNewPromptsExactly(prompt: Matcher<byte>, c: CS.Console)
    requires Fresh(prompt, WAIT_MATCH_WIDTH) && prompt([]).None? && CS.Inv(c) && !c.closed
    ensures OnlyNewPrompts(prompt, c) <==> WS.Inert(prompt, CS.ReplayOf(c, PROMPT_SCROLLBACK))
  {
    var replay := CS.ReplayOf(c, PROMPT_SCROLLBACK);
    if WS.Inert(prompt, replay) {
      forall attempts: seq<Attempt> | attempts != [] && attempts[0].before == []
        ensures var r := Tries(prompt, c, attempts, MAX_ATTEMPTS).result;
                r.Prompt? ==> WS.MatchStart(prompt, r.x) >= PW.Len(c)
      {
        TriesFresh(prompt, c, c, attempts, MAX_ATTEMPTS);
      }
    } else {
      var j: nat, u: seq<byte> :| j < |replay| && prompt(replay[j..] + u).Some?;
      var turns := WS.StaleHappens(PW.Params(prompt, PROMPT_SCROLLBACK), c, j, u);
      var attempts := [Attempt([], true, turns, false)];
      FirstTry(prompt, c, turns);
      assert attempts[0].before == [];
    }
  }

  lemma FirstTry(prompt: Matcher<byte>, c: CS.Console, turns: seq<WL.Turn>)
    requires WS.Found(WaitOn(prompt, PROMPT_SCROLLBACK, c, turns))
    ensures var x := WaitOn(prompt, PROMPT_SCROLLBACK, c, turns);
            Tries(prompt, c, [Attempt([], true, turns, false)], MAX_ATTEMPTS) == Catch(Prompt(x), [PW.Len(c)], x.c)
  {
  }

  lemma ResetIsInert(prompt: Matcher<byte>, c: CS.Console)
    requires CS.Inv(c)
    ensures CS.Inv(CS.Reset(c)) && WS.Since(c, CS.Reset(c)) && PW.Len(CS.Reset(c)) == PW.Len(c)
    ensures WS.Inert(prompt, CS.ReplayOf(CS.Reset(c), PROMPT_SCROLLBACK))
  {
    WS.StepSince(c, CS.EvReset);
    assert CS.Reset(c).chunks[|c.chunks|..] == [];
    assert CS.ReplayOf(CS.Reset(c), PROMPT_SCROLLBACK) == [];
  }

  /**
   When the scrollback is cleared first, as the power controller has it done before it cuts the power, the prompt
   reported was printed after that.
   */
  lemma OnlyPromptsSinceReset(interrupt: Matcher<byte>, prompt: Matcher<byte>, c: CS.Console, b: BootReply)
    requires Fresh(prompt, WAIT_MATCH_WIDTH) && CS.Inv(c) && b.before != [] && b.before[0] == CS.EvReset
    ensures var r := CatchBoot(interrupt, prompt, c, b).result;
            r.Prompt? ==> WS.MatchStart(prompt, r.x) >= PW.Len(c)
  {
    var c0 := CS.Reset(c);
    var d := CS.Run(c0, b.before[1..]);
    var x := Invitation(interrupt, c, b);
    assert d == CS.Run(c, b.before);
    ResetIsInert(prompt, c);
    WS.RunSince(c0, b.before[1..]);
    WaitKeeps(interrupt, 0, d, b.turns);
    WS.SinceTransitive(c0, d, x.c);
    TriesFresh(prompt, c0, x.c, b.attempts, MAX_ATTEMPTS);
  }

  // ---- An instance -------------------------------------------------------------------------------

  /** A wait without scrollback, armed and subscribed: nothing queued yet. */
  lemma Listening(interrupt: Matcher<byte>, c: CS.Console) returns (x: PW.World)
    requires !c.closed
    ensures x == WL.TakeTurn(PW.Params(interrupt, 0),
                             WL.TakeTurn(PW.Params(interrupt, 0), PW.World(c, PW.START_WAITER), WS.IDLE), WS.IDLE)
    ensures x.c == CS.Subscribe(c, 0) && x.c.all[c.nextID] == CS.Sub([], |c.chunks|, CS.EMPTY_CHAN, false)
    ensures x.w.phase == PW.Draining(c.nextID) && x.w.scan == FRESH_SCAN && x.w.fed == [] && !x.w.cancelled
  {
    var p := PW.Params(interrupt, 0);
    x := WL.TakeTurn(p, WL.TakeTurn(p, PW.World(c, PW.START_WAITER), WS.IDLE), WS.IDLE);
  }

  lemma LineQueued(p: PW.Params, x: PW.World, id: nat, line: seq<byte>)
    requires id in x.c.all && id in x.c.subs && !x.c.all[id].closed && x.c.all[id].ch == CS.EMPTY_CHAN && x.c.qcap >= 1
    ensures var z := WL.Before(p, x, WS.Output(line));
            && z.w == x.w && z.c == CS.Publish(x.c, line) && id in z.c.all && z.c.all[id].ch.Queue() == [line]
  {
    WS.SettleOne(p, x, CS.EvPublish(line));
    assert CS.EMPTY_CHAN.Send(line) == CS.Chan([] + [line], 0, false);
  }

  /** The invitation arrives as the one line published while its wait is subscribed. */
  lemma InvitationSeen(interrupt: Matcher<byte>, c: CS.Console, line: seq<byte>) returns (turns: seq<WL.Turn>)
    requires Fresh(interrupt, WAIT_MATCH_WIDTH) && CS.Inv(c) && !c.closed && FindIndex(interrupt, line).Some?
    ensures var x := WaitOn(interrupt, 0, c, turns);
            && WS.Found(x) && !x.c.closed
            && x.c.chunks == c.chunks + [line] && x.c.base == c.base && x.c.cap == c.cap
  {
    var p := PW.Params(interrupt, 0);
    var x := Listening(interrupt, c);
    LineQueued(p, x, c.nextID, line);
    WS.FreshFeed(interrupt, line);
    WS.Reports(p, x, c.nextID, line, WS.Output(line));
    var rest := [WS.Output(line), WS.IDLE, WS.IDLE];
    turns := [WS.IDLE] + ([WS.IDLE] + rest);
    WS.AfterSubscribing(p, c, x, rest);
  }

  /**
   Whenever the last 256 bytes of scrollback still hold an old prompt when the invitation has been seen, the boot
   can be reported caught, at the first key, by a match that ends before that key was written.
   */
  lemma OldPromptCatches(interrupt: Matcher<byte>, prompt: Matcher<byte>, c: CS.Console, line: seq<byte>)
      returns (b: BootReply)
    requires Fresh(interrupt, WAIT_MATCH_WIDTH) && Fresh(prompt, WAIT_MATCH_WIDTH) && CS.Inv(c) && !c.closed
    requires FindIndex(interrupt, line).Some?
    requires var replay := CS.ReplayOf(CS.Publish(c, line), PROMPT_SCROLLBACK);
             replay != [] && FindIndex(prompt, replay).Some?
    ensures !b.cycled
    ensures var r := CatchBoot(interrupt, prompt, c, b);
            var replay := CS.ReplayOf(CS.Publish(c, line), PROMPT_SCROLLBACK);
            && r.keys == [PW.Len(c) + |line|] && r.result.Prompt?
            && WS.MatchEnd(prompt, r.result.x)
               == PW.Len(c) + |line| - |replay| + FindIndex(prompt, replay).value.1 <= r.keys[0]
            && PW.Len(r.console) == r.keys[0]
  {
    var turns := InvitationSeen(interrupt, c, line);
    var d := WaitOn(interrupt, 0, c, turns).c;
    WaitKeeps(interrupt, 0, c, turns);
    FlattenSnoc(c.chunks, line);
    assert CS.ReplayOf(d, PROMPT_SCROLLBACK) == CS.ReplayOf(CS.Publish(c, line), PROMPT_SCROLLBACK);
    var more := WS.OldMatchReported(PW.Params(prompt, PROMPT_SCROLLBACK), d);
    b := BootReply(false, [], turns, [Attempt([], true, more, false)]);
    FirstTry(prompt, d, more);
  }

  /** Matches "=>". */
  function PickArrow(t: seq<byte>): Option<nat> {
    if |t| >= 2 && t[0] == 61 && t[1] == 62 then Some(2) else None
  }

  /** Matches "Hit ctrl-x". */
  function PickHit(t: seq<byte>): Option<nat> {
    if |t| >= |HIT| && t[..|HIT|] == HIT then Some(|HIT|) else None
  }

  const HIT: seq<byte> := [72, 105, 116, 32, 99, 116, 114, 108, 45, 120]

  /** "=> reset", typed at the bootloader's prompt in an earlier session. */
  const RESET: seq<byte> := [61, 62, 32, 114, 101, 115, 101, 116, 13, 10]

  lemma ArrowIsFresh()
    ensures Fresh(PickArrow, WAIT_MATCH_WIDTH)
  {
    forall t: seq<byte>, u: seq<byte> | PickArrow(t).None? && PickArrow(t + u).Some?
      ensures |t| < 2
    {
      if |t| >= 2 {
        ArrowStays(t, u);
      }
    }
  }

  lemma ArrowStays(t: seq<byte>, u: seq<byte>)
    requires |t| >= 2
    ensures PickArrow(t + u) == PickArrow(t)
  {
    assert (t + u)[0] == t[0] && (t + u)[1] == t[1];
  }

  lemma HitIsFresh()
    ensures Fresh(PickHit, WAIT_MATCH_WIDTH)
  {
    forall t: seq<byte>, u: seq<byte> | PickHit(t).None? && PickHit(t + u).Some?
      ensures |t| < |HIT|
    {
      if |t| >= |HIT| {
        HitStays(t, u);
      }
    }
  }

  lemma HitStays(t: seq<byte>, u: seq<byte>)
    requires |t| >= |HIT|
    ensures PickHit(t + u) == PickHit(t)
  {
    assert (t + u)[..|HIT|] == t[..|HIT|];
  }

  lemma ResetThenHit(c: CS.Console)
    requires c.chunks == [RESET] && c.base == 0 && c.cap == 4096
    ensures CS.ReplayOf(CS.Publish(c, HIT), PROMPT_SCROLLBACK) == RESET + HIT
  {
    var d := CS.Publish(c, HIT);
    FlattenOne(RESET);
    FlattenSnoc([RESET], HIT);
    assert d.chunks == [RESET] + [HIT] && d.chunks[0..] == d.chunks;
  }

  lemma FirstArrow(s: seq<byte>)
    requires RESET <= s
    ensures FindIndex(PickArrow, s) == Some((0, 2))
  {
    assert s[0..] == s && s[0] == RESET[0] && s[1] == RESET[1];
  }

  /**
   Without a power cycle, and with "=>" for the prompt pattern, a console that printed "=> reset" and now prints the
   invitation: the boot is reported caught by the two bytes printed before it began. Nothing was received after the key.
   */
  lemma StalePrompt() returns (c: CS.Console, b: BootReply)
    ensures CS.Inv(c) && CS.Stream(c) == RESET
    ensures !b.cycled
    ensures var r := CatchBoot(PickHit, PickArrow, c, b);
            && r.result.Prompt? && r.keys == [|RESET| + |HIT|]
            && WS.MatchEnd(PickArrow, r.result.x) == 2 && PW.Len(r.console) == |RESET| + |HIT|
  {
    c := CS.Publish(CS.InitConsole(4096, 1024), RESET);
    CS.InitInv(4096, 1024);
    CS.PublishInv(CS.InitConsole(4096, 1024), RESET);
    FlattenOne(RESET);
    assert c.chunks == [RESET];
    ArrowIsFresh();
    HitIsFresh();
    ResetThenHit(c);
    FirstArrow(RESET + HIT);
    assert HIT[0..] == HIT;
    b := OldPromptCatches(PickHit, PickArrow, c, HIT);
  }
}
