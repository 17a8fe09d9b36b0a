/**
 Driving the bootloader over the console: waiting for output, catching autoboot, and the netboot script.

 The power supply and what others do to the console are arbitrary: they are parameters of each operation, and
 `log` records everything that was asked of the two, in order.
 */
module UBoot {
  import opened Bytes
  import opened Matching
  import opened Scanner
  import opened UBootDialogue
  import opened UBootExchange
  import opened UBootExpect
  import opened UBootScript
  import opened UBootText
  import AB = Autoboot
  import CS = ConsoleState
  import NL = NetbootLines
  import PW = PatternWait
  import WL = WaitLoop
  import WS = WaitScrollback

  // ---- Catching autoboot ---------------------------------------------------------------------------

  function Keys(n: nat): seq<Event> {
    seq(n, _ => Key)
  }

  /** How catching autoboot ends. */
  function Caught(r: AB.Catch): Result {
    match r.result
    case Blocked => Blocked
    case Failed(why) => Err(NotCaught(why))
    case Prompt(_) => Ok
  }

  /** What it asks for and sees: a key is written only after the autoboot line, the prompt comes last. */
  function CatchTrace(c: Config, console: CS.Console, b: AB.BootReply): seq<Event> {
    var r := AB.CatchBoot(c.interrupt, c.prompt, console, b);
    if !WS.Found(AB.Invitation(c.interrupt, console, b)) then []
    else [SawAutoboot] + KeysThen(|r.keys|, r.result.Prompt?)
  }

  function KeysThen(n: nat, prompt: bool): seq<Event> {
    if prompt then Keys(n) + [SawPrompt] else Keys(n)
  }

  lemma OneMoreKey(base: seq<Event>, n: nat)
    ensures base + Keys(n) + [Key] == base + Keys(n + 1)
  {
  }

  lemma ThenPrompt(base: seq<Event>, n: nat)
    ensures base + Keys(n) + [SawPrompt] == base + KeysThen(n, true)
  {
  }

  lemma Regroup(a: seq<Event>, b: seq<Event>, c: seq<Event>, d: seq<Event>)
    ensures a + b + c + d == a + (b + (c + d)) && a + [] + c + d == a + (c + d)
  {
  }

  /** The power cycle, when it is asked for. */
  predicate Powered(hasPower: bool, powerCycle: bool, b: AB.BootReply) {
    powerCycle ==> hasPower && b.cycled
  }

  function InterruptResult(c: Config, hasPower: bool, powerCycle: bool, console: CS.Console, b: AB.BootReply): Result {
    if powerCycle && !hasPower then Err(NotCaught(AB.NoPower))
    else if powerCycle && !b.cycled then Err(NotCaught(AB.PowerFailed))
    else Caught(AB.CatchBoot(c.interrupt, c.prompt, console, b))
  }

  function InterruptTrace(c: Config, hasPower: bool, powerCycle: bool, console: CS.Console, b: AB.BootReply): seq<Event>
  {
    if !Powered(hasPower, powerCycle, b) then []
    else if powerCycle then [Cycled] + CatchTrace(c, console, b)
    else CatchTrace(c, console, b)
  }

  function InterruptConsole(c: Config, hasPower: bool, powerCycle: bool, console: CS.Console, b: AB.BootReply)
    : CS.Console
  {
    if Powered(hasPower, powerCycle, b) then AB.CatchBoot(c.interrupt, c.prompt, console, b).console else console
  }

  /** Interrupting the boot without a power cycle succeeds on a prompt from before the boot began. */
  lemma CaughtByStalePrompt(c: Config, hasPower: bool) returns (console: CS.Console, b: AB.BootReply)
    requires c.interrupt == AB.PickHit && c.prompt == AB.PickArrow
    ensures CS.Inv(console) && CS.Stream(console) == AB.RESET
    ensures InterruptResult(c, hasPower, false, console, b) == Ok
    ensures InterruptTrace(c, hasPower, false, console, b) == [SawAutoboot, Key, SawPrompt]
    ensures PW.Len(InterruptConsole(c, hasPower, false, console, b)) == |AB.RESET| + |AB.HIT|
  {
    console, b := AB.StalePrompt();
    InvitedBeforeKeys(c, console, b);
  }

  lemma InvitedBeforeKeys(c: Config, console: CS.Console, b: AB.BootReply)
    requires AB.CatchBoot(c.interrupt, c.prompt, console, b).keys != []
    ensures WS.Found(AB.Invitation(c.interrupt, console, b))
  {
  }

  /** What comes before the script: nothing, or catching autoboot after a power cycle. */
  function Prelude(c: Config, hasPower: bool, p: Params, console: CS.Console, b: AB.BootReply): (Result, CS.Console) {
    if p.powerCycle
    then (InterruptResult(c, hasPower, true, console, b), InterruptConsole(c, hasPower, true, console, b))
    else (Ok, console)
  }

  function PreludeTrace(c: Config, hasPower: bool, p: Params, console: CS.Console, b: AB.BootReply): seq<Event> {
    if p.powerCycle then InterruptTrace(c, hasPower, true, console, b) else []
  }

  /** What remains of a catch after n keys. */
  ghost predicate Continues(all: AB.Catch, rest: AB.Catch, n: nat) {
    all.result == rest.result && all.console == rest.console && |all.keys| == n + |rest.keys|
  }

  /** What is left of a catch, before and after its next key. */
  lemma TriesOn(prompt: Matcher<byte>, c: CS.Console, attempts: seq<AB.Attempt>, n: nat, all: AB.Catch)
    requires n < |attempts| && n < AB.MAX_ATTEMPTS
    requires Continues(all, AB.Tries(prompt, c, attempts[n..], AB.MAX_ATTEMPTS - n), n)
    ensures var a := attempts[n];
            var d := CS.Run(c, a.before);
            var x := AB.WaitOn(prompt, AB.PROMPT_SCROLLBACK, d, a.turns);
            if !a.written then
              all.result == AB.Failed(AB.KeyNotWritten) && all.console == d && |all.keys| == n
            else if !x.w.phase.Finished? || WS.Found(x) || a.expired then
              && all.result == (if !x.w.phase.Finished? then AB.Caught.Blocked else if WS.Found(x) then AB.Prompt(x)
                                else AB.Failed(AB.CtxDone))
              && all.console == x.c && |all.keys| == n + 1
            else
              Continues(all, AB.Tries(prompt, x.c, attempts[n + 1..], AB.MAX_ATTEMPTS - (n + 1)), n + 1)
  {
    assert attempts[n..][0] == attempts[n] && attempts[n..][1..] == attempts[n + 1..];
  }

  lemma NoMoreTries(prompt: Matcher<byte>, c: CS.Console, left: nat)
    requires left > 0
    ensures AB.Tries(prompt, c, [], left) == AB.Catch(AB.Caught.Blocked, [], c)
  {
  }

  // ---- Running the script ----------------------------------------------------------------------------

  /** What remains of a wait, having accumulated acc. */
  ghost predicate Goes(pick: Matcher<byte>, all: Hearing, acc: seq<byte>, rest: Hearing) {
    && all.console == rest.console && all.ending == rest.ending
    && Expect(pick, [], all.chunks) == Expect(pick, acc, rest.chunks)
  }

  /** What a wait finds ready in its next turn. */
  function ReadyIn(c: CS.Console, id: nat, cancelled: bool, t: WL.Turn): PW.Ready {
    PW.Select(ChanOf(Settle(c, id, t.others), id), cancelled || t.cancel, t.preferCtx)
  }

  /** A turn in which it takes no chunk. */
  lemma QuietTurn(pick: Matcher<byte>, c: CS.Console, id: nat, cancelled: bool, acc: seq<byte>, turns: seq<WL.Turn>,
                  i: nat)
    requires i < |turns|
    ensures var d := Settle(c, id, turns[i].others);
            var now := Listen(pick, c, id, cancelled, acc, turns[i..]);
            match ReadyIn(c, id, cancelled, turns[i])
            case ByCtx => now == Hearing(d, [], CtxDone)
            case ByEnd => now == Hearing(d, [], ConsoleClosed)
            case Nothing => now == Listen(pick, d, id, cancelled || turns[i].cancel, acc, turns[i + 1..])
            case ByChunk(_) => true
  {
    assert turns[i..][0] == turns[i] && turns[i..][1..] == turns[i + 1..];
  }

  /** A turn in which it takes one. */
  lemma ChunkTurn(pick: Matcher<byte>, c: CS.Console, id: nat, cancelled: bool, acc: seq<byte>, turns: seq<WL.Turn>,
                  i: nat, chunk: seq<byte>)
    requires i < |turns| && ReadyIn(c, id, cancelled, turns[i]) == PW.ByChunk(chunk)
    ensures var e := CS.Receive(Settle(c, id, turns[i].others), id);
            var now := Listen(pick, c, id, cancelled, acc, turns[i..]);
            if FindIndex(pick, acc + chunk).Some? then
              now == Hearing(e, [chunk], NotCut) && Expect(pick, acc, now.chunks) == (acc + chunk, true)
            else
              var t := Trim(acc + chunk);
              var later := Listen(pick, e, id, cancelled || turns[i].cancel, t, turns[i + 1..]);
              && now.console == later.console && now.ending == later.ending
              && Expect(pick, acc, now.chunks) == Expect(pick, t, later.chunks)
  {
    assert turns[i..][0] == turns[i] && turns[i..][1..] == turns[i + 1..];
    var e := CS.Receive(Settle(c, id, turns[i].others), id);
    if FindIndex(pick, acc + chunk).Some? {
      ExpectCons(pick, acc, chunk, []);
      assert [chunk] + [] == [chunk];
    } else {
      var later := Listen(pick, e, id, cancelled || turns[i].cancel, Trim(acc + chunk), turns[i + 1..]);
      ExpectCons(pick, acc, chunk, later.chunks);
    }
  }

  lemma TrimIs(acc: seq<byte>)
    ensures Trim(acc) == if |acc| > MAX_PATTERN_WINDOW then acc[|acc| - MAX_PATTERN_WINDOW / 2..] else acc
  {
  }

  lemma ExpectCons(pick: Matcher<byte>, acc: seq<byte>, chunk: seq<byte>, rest: seq<seq<byte>>)
    ensures Expect(pick, acc, [chunk] + rest)
            == if FindIndex(pick, acc + chunk).Some? then (acc + chunk, true) else Expect(pick, Trim(acc + chunk), rest)
  {
    assert ([chunk] + rest)[1..] == rest;
  }

  /** How many lines are tried: every one that passes, and the first that does not. */
  function Tried(v: seq<bool>): (n: nat)
    ensures n <= |v|
  {
    if Reach(v) < |v| then Reach(v) + 1 else |v|
  }

  /** The course of a dialogue: the consoles between its lines, the answers, and which lines pass. */
  datatype Course = Course(script: seq<Step>, consoles: seq<CS.Console>, replies: nat -> Reply, passed: seq<bool>)

  /** Line i of the course, with this going on around it. */
  ghost predicate LineOf(k: Course, i: nat, t: Talk)
    requires i < |k.script| == |k.passed| && |k.consoles| == |k.script| + 1
  {
    var s := k.script[i];
    && (k.consoles[i + 1], k.replies(i)) == Hear(s.until, k.consoles[i], t)
    && k.passed[i] == Passed(s, k.replies(i))
  }

  ghost predicate Runs(k: Course, talks: nat -> Talk) {
    && |k.script| == |k.passed| && |k.consoles| == |k.script| + 1
    && forall i {:trigger LineOf(k, i, talks(i))} :: 0 <= i < |k.script| ==> LineOf(k, i, talks(i))
  }

  ghost predicate ConsolesOf(d: Dialogue, cs: seq<CS.Console>) {
    |cs| == |d.script| + 1 && forall i :: 0 <= i <= |d.script| ==> cs[i] == d.At(i)
  }

  lemma LineIs(d: Dialogue, k: Course, i: nat)
    requires i < |d.script| && ConsolesOf(d, k.consoles)
    requires k.script == d.script && k.replies == d.Replies() && k.passed == Verdicts(d.script, d.Replies())
    ensures LineOf(k, i, d.talks(i))
  {
    assert d.Replies()(i) == d.ReplyTo(i);
  }

  lemma ConsolesExist(d: Dialogue) returns (cs: seq<CS.Console>)
    ensures ConsolesOf(d, cs)
  {
    cs := seq(|d.script| + 1, i requires 0 <= i <= |d.script| => d.At(i));
  }

  /** The course that a dialogue takes. */
  lemma TheCourse(d: Dialogue) returns (k: Course)
    ensures Runs(k, d.talks) && ConsolesOf(d, k.consoles)
    ensures k.script == d.script && k.replies == d.Replies() && k.passed == Verdicts(d.script, d.Replies())
  {
    var cs := ConsolesExist(d);
    k := Course(d.script, cs, d.Replies(), Verdicts(d.script, d.Replies()));
    forall i | 0 <= i < |d.script|
      ensures LineOf(k, i, d.talks(i))
    {
      LineIs(d, k, i);
    }
  }

  /** The first i lines have been written and have passed, and the console is where they have left it. */
  ghost predicate Ahead(k: Course, i: nat, console: CS.Console, base: seq<Event>, log: seq<Event>) {
    && i < |k.consoles| && i <= |k.script| && Upto(k.passed, i)
    && console == k.consoles[i] && log == base + Lines(k.script, i)
  }

  /** One of the first n lines has not passed, and was the last to be tried. */
  ghost predicate Halted(k: Course, n: nat, console: CS.Console, base: seq<Event>, log: seq<Event>) {
    n <= |k.script| == |k.passed| && Reach(k.passed) < n && Ended(k, console, base, log)
  }

  /** The lines up to the last that is tried have been written, and the console is as that has left it. */
  ghost predicate Ended(k: Course, console: CS.Console, base: seq<Event>, log: seq<Event>) {
    && |k.script| == |k.passed| && |k.consoles| == |k.script| + 1
    && console == k.consoles[Tried(k.passed)] && log == base + Lines(k.script, SentCount(k.passed, k.replies))
  }

  lemma NextVerdict(v: seq<bool>, i: nat, replies: nat -> Reply)
    requires i < |v| && Upto(v, i)
    ensures v[i] ==> Upto(v, i + 1)
    ensures !v[i] ==>
              Reach(v) == i && Tried(v) == i + 1 && SentCount(v, replies) == if replies(i).Heard? then i + 1 else i
  {
    if !v[i] {
      ReachIs(v, i);
    }
  }

  /** The boot line is the last to be tried, whatever becomes of it. */
  lemma BootVerdict(v: seq<bool>, i: nat, replies: nat -> Reply, s: Step)
    requires |v| == i + 1 && Upto(v, i) && s.markers == [] && v[i] == Passed(s, replies(i))
    ensures Tried(v) == i + 1
    ensures Waited(s.until, replies(i)).Ok? <==> Reach(v) == |v|
    ensures SentCount(v, replies) == if replies(i).Heard? then i + 1 else i
  {
    BootPasses(s, replies(i));
    LastVerdict(v, i, replies, Waited(s.until, replies(i)).Ok?);
  }

  lemma PassedIs(s: Step, reply: Reply, acc: seq<byte>)
    requires reply.Heard? ==> acc == Expect(s.until, [], reply.chunks).0
    ensures Passed(s, reply) <==> Waited(s.until, reply).Ok? && Unmarked(s, acc)
  {
  }

  /** The first of the error markers that the output mentions. */
  method FirstMentioned(out: string, markers: seq<string>) returns (m: Option<string>)
    ensures m.None? <==> Silent(out, markers)
    ensures m.Some? ==> exists i :: 0 <= i < |markers| && m.value == markers[i] && Mentions(out, markers[i])
                                    && Silent(out, markers[..i])
  {
    for i := 0 to |markers|
      invariant Silent(out, markers[..i])
    {
      if Mentions(out, markers[i]) {
        return Some(markers[i]);
      }
    }
    assert markers[..|markers|] == markers;
    return None;
  }

  // ---- The orchestrator ------------------------------------------------------------------------------

  class Orchestrator {
    const cfg: Config
    const hasPower: bool
    var console: CS.Console  // what the pattern waits watch, as others leave it
    ghost var log: seq<Event>

    constructor (cfg: Config, hasPower: bool, console: CS.Console)
      ensures this.cfg == cfg && this.hasPower == hasPower && this.console == console && log == []
    {
      this.cfg, this.hasPower, this.console, log := cfg, hasPower, console, [];
    }

    /** The console goes on while nobody here watches it. */
    method Meanwhile(es: seq<CS.Event>)
      modifies `console
      ensures console == CS.Run(old(console), es)
    {
      for i := 0 to |es|
        invariant CS.Run(console, es[i..]) == CS.Run(old(console), es)
      {
        assert es[i..][1..] == es[i + 1..];
        console := CS.Step(console, es[i]);
      }
    }

    /** One pattern wait on the console; None while it has not returned. */
    method WaitOn(pick: Matcher<byte>, scroll: int, turns: seq<WL.Turn>) returns (r: Option<PW.Outcome>)
      modifies `console
      ensures var x := AB.WaitOn(pick, scroll, old(console), turns);
              console == x.c && r == if x.w.phase.Finished? then Some(x.w.phase.outcome) else None
    {
      var wait := new WL.Wait(PW.Params(pick, scroll), console, turns);
      var context;
      r, context := wait.WaitForPattern();
      console := wait.console;
    }

    /** One interrupt key and the wait for the prompt after it; None to try again. */
    method SendKey(a: AB.Attempt) returns (r: Option<Result>)
      modifies `console, `log
      ensures !a.written ==>
                && r == Some(Err(NotCaught(AB.KeyNotWritten)))
                && console == CS.Run(old(console), a.before) && log == old(log)
      ensures a.written ==>
                var x := AB.WaitOn(cfg.prompt, AB.PROMPT_SCROLLBACK, CS.Run(old(console), a.before), a.turns);
                && console == x.c
                && log == (if WS.Found(x) then old(log) + [Key] + [SawPrompt] else old(log) + [Key])
                && r == if !x.w.phase.Finished? then Some(Blocked) else if WS.Found(x) then Some(Ok)
                        else if a.expired then Some(Err(NotCaught(AB.CtxDone))) else None
    {
      Meanwhile(a.before);
      if !a.written {
        return Some(Err(NotCaught(AB.KeyNotWritten)));
      }
      log := log + [Key];
      var outcome := WaitOn(cfg.prompt, AB.PROMPT_SCROLLBACK, a.turns);
      if outcome.None? {
        return Some(Blocked);
      }
      if outcome.value.Matched? {
        log := log + [SawPrompt];
        return Some(Ok);
      }
      return if a.expired then Some(Err(NotCaught(AB.CtxDone))) else None;
    }

    /** Attempt n of a catch that will come out as `all`. */
    method NextKey(attempts: seq<AB.Attempt>, n: nat, ghost all: AB.Catch, ghost base: seq<Event>)
      returns (r: Option<Result>)
      requires n < |attempts| && n < AB.MAX_ATTEMPTS && log == base + Keys(n)
      requires Continues(all, AB.Tries(cfg.prompt, console, attempts[n..], AB.MAX_ATTEMPTS - n), n)
      modifies `console, `log
      ensures r.None? ==> log == base + Keys(n + 1)
      ensures r.None? ==>
                Continues(all, AB.Tries(cfg.prompt, console, attempts[n + 1..], AB.MAX_ATTEMPTS - (n + 1)), n + 1)
      ensures r.Some? ==>
                && r.value == Caught(all) && console == all.console
                && log == base + KeysThen(|all.keys|, all.result.Prompt?)
    {
      TriesOn(cfg.prompt, console, attempts, n, all);
      r := SendKey(attempts[n]);
      OneMoreKey(base, n);
      ThenPrompt(base, n + 1);
    }

    /** Writes the interrupt key until the prompt is seen, at most eight times. */
    method SendKeys(attempts: seq<AB.Attempt>) returns (r: Result)
      modifies `console, `log
      ensures var t := AB.Tries(cfg.prompt, old(console), attempts, AB.MAX_ATTEMPTS);
              && r == Caught(t) && console == t.console
              && log == old(log) + KeysThen(|t.keys|, t.result.Prompt?)
    {
      ghost var all := AB.Tries(cfg.prompt, console, attempts, AB.MAX_ATTEMPTS);
      assert attempts[0..] == attempts && log == log + Keys(0);
      var attempt := 0;
      while attempt < AB.MAX_ATTEMPTS
        invariant attempt <= AB.MAX_ATTEMPTS && attempt <= |attempts|
        invariant Continues(all, AB.Tries(cfg.prompt, console, attempts[attempt..], AB.MAX_ATTEMPTS - attempt), attempt)
        invariant log == old(log) + Keys(attempt)
      {
        if attempt == |attempts| {
          NoMoreTries(cfg.prompt, console, AB.MAX_ATTEMPTS - attempt);
          return Blocked;
        }
        var done := NextKey(attempts, attempt, all, old(log));
        if done.Some? {
          return done.value;
        }
        attempt := attempt + 1;
      }
      return Err(NotCaught(AB.NoPrompt));
    }

    /** Waits for the autoboot line and stops autoboot. */
    method CatchBoot(b: AB.BootReply) returns (r: Result)
      modifies `console, `log
      ensures var t := AB.CatchBoot(cfg.interrupt, cfg.prompt, old(console), b);
              r == Caught(t) && console == t.console
      ensures log == old(log) + CatchTrace(cfg, old(console), b)
    {
      Meanwhile(b.before);
      var outcome := WaitOn(cfg.interrupt, 0, b.turns);
      if outcome.None? {
        return Blocked;
      }
      if !outcome.value.Matched? {
        return Err(NotCaught(AB.NoAutoboot));
      }
      ghost var seen := console;
      log := log + [SawAutoboot];
      r := SendKeys(b.attempts);
      ghost var t := AB.Tries(cfg.prompt, seen, b.attempts, AB.MAX_ATTEMPTS);
      Regroup(old(log), [], [SawAutoboot], KeysThen(|t.keys|, t.result.Prompt?));
    }

    /** Power-cycles the target if asked, waits for the autoboot line and stops autoboot. */
    method InterruptBoot(powerCycle: bool, b: AB.BootReply) returns (r: Result)
      modifies `console, `log
      ensures r == InterruptResult(cfg, hasPower, powerCycle, old(console), b)
      ensures log == old(log) + InterruptTrace(cfg, hasPower, powerCycle, old(console), b)
      ensures console == InterruptConsole(cfg, hasPower, powerCycle, old(console), b)
      ensures powerCycle && (!hasPower || !b.cycled) ==>
                && r == Err(NotCaught(if hasPower then AB.PowerFailed else AB.NoPower))
                && log == old(log) && console == old(console)
      ensures powerCycle && hasPower && b.cycled ==> old(log) + [Cycled] <= log
    {
      if powerCycle {
        if !hasPower {
          return Err(NotCaught(AB.NoPower));
        }
        if !b.cycled {
          return Err(NotCaught(AB.PowerFailed));
        }
        log := log + [Cycled];
      }
      ghost var trace := CatchTrace(cfg, console, b);
      r := CatchBoot(b);
      assert old(log) + [Cycled] + trace == old(log) + ([Cycled] + trace);
    }

    // ---- Commands ------------------------------------------------------------------------------------

    /** Others use the console, but not this subscription. */
    method OthersUse(id: nat, es: seq<CS.Event>)
      modifies `console
      ensures console == Settle(old(console), id, es)
    {
      for i := 0 to |es|
        invariant Settle(console, id, es[i..]) == Settle(old(console), id, es)
      {
        assert es[i..][1..] == es[i + 1..];
        if Foreign(id, es[i]) {
          console := CS.Step(console, es[i]);
        }
      }
    }

    /** The select loop of send-and-expect: takes chunks until the first match or until it is cut short. */
    method Await(id: nat, pick: Matcher<byte>, turns: seq<WL.Turn>) returns (acc: seq<byte>, ok: bool, ending: Ending)
      modifies `console
      ensures var h := Listen(pick, old(console), id, false, [], turns);
              console == h.console && ending == h.ending && (acc, ok) == Expect(pick, [], h.chunks)
    {
      ghost var all := Listen(pick, console, id, false, [], turns);
      var cancelled := false;
      acc := [];
      for i := 0 to |turns|
        invariant Goes(pick, all, acc, Listen(pick, console, id, cancelled, acc, turns[i..]))
      {
        ghost var c, was := console, cancelled;
        QuietTurn(pick, c, id, was, acc, turns, i);
        OthersUse(id, turns[i].others);
        cancelled := cancelled || turns[i].cancel;
        match PW.Select(ChanOf(console, id), cancelled, turns[i].preferCtx)
        case ByCtx => return acc, false, CtxDone;
        case ByEnd => return acc, false, ConsoleClosed;
        case Nothing =>
        case ByChunk(chunk) =>
          ChunkTurn(pick, c, id, was, acc, turns, i, chunk);
          console := CS.Receive(console, id);
          acc := acc + chunk;
          if FindIndex(pick, acc).Some? {
            return acc, true, NotCut;
          }
          TrimIs(acc);
          if |acc| > MAX_PATTERN_WINDOW {
            acc := acc[|acc| - MAX_PATTERN_WINDOW / 2..];
          }
      }
      return acc, false, NotCut;
    }

    /** Subscribes, writes the text, waits, and closes the subscription. */
    method SendAndExpect(text: string, pick: Matcher<byte>, t: Talk) returns (acc: seq<byte>, r: Result)
      modifies `console, `log
      ensures console == Hear(pick, old(console), t).0 && r == Waited(pick, Hear(pick, old(console), t).1)
      ensures log == old(log) + if t.written then [Sent(text)] else []
      ensures acc == if t.written then Expect(pick, [], Hear(pick, old(console), t).1.chunks).0 else []
    {
      Meanwhile(t.before);
      var id := console.nextID;
      console := CS.Subscribe(console, 0);
      OthersUse(id, t.pause);
      if !t.written {
        console := CS.Unsubscribe(console, id);
        return [], Err(WriteFailed);
      }
      log := log + [Sent(text)];
      var ok, ending;
      acc, ok, ending := Await(id, pick, t.turns);
      r := if ok then Ok else match ending
                              case CtxDone => Err(Ctx)
                              case ConsoleClosed => Err(Closed)
                              case NotCut => Blocked;
      if r.Blocked? {
        return;
      }
      OthersUse(id, t.after);
      console := CS.Unsubscribe(console, id);
    }

    method RunCommand(command: string, t: Talk) returns (ghost acc: seq<byte>, out: string, r: Result)
      modifies `console, `log
      ensures console == Hear(cfg.prompt, old(console), t).0
      ensures r == Waited(cfg.prompt, Hear(cfg.prompt, old(console), t).1)
      ensures log == old(log) + if t.written then [Sent(command + "\r")] else []
      ensures acc == if t.written then Expect(cfg.prompt, [], Hear(cfg.prompt, old(console), t).1.chunks).0 else []
      ensures out == Clean(Text(acc), command)
    {
      var raw;
      raw, r := SendAndExpect(command + "\r", cfg.prompt, t);
      acc := raw;
      out := CleanCommandOutput(Text(raw), command);
    }

    method RunChecked(s: Step, t: Talk) returns (r: Result)
      requires s.until == cfg.prompt
      modifies `console, `log
      ensures console == Hear(cfg.prompt, old(console), t).0
      ensures log == old(log) + if t.written then [Sent(s.text + "\r")] else []
      ensures r.Ok? <==> Passed(s, Hear(cfg.prompt, old(console), t).1)
      ensures var waited := Waited(cfg.prompt, Hear(cfg.prompt, old(console), t).1);
              if waited.Ok? then r.Ok? || (r.Err? && r.error.Reported? && r.error.marker in s.markers) else r == waited
    {
      ghost var acc, reply := [], Hear(cfg.prompt, console, t).1;
      var out;
      acc, out, r := RunCommand(s.text, t);
      PassedIs(s, reply, acc);
      if !r.Ok? {
        return;
      }
      r := Judge(s, out, acc);
    }

    /** Fails if the output of a command mentions one of its error markers. */
    method Judge(s: Step, out: string, ghost acc: seq<byte>) returns (r: Result)
      requires out == Clean(Text(acc), s.text)
      ensures r.Ok? <==> Unmarked(s, acc)
      ensures r.Ok? || (r.Err? && r.error.Reported? && r.error.marker in s.markers)
    {
      var marker := FirstMentioned(out, s.markers);
      r := if marker.Some? then Err(Error.Reported(marker.value)) else Ok;
    }

    // ---- The script ------------------------------------------------------------------------------------

    /** Command i of a script, the earlier ones having passed. */
    method Advance(s: Step, i: nat, talks: nat -> Talk, ghost base: seq<Event>, ghost k: Course) returns (r: Result)
      requires Runs(k, talks) && i < |k.script| && k.script[i] == s && s.until == cfg.prompt
      requires Ahead(k, i, console, base, log)
      modifies `console, `log
      ensures r.Ok? ==> Ahead(k, i + 1, console, base, log)
      ensures !r.Ok? ==> Halted(k, i + 1, console, base, log)
    {
      OneMoreLine(k.script, i);
      assert LineOf(k, i, talks(i));
      r := RunChecked(s, talks(i));
      NextVerdict(k.passed, i, k.replies);
    }

    /** The commands that fetch the image, the first five of the script. */
    method Fetch(fetch: seq<Step>, talks: nat -> Talk, ghost base: seq<Event>, ghost k: Course) returns (r: Result)
      requires Runs(k, talks) && Ahead(k, 0, console, base, log)
      requires |fetch| == 5 <= |k.script|
      requires forall i :: 0 <= i < 5 ==> k.script[i] == fetch[i] && fetch[i].until == cfg.prompt
      modifies `console, `log
      ensures r.Ok? ==> Ahead(k, 5, console, base, log)
      ensures !r.Ok? ==> Halted(k, 5, console, base, log)
    {
      r := Advance(fetch[0], 0, talks, base, k);
      if !r.Ok? {
        return;
      }
      r := Advance(fetch[1], 1, talks, base, k);
      if !r.Ok? {
        return;
      }
      r := Advance(fetch[2], 2, talks, base, k);
      if !r.Ok? {
        return;
      }
      r := Advance(fetch[3], 3, talks, base, k);
      if !r.Ok? {
        return;
      }
      r := Advance(fetch[4], 4, talks, base, k);
    }

    /** The commands of the netboot flow, each sent once the one before has passed. */
    method RunScript(fetch: seq<Step>, check: Option<Step>, boot: Step, talks: nat -> Talk, ghost k: Course)
      returns (r: Result)
      requires Runs(k, talks) && k.script == Assemble(fetch, check, boot) && Ahead(k, 0, console, log, log)
      requires |fetch| == 5
      requires forall i :: 0 <= i < 5 ==> fetch[i].until == cfg.prompt
      requires check.Some? ==> check.value.until == cfg.prompt
      requires boot.markers == []
      modifies `console, `log
      ensures Ended(k, console, old(log), log) && (r.Ok? <==> Reach(k.passed) == |k.script|)
    {
      ghost var base := log;
      assert forall i :: 0 <= i < 5 ==> k.script[i] == fetch[i];
      r := Fetch(fetch, talks, base, k);
      if !r.Ok? {
        return;
      }
      var sent := 5;
      if check.Some? {
        r := Advance(check.value, 5, talks, base, k);
        if !r.Ok? {
          return;
        }
        sent := 6;
      }
      r := Boot(boot, sent, talks, base, k);
    }

    /** The boot line: terminal, so the prompt is not awaited. */
    method Boot(s: Step, i: nat, talks: nat -> Talk, ghost base: seq<Event>, ghost k: Course) returns (r: Result)
      requires Runs(k, talks) && |k.script| == i + 1 && k.script[i] == s && s.markers == []
      requires Ahead(k, i, console, base, log)
      modifies `console, `log
      ensures Ended(k, console, base, log) && (r.Ok? <==> Reach(k.passed) == |k.script|)
    {
      OneMoreLine(k.script, i);
      assert LineOf(k, i, talks(i));
      var acc;
      acc, r := SendAndExpect(s.text + "\r", s.until, talks(i));
      BootVerdict(k.passed, i, k.replies, s);
    }

    /** Catches autoboot first, if a power cycle is asked for. */
    method Prepare(p: Params, b: AB.BootReply) returns (r: Result)
      modifies `console, `log
      ensures (r, console) == Prelude(cfg, hasPower, p, old(console), b)
      ensures log == old(log) + PreludeTrace(cfg, hasPower, p, old(console), b)
      ensures !p.powerCycle ==> r == Ok && log == old(log) && console == old(console)
      ensures p.powerCycle && (!hasPower || !b.cycled) ==>
                r == Err(NotCaught(if hasPower then AB.PowerFailed else AB.NoPower)) && log == old(log)
      ensures p.powerCycle && hasPower && b.cycled ==> old(log) + [Cycled] <= log
    {
      r := Ok;
      if p.powerCycle {
        r := InterruptBoot(true, b);
      }
    }

    /** The script on the console as it is. */
    method FetchAndBoot(p: Params, talks: nat -> Talk) returns (r: Result)
      modifies `console, `log
      ensures var d := Dialogue(Script(cfg, p), old(console), talks);
              var v := Verdicts(d.script, d.Replies());
              && log == old(log) + Lines(d.script, SentCount(v, d.Replies())) && console == d.At(Tried(v))
              && (r.Ok? <==> Reach(v) == |v|)
    {
      ghost var k := TheCourse(Dialogue(Script(cfg, p), console, talks));
      assert log + Lines(k.script, 0) == log;
      r := RunScript(FetchSteps(cfg, p), if p.verify then Some(CrcStep(cfg, p)) else None, BootStep(cfg, p), talks, k);
    }

    /** The netboot flow, for whatever the console prints before and around each of its commands; `sent` is what it
        writes after autoboot. */
    method Netboot(p: Params, b: AB.BootReply, talks: nat -> Talk) returns (r: Result, ghost sent: seq<Event>)
      modifies `console, `log
      ensures p.image == "" ==> r == Err(NoImage) && log == old(log) && console == old(console)
      ensures p.image != "" && p.serverIP == "" && cfg.serverIP == "" ==>
                r == Err(NoServerIP) && log == old(log) && console == old(console)
      ensures p.image != "" && (p.serverIP != "" || cfg.serverIP != "") ==>
                var (caught, start) := Prelude(cfg, hasPower, p, old(console), b);
                var d := Dialogue(Script(cfg, p), start, talks);
                var v := Verdicts(d.script, d.Replies());
                && sent == (if caught.Ok? then Lines(d.script, SentCount(v, d.Replies())) else [])
                && console == (if caught.Ok? then d.At(Tried(v)) else start)
                && (!caught.Ok? ==> r == caught)
                && (r.Ok? <==> caught.Ok? && Reach(v) == |v|)
                && (caught.Ok? ==> NL.FollowsFlow(cfg, p, start, talks, sent, r.Ok?))
      ensures p.image != "" && (p.serverIP != "" || cfg.serverIP != "") ==>
                log == old(log) + PreludeTrace(cfg, hasPower, p, old(console), b) + sent
    {
      sent := [];
      if p.image == "" {
        return Err(NoImage), sent;
      }
      if ServerIP(cfg, p) == "" {
        return Err(NoServerIP), sent;
      }
      r := Prepare(p, b);
      if !r.Ok? {
        return;
      }
      ghost var start := console;
      NL.ScriptFollowsFlow(cfg, p, start, talks);
      r := FetchAndBoot(p, talks);
      ghost var d := Dialogue(Script(cfg, p), start, talks);
      sent := Lines(d.script, SentCount(Verdicts(d.script, d.Replies()), d.Replies()));
    }
  }

  /** Without a power cycle nothing precedes the script; one that cannot be made ends it; otherwise it comes first. */
  lemma PreludeExactly(c: Config, hasPower: bool, p: Params, console: CS.Console, b: AB.BootReply)
    ensures var (caught, start) := Prelude(c, hasPower, p, console, b);
            var trace := PreludeTrace(c, hasPower, p, console, b);
            if !p.powerCycle then caught == Ok && start == console && trace == []
            else if !hasPower || !b.cycled then
              && caught == Err(NotCaught(if hasPower then AB.PowerFailed else AB.NoPower))
              && start == console && trace == []
            else [Cycled] <= trace
  {
  }
}
