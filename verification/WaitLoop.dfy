/**
 The pattern wait as the two loops that run it, against a console that others use in the meantime.

 A turn is what others do before one of the waiter's own critical sections or receives. Play gives the
 course of the wait over a list of turns as steps of the state machine of PatternWait; the loops are shown
 to follow it turn by turn.
 */
module WaitLoop {
  import opened Bytes
  import opened Matching
  import opened Scanner
  import CS = ConsoleState
  import PW = PatternWait

  /** What happens before one action: others' events, whether the context fires, what select prefers. */
  datatype Turn = Turn(others: seq<CS.Event>, cancel: bool, preferCtx: bool)

  /** Others' events, those that would meddle with the waiter's subscription left out. */
  function Settle(p: PW.Params, x: PW.World, es: seq<CS.Event>): PW.World {
    if es == [] then x
    else PW.Go(p, Settle(p, x, es[..|es| - 1]), PW.Env(es[|es| - 1]))
  }

  /** The world in which the waiter next acts. */
  function Before(p: PW.Params, x: PW.World, t: Turn): PW.World {
    var y := Settle(p, x, t.others);
    if t.cancel then PW.Go(p, y, PW.Cancel) else y
  }

  function TakeTurn(p: PW.Params, x: PW.World, t: Turn): PW.World {
    PW.Act(p, Before(p, x, t), t.preferCtx)
  }

  /** The wait over these turns, until it has finished: where it ends and the turns not needed. */
  function Play(p: PW.Params, x: PW.World, turns: seq<Turn>): (PW.World, seq<Turn>)
    decreases |turns|
  {
    if x.w.phase.Finished? || turns == [] then (x, turns) else Play(p, TakeTurn(p, x, turns[0]), turns[1..])
  }

  // ---- Play is a run of the state machine ---------------------------------------------------

  function Envs(es: seq<CS.Event>): seq<PW.Move> {
    seq(|es|, i requires 0 <= i < |es| => PW.Env(es[i]))
  }

  function MovesOf(t: Turn): seq<PW.Move> {
    Envs(t.others) + (if t.cancel then [PW.Cancel] else []) + [PW.Advance(t.preferCtx)]
  }

  lemma {:induction false} SettleIsRun(p: PW.Params, x: PW.World, es: seq<CS.Event>)
    ensures Settle(p, x, es) == PW.Run(p, x, Envs(es))
    decreases |es|
  {
    if es != [] {
      var n := |es| - 1;
      SettleIsRun(p, x, es[..n]);
      PW.RunThen(p, x, Envs(es[..n]), PW.Env(es[n]));
      assert Envs(es) == Envs(es[..n]) + [PW.Env(es[n])];
    }
  }

  lemma TurnIsRun(p: PW.Params, x: PW.World, t: Turn)
    ensures TakeTurn(p, x, t) == PW.Run(p, x, MovesOf(t))
  {
    var ms, act := Envs(t.others), PW.Advance(t.preferCtx);
    SettleIsRun(p, x, t.others);
    if t.cancel {
      PW.RunThen(p, x, ms, PW.Cancel);
      PW.RunThen(p, x, ms + [PW.Cancel], act);
      assert MovesOf(t) == ms + [PW.Cancel] + [act];
    } else {
      PW.RunThen(p, x, ms, act);
      assert MovesOf(t) == ms + [act];
    }
  }

  lemma {:induction false} RunAppend(p: PW.Params, x: PW.World, xs: seq<PW.Move>, ys: seq<PW.Move>)
    ensures PW.Run(p, x, xs + ys) == PW.Run(p, PW.Run(p, x, xs), ys)
    decreases xs
  {
    if xs == [] {
      assert xs + ys == ys;
    } else {
      assert (xs + ys)[1..] == xs[1..] + ys;
      RunAppend(p, PW.Go(p, x, xs[0]), xs[1..], ys);
    }
  }

  /** The moves of the turns in order. */
  function AllMoves(turns: seq<Turn>): seq<PW.Move> {
    if turns == [] then [] else MovesOf(turns[0]) + AllMoves(turns[1..])
  }

  lemma OneMoreTurn(p: PW.Params, x: PW.World, t: Turn, rest: seq<Turn>)
    ensures PW.Run(p, x, AllMoves([t] + rest)) == PW.Run(p, TakeTurn(p, x, t), AllMoves(rest))
  {
    assert ([t] + rest)[1..] == rest;
    TurnIsRun(p, x, t);
    RunAppend(p, x, MovesOf(t), AllMoves(rest));
  }

  lemma PlayStep(p: PW.Params, x: PW.World, turns: seq<Turn>)
    requires !x.w.phase.Finished? && turns != []
    ensures Play(p, x, turns) == Play(p, TakeTurn(p, x, turns[0]), turns[1..])
  {
  }

  /** Playing takes exactly the moves of the turns it uses, in order, and stops early only when finished. */
  lemma {:induction false} PlayIsRun(p: PW.Params, x: PW.World, turns: seq<Turn>) returns (used: seq<Turn>)
    ensures turns == used + Play(p, x, turns).1
    ensures Play(p, x, turns).0 == PW.Run(p, x, AllMoves(used))
    ensures Play(p, x, turns).0.w.phase.Finished? || used == turns
    decreases |turns|
  {
    if x.w.phase.Finished? || turns == [] {
      used := [];
    } else {
      var t, rest := turns[0], turns[1..];
      PlayStep(p, x, turns);
      var later := PlayIsRun(p, TakeTurn(p, x, t), rest);
      OneMoreTurn(p, x, t, later);
      used := [t] + later;
      assert turns == [t] + rest;
    }
  }

  /**
   Whatever others do, a wait on a console in a reachable state is fed one stretch of the stream, on a retry
   only bytes published after arming; the match it returns is the leftmost in what it was fed, and each of its
   two failures has its one cause.
   */
  lemma PlayIsHonest(p: PW.Params, c: CS.Console, turns: seq<Turn>)
    requires CS.Inv(c) && Fresh(p.pick, WAIT_MATCH_WIDTH)
    ensures var x := Play(p, PW.World(c, PW.START_WAITER), turns).0;
            && PW.WInv(p, x)
            && (x.w.retries > 0 && x.w.fed != [] ==> x.w.armAt <= x.w.origin)
            && (x.w.phase == PW.Finished(PW.ConsoleClosed) ==> x.c.closed)
            && (x.w.phase == PW.Finished(PW.CtxDone) ==> x.w.cancelled)
            && forall text :: x.w.phase == PW.Finished(PW.Matched(text)) ==> NaiveMatch(p.pick, x.w.fed) == Some(text)
  {
    var x0 := PW.World(c, PW.START_WAITER);
    var used := PlayIsRun(p, x0, turns);
    PW.StartInv(p, c);
    PW.RunKeeps(p, x0, AllMoves(used));
  }

  // ---- The loops ------------------------------------------------------------------------------

  class Wait {
    const p: PW.Params
    const scanner: PatternScanner
    var console: CS.Console
    var cancelled: bool
    var turns: seq<Turn>
    ghost var x: PW.World  // the state machine's view of the wait

    constructor (p: PW.Params, console: CS.Console, turns: seq<Turn>)
      ensures Valid() && x == PW.World(console, PW.START_WAITER)
      ensures this.p == p && this.turns == turns && fresh(scanner)
    {
      this.p, this.console, this.turns, cancelled := p, console, turns, false;
      scanner := new PatternScanner(p.pick);
      x := PW.World(console, PW.START_WAITER);
    }

    /** The variables are those of the state machine. */
    ghost predicate Valid()
      reads this, scanner
    {
      && scanner.Valid() && scanner.pick == p.pick && scanner.State() == x.w.scan
      && console == x.c && cancelled == x.w.cancelled
    }

    /** Whether an event would take from, or close, the subscription in use. */
    predicate Meddles(mine: Option<nat>, e: CS.Event) {
      match e
      case EvReceive(id) => mine == Some(id)
      case EvUnsubscribe(id) => mine == Some(id)
      case _ => false
    }

    /** Others take the next turn, if there is one. */
    method Others(mine: Option<nat>) returns (more: bool, preferCtx: bool)
      requires Valid() && mine == PW.Current(x.w)
      modifies `console, `cancelled, `turns, `x
      ensures Valid() && (more <==> old(turns) != [])
      ensures !more ==> x == old(x) && turns == old(turns)
      ensures more ==> && turns == old(turns)[1..] && preferCtx == old(turns)[0].preferCtx
                       && x == Before(p, old(x), old(turns)[0])
      ensures x.w == old(x.w).(cancelled := x.w.cancelled)
    {
      if turns == [] {
        return false, false;
      }
      var turn := turns[0];
      turns := turns[1..];
      for i := 0 to |turn.others|
        invariant Valid() && x == Settle(p, old(x), turn.others[..i]) && x.w == old(x.w)
        invariant turns == old(turns)[1..]
      {
        assert turn.others[..i + 1][..i] == turn.others[..i];
        if !Meddles(mine, turn.others[i]) {
          console := CS.Step(console, turn.others[i]);
        }
        x := PW.Go(p, x, PW.Env(turn.others[i]));
      }
      assert turn.others[..|turn.others|] == turn.others;
      if turn.cancel {
        cancelled := true;
        x := PW.Go(p, x, PW.Cancel);
      }
      return true, turn.preferCtx;
    }

    /** One turn of the select. */
    method SelectOnce(id: nat, prefer: bool) returns (found: Option<seq<byte>>, stop: bool, closed: bool)
      requires Valid() && x.w.phase == PW.Draining(id)
      modifies `console, `x, scanner
      ensures Valid() && x == PW.Act(p, old(x), prefer)
      ensures stop ==> !closed && x.w.phase == PW.Leaving(id, found, false)
      ensures closed ==> found.None? && x.w.phase == PW.CheckingErr(id)
      ensures !stop && !closed ==> x.w.phase == PW.Draining(id)
    {
      found, stop, closed := None, false, false;
      if id in console.all {
        match PW.Select(console.all[id].ch, cancelled, prefer)
        case ByCtx => stop := true;
        case ByChunk(chunk) =>
          console := CS.Receive(console, id);
          found := scanner.FeedChunk(chunk);
          stop := found.Some?;
        case ByEnd => closed := true;
        case Nothing =>
      }
      x := PW.Act(p, x, prefer);
    }

    /** Why the feed ended: a detach leaves the console without an error. */
    method CheckErr(id: nat, prefer: bool) returns (retry: bool)
      requires Valid() && x.w.phase == PW.CheckingErr(id)
      modifies `x
      ensures Valid() && x == PW.Act(p, old(x), prefer) && x.w.phase == PW.Leaving(id, None, retry)
      ensures retry <==> console.closeErr.None?
    {
      retry := console.closeErr.None?;
      x := PW.Act(p, x, prefer);
    }

    /** Feeds one subscription to the scanner until a match, the end of the feed or the end of the context. */
    method DrainInto(id: nat) returns (found: Option<seq<byte>>, retry: bool, ended: bool)
      requires Valid() && x.w.phase == PW.Draining(id)
      modifies `console, `cancelled, `turns, `x, scanner
      ensures Valid() && Play(p, x, turns) == Play(p, old(x), old(turns))
      ensures x.w.armTotal == old(x.w.armTotal) && |turns| <= |old(turns)|
      ensures ended ==> x.w.phase == PW.Leaving(id, found, retry)
      ensures !ended ==> turns == [] && !x.w.phase.Finished?
    {
      while true
        invariant Valid() && x.w.phase == PW.Draining(id) && x.w.armTotal == old(x.w.armTotal)
        invariant Play(p, x, turns) == Play(p, old(x), old(turns)) && |turns| <= |old(turns)|
        decreases |turns|
      {
        var more, prefer := Others(Some(id));
        if !more {
          return None, false, false;
        }
        var stop, closed;
        found, stop, closed := SelectOnce(id, prefer);
        if stop {
          return found, false, true;
        }
        if closed {
          more, prefer := Others(Some(id));
          if !more {
            return None, false, false;
          }
          retry := CheckErr(id, prefer);
          return None, retry, true;
        }
      }
    }

    /** Closes the subscription and decides: report, give up, or go round again. */
    method Leave(id: nat, found: Option<seq<byte>>, retry: bool) returns (r: Option<PW.Outcome>, again: bool)
      requires Valid() && x.w.phase == PW.Leaving(id, found, retry)
      modifies `console, `cancelled, `turns, `x
      ensures Valid() && Play(p, x, turns) == Play(p, old(x), old(turns))
      ensures x.w.armTotal == old(x.w.armTotal) && |turns| <= |old(turns)|
      ensures r.Some? ==> x.w.phase == PW.Finished(r.value)
      ensures again ==> r.None? && x.w.phase.Measuring?
      ensures r.None? && !again ==> turns == [] && !x.w.phase.Finished?
    {
      var more, prefer := Others(Some(id));
      if !more {
        return None, false;
      }
      console := CS.Unsubscribe(console, id);
      x := PW.Act(p, x, prefer);
      more, prefer := Others(None);
      if !more {
        return None, false;
      }
      x := PW.Act(p, x, prefer);
      if found.Some? {
        return Some(PW.Matched(found.value)), false;
      }
      if cancelled {
        return Some(PW.CtxDone), false;
      }
      if !retry {
        return Some(PW.ConsoleClosed), false;
      }
      return None, true;
    }

    method Arm(prefer: bool) returns (armTotal: int)
      requires Valid() && x.w.phase.Arming?
      modifies `x
      ensures Valid() && x == PW.Act(p, old(x), prefer)
      ensures x.w.phase == PW.Subscribing(p.includeScrollback) && armTotal == x.w.armTotal == CS.TotalWritten(console)
    {
      armTotal := CS.TotalWritten(console);
      x := PW.Act(p, x, prefer);
    }

    method Subscribe(replay: int, prefer: bool) returns (id: nat)
      requires Valid() && x.w.phase == PW.Subscribing(replay)
      modifies `console, `x
      ensures Valid() && x == PW.Act(p, old(x), prefer) && x.w.phase == PW.Draining(id)
    {
      id := console.nextID;
      console := CS.Subscribe(console, replay);
      x := PW.Act(p, x, prefer);
    }

    /** How much was missed since arming, at most the window; the scanner starts afresh. */
    method Measure(armTotal: int, prefer: bool) returns (replay: int)
      requires Valid() && x.w.phase.Measuring? && x.w.armTotal == armTotal
      modifies `x, scanner
      ensures Valid() && x == PW.Act(p, old(x), prefer) && x.w.phase == PW.Subscribing(replay)
      ensures replay == Min(CS.TotalWritten(console) - armTotal, MAX_PATTERN_WINDOW)
      ensures scanner.State() == FRESH_SCAN
    {
      var missed := CS.TotalWritten(console) - armTotal;
      if missed > MAX_PATTERN_WINDOW {
        missed := MAX_PATTERN_WINDOW;
      }
      replay := missed;
      scanner.Reset();
      x := PW.Act(p, x, prefer);
    }

    /** One subscription: its outcome, or how much to replay to the next. */
    method Round(armTotal: int, replay: int) returns (r: Option<PW.Outcome>, again: bool, next: int)
      requires Valid() && x.w.phase == PW.Subscribing(replay) && x.w.armTotal == armTotal
      modifies `console, `cancelled, `turns, `x, scanner
      ensures Valid() && Play(p, x, turns) == Play(p, old(x), old(turns))
      ensures again ==> x.w.phase == PW.Subscribing(next) && x.w.armTotal == armTotal && |turns| < |old(turns)|
      ensures !again ==> x.w.phase.Finished? || turns == []
      ensures !again ==> r == if x.w.phase.Finished? then Some(x.w.phase.outcome) else None
    {
      var more, prefer := Others(None);
      if !more {
        return None, false, 0;
      }
      var id := Subscribe(replay, prefer);
      var found, retry, ended := DrainInto(id);
      if !ended {
        return None, false, 0;
      }
      r, again := Leave(id, found, retry);
      if !again {
        return r, false, 0;
      }
      more, prefer := Others(None);
      if !more {
        return None, false, 0;
      }
      next := Measure(armTotal, prefer);
    }

    /**
     Blocks until the pattern is seen, the context is done or the console is closed; None while still blocked
     when the turns run out. The context returned is what the scanner holds.
     */
    method WaitForPattern() returns (r: Option<PW.Outcome>, context: seq<byte>)
      requires Valid() && x.w == PW.START_WAITER
      modifies this, scanner
      ensures Valid() && (x, turns) == Play(p, old(x), old(turns))
      ensures r == if x.w.phase.Finished? then Some(x.w.phase.outcome) else None
      ensures context == x.w.scan.acc
    {
      var more, prefer := Others(None);
      if !more {
        return None, scanner.acc;
      }
      var armTotal := Arm(prefer);
      var replay := p.includeScrollback;
      while true
        invariant Valid() && x.w.phase == PW.Subscribing(replay) && x.w.armTotal == armTotal
        invariant Play(p, x, turns) == Play(p, old(x), old(turns))
        decreases |turns|
      {
        var again;
        r, again, replay := Round(armTotal, replay);
        if !again {
          return r, scanner.acc;
        }
      }
    }
  }
}
