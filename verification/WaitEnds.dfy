/**
 That a pattern wait ends: once its context is done, or the console is closed, it takes a bounded number of its own
 actions to report a match that it has been fed, the context, or the closed console, whatever others do meanwhile.
 */
module WaitEnds {
  import opened Bytes
  import opened Matching
  import opened Scanner
  import CS = ConsoleState
  import PW = PatternWait
  import WL = WaitLoop

  // ---- The select, case by case ----------------------------------------------------------------

  /** Nothing is pending on the subscription. */
  predicate Drained(ch: CS.Chan) {
    ch.Chan? && ch.received == |ch.sent|
  }

  /** The waiter leaves with nothing found, and will not go on. */
  predicate GivesUp(x: PW.World, y: PW.World, id: nat) {
    y.c == x.c && y.w == x.w.(phase := PW.Leaving(id, None, false))
  }

  /** The waiter takes the oldest chunk pending. */
  ghost predicate TakesOldest(p: PW.Params, x: PW.World, y: PW.World, id: nat) {
    && id in x.c.all && x.c.all[id].ch.Chan? && x.c.all[id].ch.received < |x.c.all[id].ch.sent|
    && y == PW.Take(p, x, id, x.c.all[id].ch.sent[x.c.all[id].ch.received])
  }

  /**
   What a draining waiter does next. With its context done it gives up if nothing is pending and its feed goes on, and
   whenever its select prefers the context; otherwise it takes what is pending, then notices the end of its feed,
   and with none of these waits.
   */
  lemma DrainExactly(p: PW.Params, x: PW.World, id: nat, preferCtx: bool)
    requires CS.Inv(x.c) && x.w.phase == PW.Draining(id) && id in x.c.all
    ensures var (y, ch) := (PW.Act(p, x, preferCtx), x.c.all[id].ch);
            && ch.Chan? && ch.received <= |ch.sent|
            && (x.w.cancelled && preferCtx ==> GivesUp(x, y, id))
            && (x.w.cancelled && Drained(ch) && !ch.closed ==> GivesUp(x, y, id))
            && (!(x.w.cancelled && preferCtx) && !Drained(ch) ==> TakesOldest(p, x, y, id))
            && (!(x.w.cancelled && preferCtx) && Drained(ch) && ch.closed
                ==> y == x.(w := x.w.(phase := PW.CheckingErr(id))))
            && (!x.w.cancelled && Drained(ch) && !ch.closed ==> y == x)
  {
    CS.RecordFacts(x.c, id);
    SelectExactly(x.c.all[id].ch, x.w.cancelled, preferCtx);
    DrainBySelect(p, x, id, preferCtx);
  }

  lemma SelectExactly(ch: CS.Chan, cancelled: bool, preferCtx: bool)
    requires ch.Chan? && ch.received <= |ch.sent|
    ensures var r := PW.Select(ch, cancelled, preferCtx);
            && (cancelled && preferCtx ==> r == PW.ByCtx)
            && (!(cancelled && preferCtx) && !Drained(ch) ==> r == PW.ByChunk(ch.sent[ch.received]))
            && (!(cancelled && preferCtx) && Drained(ch) && ch.closed ==> r == PW.ByEnd)
            && (Drained(ch) && !ch.closed ==> r == if cancelled then PW.ByCtx else PW.Nothing)
  {
  }

  lemma DrainBySelect(p: PW.Params, x: PW.World, id: nat, preferCtx: bool)
    requires x.w.phase == PW.Draining(id) && id in x.c.all
    ensures var (y, r) := (PW.Act(p, x, preferCtx), PW.Select(x.c.all[id].ch, x.w.cancelled, preferCtx));
            match r
            case ByCtx => GivesUp(x, y, id)
            case ByChunk(chunk) => y == PW.Take(p, x, id, chunk)
            case ByEnd => y == x.(w := x.w.(phase := PW.CheckingErr(id)))
            case Nothing => y == x
  {
  }

  /** A waiter whose context is done and whose feed has nothing for it, or that prefers the context, is finished by its
      own third action from now. */
  lemma CancelledInThree(p: PW.Params, x: PW.World, id: nat, a: bool, b: bool, d: bool)
    requires CS.Inv(x.c) && x.w.phase == PW.Draining(id) && id in x.c.all && x.w.cancelled
    requires a || (Drained(x.c.all[id].ch) && !x.c.all[id].ch.closed)
    ensures var y := PW.Run(p, x, [PW.Advance(a), PW.Advance(b), PW.Advance(d)]);
            y.w.phase == PW.Finished(PW.CtxDone) && id !in y.c.subs
  {
    DrainExactly(p, x, id, a);
    GivenUpInTwo(p, x, PW.Act(p, x, a), id, b, d);
    ThreeMoves(p, x, a, b, d);
  }

  lemma GivenUpInTwo(p: PW.Params, x: PW.World, y: PW.World, id: nat, b: bool, d: bool)
    requires CS.Inv(x.c) && id in x.c.all && x.w.cancelled && GivesUp(x, y, id)
    ensures var z := PW.Act(p, PW.Act(p, y, b), d);
            z.w.phase == PW.Finished(PW.CtxDone) && id !in z.c.subs
  {
    CS.UnsubscribeExactly(x.c, id, id);
    assert PW.Act(p, y, b) == PW.World(CS.Unsubscribe(x.c, id), y.w.(phase := PW.Deciding(None, false)));
  }

  lemma ThreeMoves(p: PW.Params, x: PW.World, a: bool, b: bool, d: bool)
    ensures PW.Run(p, x, [PW.Advance(a), PW.Advance(b), PW.Advance(d)])
            == PW.Act(p, PW.Act(p, PW.Act(p, x, a), b), d)
  {
    var ma, mb, md := PW.Advance(a), PW.Advance(b), PW.Advance(d);
    assert [ma, mb, md][1..] == [mb, md] && [mb, md][1..] == [md] && [md][1..] == [];
    assert PW.Run(p, PW.Act(p, PW.Act(p, x, a), b), [md]) == PW.Act(p, PW.Act(p, PW.Act(p, x, a), b), d);
  }

  // ---- How many actions are left ----------------------------------------------------------------

  /** The context is done, or the console is closed. */
  predicate Doomed(x: PW.World) {
    x.w.cancelled || x.c.closed
  }

  function PendingOf(c: CS.Console, id: nat): nat {
    if id in c.all then Max(0, CS.Pending(c.all[id])) else 0
  }

  /** A bound on the waiter's own actions before it is finished, if nothing more is published to it. */
  function Left(phase: PW.Phase, closed: bool, pending: nat): nat {
    match phase
    case Finished(_) => 0
    case Deciding(found, retry) => if found.None? && retry then 8 else 1
    case Leaving(_, found, retry) => if found.None? && retry then 9 else 2
    case CheckingErr(_) => if closed then 3 else 10
    case Draining(_) => (if closed then 4 else 11) + pending
    case Subscribing(_) => if closed then 6 else 13
    case Measuring => if closed then 7 else 14
    case Arming => if closed then 7 else 14
  }

  function ActionsLeft(x: PW.World): nat {
    Left(x.w.phase, x.c.closed, if x.w.phase.Draining? then PendingOf(x.c, x.w.phase.id) else 0)
  }

  /** Well-formed enough for the count: the subscription in use exists. */
  ghost predicate Counted(x: PW.World) {
    CS.Inv(x.c) && (x.w.phase.Draining? ==> x.w.phase.id in x.c.all)
  }

  /** Closer to the end, with the context and the console as they were. */
  ghost predicate Closer(x: PW.World, y: PW.World) {
    Counted(y) && ActionsLeft(y) < ActionsLeft(x) && y.c.closed == x.c.closed && y.w.cancelled == x.w.cancelled
  }

  lemma ReceiveCounts(c: CS.Console, id: nat)
    requires CS.Inv(c) && id in c.all && c.all[id].ch.Chan? && c.all[id].ch.received < |c.all[id].ch.sent|
    ensures var d := CS.Receive(c, id);
            CS.Inv(d) && id in d.all && d.closed == c.closed && PendingOf(d, id) == PendingOf(c, id) - 1
  {
    CS.ReceiveInv(c, id);
    OneLess(c, id);
  }

  lemma OneLess(c: CS.Console, id: nat)
    requires id in c.all && c.all[id].ch.Chan? && c.all[id].ch.received < |c.all[id].ch.sent|
    ensures PendingOf(CS.Receive(c, id), id) == PendingOf(c, id) - 1 && id in CS.Receive(c, id).all
    ensures CS.Receive(c, id).closed == c.closed
  {
  }

  lemma TakeShape(p: PW.Params, x: PW.World, id: nat, chunk: seq<byte>)
    ensures var y := PW.Take(p, x, id, chunk);
            && y.c == CS.Receive(x.c, id) && y.w.cancelled == x.w.cancelled
            && (y.w.phase == x.w.phase || (y.w.phase.Leaving? && y.w.phase.found.Some?))
  {
  }

  lemma TakenCloser(x: PW.World, y: PW.World, id: nat)
    requires x.w.phase == PW.Draining(id) && y.w.cancelled == x.w.cancelled && y.c.closed == x.c.closed
    requires CS.Inv(y.c) && id in y.c.all && PendingOf(y.c, id) < PendingOf(x.c, id)
    requires y.w.phase == x.w.phase || (y.w.phase.Leaving? && y.w.phase.found.Some?)
    ensures Closer(x, y)
  {
  }

  lemma TakeCounts(p: PW.Params, x: PW.World, id: nat)
    requires CS.Inv(x.c) && x.w.phase == PW.Draining(id) && id in x.c.all
    requires x.c.all[id].ch.Chan? && x.c.all[id].ch.received < |x.c.all[id].ch.sent|
    ensures Closer(x, PW.Take(p, x, id, x.c.all[id].ch.sent[x.c.all[id].ch.received]))
  {
    var chunk := x.c.all[id].ch.sent[x.c.all[id].ch.received];
    ReceiveCounts(x.c, id);
    TakeShape(p, x, id, chunk);
    TakenCloser(x, PW.Take(p, x, id, chunk), id);
  }

  /** Stopping, or noticing the end of the feed, which on an open console may yet mean going round again. */
  lemma StopCounts(x: PW.World, id: nat)
    requires Counted(x) && x.w.phase == PW.Draining(id)
    ensures Closer(x, x.(w := x.w.(phase := PW.Leaving(id, None, false))))
    ensures Closer(x, x.(w := x.w.(phase := PW.CheckingErr(id))))
  {
  }

  lemma DrainCounts(p: PW.Params, x: PW.World, id: nat, preferCtx: bool)
    requires Counted(x) && Doomed(x) && x.w.phase == PW.Draining(id)
    ensures Closer(x, PW.Act(p, x, preferCtx))
  {
    var ch := x.c.all[id].ch;
    CS.RecordFacts(x.c, id);
    ClosedFeeds(x.c, id);
    SelectExactly(ch, x.w.cancelled, preferCtx);
    DrainBySelect(p, x, id, preferCtx);
    StopCounts(x, id);
    if PW.Select(ch, x.w.cancelled, preferCtx).ByChunk? {
      TakeCounts(p, x, id);
    }
  }

  /** On a closed console every feed has ended. */
  lemma ClosedFeeds(c: CS.Console, id: nat)
    requires CS.Inv(c) && id in c.all
    ensures c.closed ==> c.all[id].ch.Chan? && c.all[id].ch.closed
  {
    CS.RecordFacts(c, id);
  }

  lemma NewPends(c: CS.Console, r: int)
    requires CS.Inv(c)
    ensures var d := CS.Subscribe(c, r);
            CS.Inv(d) && c.nextID in d.all && d.closed == c.closed && PendingOf(d, c.nextID) <= 1
  {
    CS.SubscribeInv(c, r);
    CS.SubscribeExactly(c, r, 0);
  }

  lemma SubscribeCounts(x: PW.World, r: int)
    requires Counted(x) && x.w.phase == PW.Subscribing(r)
    ensures Closer(x, PW.DoSubscribe(x, r))
  {
    NewPends(x.c, r);
  }

  lemma UnsubscribeKeeps(c: CS.Console, id: nat)
    requires CS.Inv(c)
    ensures CS.Inv(CS.Unsubscribe(c, id)) && CS.Unsubscribe(c, id).closed == c.closed
  {
    CS.UnsubscribeInv(c, id);
  }

  lemma LeaveCounts(x: PW.World, id: nat, found: Option<seq<byte>>, retry: bool)
    requires Counted(x) && x.w.phase == PW.Leaving(id, found, retry)
    ensures Closer(x, PW.World(CS.Unsubscribe(x.c, id), x.w.(phase := PW.Deciding(found, retry))))
  {
    UnsubscribeKeeps(x.c, id);
  }

  /** The actions that leave the console alone. */
  lemma OtherCounts(p: PW.Params, x: PW.World, preferCtx: bool)
    requires Counted(x) && Doomed(x) && (x.c.closed <==> x.c.closeErr.Some?)
    requires x.w.phase.Arming? || x.w.phase.CheckingErr? || x.w.phase.Deciding? || x.w.phase.Measuring?
    ensures Closer(x, PW.Act(p, x, preferCtx))
  {
  }

  /** Every action of a doomed waiter brings it closer to its end. */
  lemma ActCounts(p: PW.Params, x: PW.World, preferCtx: bool)
    requires Counted(x) && Doomed(x) && !x.w.phase.Finished?
    ensures Closer(x, PW.Act(p, x, preferCtx))
  {
    match x.w.phase
    case Draining(id) => DrainCounts(p, x, id, preferCtx);
    case Subscribing(r) => SubscribeCounts(x, r);
    case Leaving(id, found, retry) => LeaveCounts(x, id, found, retry);
    case _ => OtherCounts(p, x, preferCtx);
  }

  /** What others do sets it back by at most one action, and only by publishing. */
  lemma EnvCounts(x: PW.World, e: CS.Event)
    requires Counted(x) && PW.Foreign(x.w, e)
    ensures var y := x.(c := CS.Step(x.c, e));
            Counted(y) && (Doomed(x) ==> Doomed(y)) && ActionsLeft(y) <= ActionsLeft(x) + if e.EvPublish? then 1 else 0
  {
    EnvKeeps(x.c, e);
    if x.w.phase.Draining? {
      EnvPends(x.c, e, x.w.phase.id);
      EnvDrains(x, CS.Step(x.c, e), e.EvPublish?);
    } else {
      EnvElsewhere(x, CS.Step(x.c, e));
    }
  }

  lemma EnvKeeps(c: CS.Console, e: CS.Event)
    requires CS.Inv(c)
    ensures CS.Inv(CS.Step(c, e)) && (c.closed ==> CS.Step(c, e).closed)
  {
    CS.StepInv(c, e);
    PW.StreamGrows(c, e);
  }

  lemma EnvDrains(x: PW.World, d: CS.Console, more: bool)
    requires x.w.phase.Draining? && x.w.phase.id in d.all && CS.Inv(d) && (x.c.closed ==> d.closed)
    requires PendingOf(d, x.w.phase.id) <= PendingOf(x.c, x.w.phase.id) + if more then 1 else 0
    ensures var y := x.(c := d);
            Counted(y) && (Doomed(x) ==> Doomed(y)) && ActionsLeft(y) <= ActionsLeft(x) + if more then 1 else 0
  {
  }

  lemma EnvElsewhere(x: PW.World, d: CS.Console)
    requires !x.w.phase.Draining? && CS.Inv(d) && (x.c.closed ==> d.closed)
    ensures var y := x.(c := d);
            Counted(y) && (Doomed(x) ==> Doomed(y)) && ActionsLeft(y) <= ActionsLeft(x)
  {
  }

  lemma PublishPends(c: CS.Console, q: seq<byte>, id: nat)
    requires CS.Inv(c) && id in c.all
    ensures id in CS.Publish(c, q).all && PendingOf(CS.Publish(c, q), id) <= PendingOf(c, id) + 1
  {
    CS.PublishExactly(c, q, id);
  }

  lemma ClosePends(c: CS.Console, err: CS.Error, id: nat)
    requires CS.Inv(c) && id in c.all
    ensures id in CS.CloseWithErr(c, err).all && PendingOf(CS.CloseWithErr(c, err), id) <= PendingOf(c, id)
  {
    if !c.closed {
      CS.CloseExactly(c, err, id);
    }
  }

  lemma SubscribePends(c: CS.Console, n: int, id: nat)
    requires CS.Inv(c) && id in c.all
    ensures id in CS.Subscribe(c, n).all && PendingOf(CS.Subscribe(c, n), id) == PendingOf(c, id)
  {
    CS.SubscribeExactly(c, n, id);
  }

  lemma UnsubscribePends(c: CS.Console, i: nat, id: nat)
    requires CS.Inv(c) && id in c.all
    ensures id in CS.Unsubscribe(c, i).all && PendingOf(CS.Unsubscribe(c, i), id) <= PendingOf(c, id)
  {
    CS.UnsubscribeExactly(c, i, id);
  }

  lemma EnvPends(c: CS.Console, e: CS.Event, id: nat)
    requires CS.Inv(c) && id in c.all && e != CS.EvReceive(id)
    ensures id in CS.Step(c, e).all
    ensures PendingOf(CS.Step(c, e), id) <= PendingOf(c, id) + if e.EvPublish? then 1 else 0
  {
    match e
    case EvPublish(q) => PublishPends(c, q, id);
    case EvClose(err) => ClosePends(c, err, id);
    case EvSubscribe(n) => SubscribePends(c, n, id);
    case EvUnsubscribe(i) => UnsubscribePends(c, i, id);
    case EvReceive(_) =>
    case EvReset =>
  }

  function Published(ms: seq<PW.Move>): nat {
    if ms == [] then 0 else (if ms[0].Env? && ms[0].e.EvPublish? then 1 else 0) + Published(ms[1..])
  }

  lemma GoCounts(p: PW.Params, x: PW.World, m: PW.Move)
    requires Counted(x) && Doomed(x)
    ensures var y := PW.Go(p, x, m);
            && Counted(y) && Doomed(y) && (x.w.phase.Finished? ==> y.w.phase == x.w.phase)
            && (!x.w.phase.Finished? ==>
                  ActionsLeft(y) + (if m.Advance? then 1 else 0)
                  <= ActionsLeft(x) + (if m.Env? && m.e.EvPublish? then 1 else 0))
  {
    match m
    case Env(e) =>
      if PW.Foreign(x.w, e) {
        EnvCounts(x, e);
      }
    case Cancel =>
    case Advance(preferCtx) =>
      if !x.w.phase.Finished? {
        ActCounts(p, x, preferCtx);
      }
  }

  /** A finished wait stays as it is. */
  lemma {:induction false} FinishedStays(p: PW.Params, x: PW.World, ms: seq<PW.Move>)
    requires x.w.phase.Finished?
    ensures PW.Run(p, x, ms).w.phase == x.w.phase
    decreases ms
  {
    if ms != [] {
      FinishedStays(p, PW.Go(p, x, ms[0]), ms[1..]);
    }
  }

  lemma {:induction false} EndsInTime(p: PW.Params, x: PW.World, ms: seq<PW.Move>)
    requires Counted(x) && Doomed(x) && PW.Advances(ms) >= ActionsLeft(x) + Published(ms)
    ensures PW.Run(p, x, ms).w.phase.Finished?
    decreases ms
  {
    if x.w.phase.Finished? {
      FinishedStays(p, x, ms);
    } else {
      assert ms != [];
      GoCounts(p, x, ms[0]);
      EndsInTime(p, PW.Go(p, x, ms[0]), ms[1..]);
    }
  }

  // ---- ... and with what ------------------------------------------------------------------------

  /** Once the context is done, closing is no longer what is reported. */
  lemma ActRightly(p: PW.Params, x: PW.World, preferCtx: bool)
    requires x.w.cancelled && !x.w.phase.Finished?
    ensures PW.Act(p, x, preferCtx).w.phase != PW.Finished(PW.ConsoleClosed) && PW.Act(p, x, preferCtx).w.cancelled
  {
  }

  lemma {:induction false} CancelledOutcome(p: PW.Params, x: PW.World, ms: seq<PW.Move>)
    requires x.w.cancelled && !x.w.phase.Finished?
    ensures PW.Run(p, x, ms).w.phase != PW.Finished(PW.ConsoleClosed)
    decreases ms
  {
    if ms != [] {
      var y := PW.Go(p, x, ms[0]);
      if ms[0].Advance? {
        ActRightly(p, x, ms[0].preferCtx);
      }
      if y.w.phase.Finished? {
        FinishedStays(p, y, ms[1..]);
      } else {
        CancelledOutcome(p, y, ms[1..]);
      }
    }
  }

  /** Found, a match is what is reported, whatever has become of the context and the console. */
  lemma {:induction false} FoundIsReported(p: PW.Params, x: PW.World, text: seq<byte>, ms: seq<PW.Move>)
    requires x.w.phase.Deciding? || x.w.phase.Leaving?
    requires x.w.phase.found == Some(text) && PW.Advances(ms) >= if x.w.phase.Leaving? then 2 else 1
    ensures PW.Run(p, x, ms).w.phase == PW.Finished(PW.Matched(text))
    decreases ms
  {
    var y := PW.Go(p, x, ms[0]);
    if y.w.phase.Finished? {
      FinishedStays(p, y, ms[1..]);
    } else {
      FoundIsReported(p, y, text, ms[1..]);
    }
  }

  /**
   Once its context is done or the console is closed, a wait in any state it can reach is finished after ActionsLeft of
   its own actions and one for every chunk published meanwhile, whatever else others do. Unless a match occurs in what
   it was fed, it has then reported the context, if that was done to begin with, or else the context or a console that
   is closed.
   */
  lemma WaitEnds(p: PW.Params, x: PW.World, ms: seq<PW.Move>)
    requires Fresh(p.pick, WAIT_MATCH_WIDTH) && PW.WInv(p, x) && Doomed(x) && !x.w.phase.Finished?
    requires PW.Advances(ms) >= ActionsLeft(x) + Published(ms)
    ensures var y := PW.Run(p, x, ms);
            && y.w.phase.Finished?
            && (FindIndex(p.pick, y.w.fed).None? ==>
                  || y.w.phase.outcome == PW.CtxDone
                  || (y.w.phase.outcome == PW.ConsoleClosed && !x.w.cancelled && y.c.closed))
            && (y.w.phase.outcome == PW.CtxDone ==> y.w.cancelled)
  {
    EndsInTime(p, x, ms);
    PW.RunKeeps(p, x, ms);
    FinishedFacts(p, PW.Run(p, x, ms));
    if x.w.cancelled {
      CancelledOutcome(p, x, ms);
    }
  }

  lemma FinishedFacts(p: PW.Params, y: PW.World)
    requires PW.WInv(p, y) && y.w.phase.Finished?
    ensures y.w.phase.outcome.Matched? ==> FindIndex(p.pick, y.w.fed).Some?
    ensures y.w.phase.outcome == PW.CtxDone ==> y.w.cancelled
    ensures y.w.phase.outcome == PW.ConsoleClosed ==> y.c.closed
  {
  }

  // ---- ... from the start of a wait -----------------------------------------------------------------

  /** What is pending on the subscription in use is its replay and what has been published since. */
  ghost predicate PendsAtMost(x: PW.World, n: nat) {
    Counted(x) && (x.w.phase.Draining? ==> PendingOf(x.c, x.w.phase.id) <= 1 + n)
  }

  lemma TakePends(p: PW.Params, x: PW.World, id: nat, n: nat)
    requires PendsAtMost(x, n) && x.w.phase == PW.Draining(id)
    requires x.c.all[id].ch.Chan? && x.c.all[id].ch.received < |x.c.all[id].ch.sent|
    ensures PendsAtMost(PW.Take(p, x, id, x.c.all[id].ch.sent[x.c.all[id].ch.received]), n)
  {
    ReceiveCounts(x.c, id);
    TakeShape(p, x, id, x.c.all[id].ch.sent[x.c.all[id].ch.received]);
  }

  lemma DrainPends(p: PW.Params, x: PW.World, id: nat, preferCtx: bool, n: nat)
    requires PendsAtMost(x, n) && x.w.phase == PW.Draining(id)
    ensures PendsAtMost(PW.Act(p, x, preferCtx), n)
  {
    CS.RecordFacts(x.c, id);
    SelectExactly(x.c.all[id].ch, x.w.cancelled, preferCtx);
    DrainBySelect(p, x, id, preferCtx);
    if PW.Select(x.c.all[id].ch, x.w.cancelled, preferCtx).ByChunk? {
      TakePends(p, x, id, n);
    }
  }

  lemma ActPends(p: PW.Params, x: PW.World, preferCtx: bool, n: nat)
    requires PendsAtMost(x, n)
    ensures PendsAtMost(PW.Act(p, x, preferCtx), n)
  {
    match x.w.phase
    case Draining(id) => DrainPends(p, x, id, preferCtx, n);
    case Subscribing(r) => NewPends(x.c, r);
    case Leaving(id, _, _) => UnsubscribeKeeps(x.c, id);
    case _ =>
  }

  lemma EnvPendsAtMost(x: PW.World, e: CS.Event, n: nat)
    requires PendsAtMost(x, n) && PW.Foreign(x.w, e)
    ensures PendsAtMost(x.(c := CS.Step(x.c, e)), n + if e.EvPublish? then 1 else 0)
  {
    EnvKeeps(x.c, e);
    if x.w.phase.Draining? {
      EnvPends(x.c, e, x.w.phase.id);
    }
  }

  lemma {:induction false} RunPends(p: PW.Params, x: PW.World, ms: seq<PW.Move>, n: nat)
    requires PendsAtMost(x, n)
    ensures PendsAtMost(PW.Run(p, x, ms), n + Published(ms))
    decreases ms
  {
    if ms != [] {
      var k := n + if ms[0].Env? && ms[0].e.EvPublish? then 1 else 0;
      match ms[0] {
        case Env(e) =>
          if PW.Foreign(x.w, e) {
            EnvPendsAtMost(x, e, n);
          }
        case Cancel =>
        case Advance(preferCtx) => ActPends(p, x, preferCtx, n);
      }
      RunPends(p, PW.Go(p, x, ms[0]), ms[1..], k);
    }
  }

  lemma {:induction false} PublishedAppend(xs: seq<PW.Move>, ys: seq<PW.Move>)
    ensures Published(xs + ys) == Published(xs) + Published(ys)
    ensures PW.Advances(xs + ys) == PW.Advances(xs) + PW.Advances(ys)
    decreases |xs|
  {
    if xs == [] {
      assert xs + ys == ys;
    } else {
      assert (xs + ys)[1..] == xs[1..] + ys;
      PublishedAppend(xs[1..], ys);
    }
  }

  /** How many chunks others publish over these turns. */
  function PublishedIn(turns: seq<WL.Turn>): nat {
    Published(WL.AllMoves(turns))
  }

  lemma {:induction false} NoAdvances(es: seq<CS.Event>)
    ensures PW.Advances(WL.Envs(es)) == 0
    decreases |es|
  {
    if es != [] {
      assert WL.Envs(es)[1..] == WL.Envs(es[1..]);
      NoAdvances(es[1..]);
    }
  }

  /** A turn is one action of the waiter's own. */
  lemma TurnAdvances(t: WL.Turn)
    ensures PW.Advances(WL.MovesOf(t)) == 1
  {
    var tail := (if t.cancel then [PW.Cancel] else []) + [PW.Advance(t.preferCtx)];
    assert WL.MovesOf(t) == WL.Envs(t.others) + tail;
    NoAdvances(t.others);
    PublishedAppend(WL.Envs(t.others), tail);
    assert tail == if t.cancel then [PW.Cancel, PW.Advance(t.preferCtx)] else [PW.Advance(t.preferCtx)];
    assert [PW.Cancel, PW.Advance(t.preferCtx)][1..] == [PW.Advance(t.preferCtx)];
    assert PW.Advances([PW.Advance(t.preferCtx)]) == 1;
  }

  lemma {:induction false} TurnsAdvance(turns: seq<WL.Turn>)
    ensures PW.Advances(WL.AllMoves(turns)) == |turns|
    decreases |turns|
  {
    if turns != [] {
      TurnAdvances(turns[0]);
      TurnsAdvance(turns[1..]);
      PublishedAppend(WL.MovesOf(turns[0]), WL.AllMoves(turns[1..]));
    }
  }

  lemma {:induction false} AllMovesAppend(xs: seq<WL.Turn>, ys: seq<WL.Turn>)
    ensures WL.AllMoves(xs + ys) == WL.AllMoves(xs) + WL.AllMoves(ys)
    decreases |xs|
  {
    if xs == [] {
      assert xs + ys == ys;
    } else {
      assert (xs + ys)[1..] == xs[1..] + ys;
      AllMovesAppend(xs[1..], ys);
      assert WL.MovesOf(xs[0]) + (WL.AllMoves(xs[1..]) + WL.AllMoves(ys)) == WL.AllMoves(xs) + WL.AllMoves(ys);
    }
  }

  /** After a turn in which the context fires the waiter is doomed, if it was not finished before. */
  lemma TurnDooms(p: PW.Params, x: PW.World, t: WL.Turn)
    requires t.cancel
    ensures PW.Run(p, x, WL.MovesOf(t)).w.cancelled
  {
    WL.TurnIsRun(p, x, t);
    StaysCancelled(p, WL.Before(p, x, t), t.preferCtx);
  }

  lemma StaysCancelled(p: PW.Params, x: PW.World, preferCtx: bool)
    requires x.w.cancelled
    ensures PW.Act(p, x, preferCtx).w.cancelled
  {
  }

  lemma EndsAfter(p: PW.Params, x: PW.World, ms: seq<PW.Move>, n: nat)
    requires PendsAtMost(x, n) && Doomed(x) && PW.Advances(ms) >= 14 + n + Published(ms)
    ensures PW.Run(p, x, ms).w.phase.Finished?
  {
    EndsInTime(p, x, ms);
  }

  lemma SplitTurns(turns: seq<WL.Turn>, i: nat) returns (before: seq<PW.Move>, after: seq<PW.Move>)
    requires i < |turns|
    ensures before == WL.AllMoves(turns[..i]) + WL.MovesOf(turns[i]) && after == WL.AllMoves(turns[i + 1..])
    ensures WL.AllMoves(turns) == before + after
    ensures PW.Advances(after) == |turns| - i - 1 && Published(before) + Published(after) == PublishedIn(turns)
  {
    before, after := WL.AllMoves(turns[..i]) + WL.MovesOf(turns[i]), WL.AllMoves(turns[i + 1..]);
    assert turns == turns[..i] + ([turns[i]] + turns[i + 1..]);
    assert ([turns[i]] + turns[i + 1..])[1..] == turns[i + 1..];
    AllMovesAppend(turns[..i], [turns[i]] + turns[i + 1..]);
    TurnsAdvance(turns[i + 1..]);
    PublishedAppend(before, after);
    assert WL.AllMoves(turns) == before + after;
  }

  /**
   A wait whose context fires in some turn returns within 14 more turns and one for every chunk published, whatever
   others do: it is not still blocked when the turns run out.
   */
  lemma CancelledWaitReturns(p: PW.Params, c: CS.Console, turns: seq<WL.Turn>, i: nat)
    requires CS.Inv(c) && i < |turns| && turns[i].cancel && |turns| - i - 1 >= 14 + PublishedIn(turns)
    ensures WL.Play(p, PW.World(c, PW.START_WAITER), turns).0.w.phase.Finished?
  {
    var x0 := PW.World(c, PW.START_WAITER);
    var used := WL.PlayIsRun(p, x0, turns);
    if !WL.Play(p, x0, turns).0.w.phase.Finished? {
      var before, after := SplitTurns(turns, i);
      var x := PW.Run(p, x0, before);
      WL.RunAppend(p, x0, before, after);
      WL.RunAppend(p, x0, WL.AllMoves(turns[..i]), WL.MovesOf(turns[i]));
      TurnDooms(p, PW.Run(p, x0, WL.AllMoves(turns[..i])), turns[i]);
      RunPends(p, x0, before, 0);
      EndsAfter(p, x, after, Published(before));
    }
  }
}
