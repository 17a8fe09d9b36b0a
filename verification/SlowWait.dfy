/**
 How a wait of the bootloader driver ends without a match: in bounded time once its context is done; and what it makes
 of being detached for slowness: it reports the console closed, closed or not.
 */
module SlowWait {
  import opened Bytes
  import opened Matching
  import opened Scanner
  import opened UBootExchange
  import opened UBootExpect
  import opened UBootScript
  import opened WaitEnds
  import CS = ConsoleState
  import PW = PatternWait
  import WL = WaitLoop
  import WS = WaitScrollback

  /** The feed has ended and everything in it has been taken. */
  ghost predicate FeedEnded(c: CS.Console, id: nat) {
    id in c.all && CS.Ended(c.all[id].ch)
  }

  lemma EndIsReal(c: CS.Console, id: nat, cancelled: bool, preferCtx: bool)
    ensures PW.Select(ChanOf(c, id), cancelled, preferCtx) == PW.ByEnd ==> FeedEnded(c, id)
    ensures PW.Select(ChanOf(c, id), cancelled, preferCtx) == PW.ByCtx ==> cancelled
  {
  }

  /** The context error is returned only once the context is done, the closed error only at the end of the feed. */
  lemma {:induction false} EndsHonestly(pick: Matcher<byte>, c: CS.Console, id: nat, cancelled: bool, acc: seq<byte>,
                                        turns: seq<WL.Turn>)
    ensures var h := Listen(pick, c, id, cancelled, acc, turns);
            && (h.ending == CtxDone ==> cancelled || exists i :: 0 <= i < |turns| && turns[i].cancel)
            && (h.ending == ConsoleClosed ==> FeedEnded(h.console, id))
    decreases |turns|
  {
    if turns != [] {
      var d := Settle(c, id, turns[0].others);
      var done := cancelled || turns[0].cancel;
      var ready := PW.Select(ChanOf(d, id), done, turns[0].preferCtx);
      EndIsReal(d, id, done, turns[0].preferCtx);
      if ready.Nothing? {
        EndsHonestly(pick, d, id, done, acc, turns[1..]);
      } else if ready.ByChunk? && FindIndex(pick, acc + ready.chunk).None? {
        EndsHonestly(pick, CS.Receive(d, id), id, done, Trim(acc + ready.chunk), turns[1..]);
      }
    }
  }

  /** A feed ends when the console is closed or its reader is detached: the subscription is registered no more. */
  lemma EndedIsGone(c: CS.Console, id: nat)
    requires CS.Inv(c) && FeedEnded(c, id)
    ensures id !in c.subs
  {
    assert CS.SubOK(c, id, c.all[id]);
  }

  /** What a wait says of its end: the closed error means that its subscription is gone. */
  lemma ClosedMeansGone(pick: Matcher<byte>, c: CS.Console, t: Talk)
    requires CS.Inv(c)
    ensures var h := Wait(pick, c, t);
            && (h.ending == ConsoleClosed ==> Mine(c, t) !in h.console.subs)
            && (h.ending == CtxDone ==> exists i :: 0 <= i < |t.turns| && t.turns[i].cancel)
  {
    WaitFollows(pick, c, t);
    EndsHonestly(pick, Subscribed(c, t), Mine(c, t), false, [], t.turns);
    if Wait(pick, c, t).ending == ConsoleClosed {
      EndedIsGone(Wait(pick, c, t).console, Mine(c, t));
    }
  }

  // ---- A wait whose context is done ------------------------------------------------------------------

  /** Its context done and nothing pending on an open feed, or its select preferring the context, the wait stops. */
  lemma CutNow(pick: Matcher<byte>, c: CS.Console, id: nat, cancelled: bool, acc: seq<byte>, turns: seq<WL.Turn>)
    requires turns != [] && (cancelled || turns[0].cancel)
    requires var d := Settle(c, id, turns[0].others);
             id in d.all && d.all[id].ch.Chan?
             && (turns[0].preferCtx || (Drained(d.all[id].ch) && !d.all[id].ch.closed))
    ensures Listen(pick, c, id, cancelled, acc, turns) == Hearing(Settle(c, id, turns[0].others), [], CtxDone)
  {
  }

  function PublishesIn(es: seq<CS.Event>): nat {
    if es == [] then 0 else (if es[0].EvPublish? then 1 else 0) + PublishesIn(es[1..])
  }

  /** How many chunks others publish over these turns. */
  function PublishedBy(turns: seq<WL.Turn>): nat {
    if turns == [] then 0 else PublishesIn(turns[0].others) + PublishedBy(turns[1..])
  }

  lemma {:induction false} SettlePends(c: CS.Console, id: nat, es: seq<CS.Event>)
    requires CS.Inv(c) && id in c.all
    ensures var d := Settle(c, id, es);
            CS.Inv(d) && id in d.all && PendingOf(d, id) <= PendingOf(c, id) + PublishesIn(es)
    decreases |es|
  {
    if es != [] {
      if Foreign(id, es[0]) {
        EnvKeeps(c, es[0]);
        EnvPends(c, es[0], id);
        SettlePends(CS.Step(c, es[0]), id, es[1..]);
      } else {
        SettlePends(c, id, es[1..]);
      }
    }
  }

  /** With the context done a select always finds something, and what it takes leaves less pending. */
  lemma ReadyExactly(c: CS.Console, id: nat, cancelled: bool, preferCtx: bool)
    requires CS.Inv(c) && id in c.all
    ensures var r := PW.Select(ChanOf(c, id), cancelled, preferCtx);
            && (cancelled ==> !r.Nothing?)
            && (r.ByChunk? ==> var e := CS.Receive(c, id);
                               CS.Inv(e) && id in e.all && PendingOf(e, id) == PendingOf(c, id) - 1)
  {
    CS.RecordFacts(c, id);
    SelectExactly(c.all[id].ch, cancelled, preferCtx);
    if PW.Select(ChanOf(c, id), cancelled, preferCtx).ByChunk? {
      ReceiveCounts(c, id);
    }
  }

  /** Matched, or cut short. */
  predicate Stopped(pick: Matcher<byte>, acc: seq<byte>, h: Hearing) {
    h.ending != NotCut || Expect(pick, acc, h.chunks).1
  }

  lemma ThenStopped(pick: Matcher<byte>, acc: seq<byte>, chunk: seq<byte>, h: Hearing)
    requires FindIndex(pick, acc + chunk).None? && Stopped(pick, Trim(acc + chunk), h)
    ensures Stopped(pick, acc, Then(chunk, h))
  {
    assert ([chunk] + h.chunks)[1..] == h.chunks;
  }

  /** The first turn of a wait: what it finds ready, and the console after it. */
  lemma ListenOnce(pick: Matcher<byte>, c: CS.Console, id: nat, cancelled: bool, acc: seq<byte>, turns: seq<WL.Turn>)
      returns (r: PW.Ready, e: CS.Console)
    requires CS.Inv(c) && id in c.all && turns != []
    ensures CS.Inv(e) && id in e.all && (cancelled || turns[0].cancel ==> !r.Nothing?)
    ensures PendingOf(e, id) + (if r.ByChunk? then 1 else 0) <= PendingOf(c, id) + PublishesIn(turns[0].others)
    ensures var h, done := Listen(pick, c, id, cancelled, acc, turns), cancelled || turns[0].cancel;
            match r
            case ByCtx => h == Hearing(e, [], CtxDone)
            case ByEnd => h == Hearing(e, [], ConsoleClosed)
            case Nothing => h == Listen(pick, e, id, done, acc, turns[1..])
            case ByChunk(chunk) =>
              h == if FindIndex(pick, acc + chunk).Some? then Hearing(e, [chunk], NotCut)
                   else Then(chunk, Listen(pick, e, id, done, Trim(acc + chunk), turns[1..]))
  {
    var d := Settle(c, id, turns[0].others);
    SettlePends(c, id, turns[0].others);
    ReadyExactly(d, id, cancelled || turns[0].cancel, turns[0].preferCtx);
    r := PW.Select(ChanOf(d, id), cancelled || turns[0].cancel, turns[0].preferCtx);
    e := if r.ByChunk? then CS.Receive(d, id) else d;
  }

  lemma MatchStops(pick: Matcher<byte>, acc: seq<byte>, chunk: seq<byte>, e: CS.Console)
    requires FindIndex(pick, acc + chunk).Some?
    ensures Stopped(pick, acc, Hearing(e, [chunk], NotCut))
  {
    assert [chunk][1..] == [];
  }

  lemma {:induction false} ListenEnds(pick: Matcher<byte>, c: CS.Console, id: nat, cancelled: bool, acc: seq<byte>,
                                      turns: seq<WL.Turn>, i: nat)
    requires CS.Inv(c) && id in c.all && i <= |turns|
    requires cancelled || (i < |turns| && turns[i].cancel)
    requires |turns| - (if cancelled then 0 else i) > PendingOf(c, id) + PublishedBy(turns)
    ensures Stopped(pick, acc, Listen(pick, c, id, cancelled, acc, turns))
    decreases |turns|
  {
    var done := cancelled || turns[0].cancel;
    var next := if i > 0 then i - 1 else 0;
    var r, e := ListenOnce(pick, c, id, cancelled, acc, turns);
    if r.Nothing? {
      ListenEnds(pick, e, id, done, acc, turns[1..], next);
    } else if r.ByChunk? {
      if FindIndex(pick, acc + r.chunk).None? {
        ListenEnds(pick, e, id, done, Trim(acc + r.chunk), turns[1..], next);
        ThenStopped(pick, acc, r.chunk, Listen(pick, e, id, done, Trim(acc + r.chunk), turns[1..]));
      } else {
        MatchStops(pick, acc, r.chunk, e);
      }
    }
  }

  lemma StartsEmpty(c: CS.Console, t: Talk)
    requires CS.Inv(c)
    ensures var d := Subscribed(c, t);
            CS.Inv(d) && Mine(c, t) in d.all && PendingOf(d, Mine(c, t)) <= PublishesIn(t.pause)
  {
    WS.RunSince(c, t.before);
    var b := CS.Run(c, t.before);
    CS.SubscribeInv(b, 0);
    CS.SubscribeExactly(b, 0, 0);
    SettlePends(CS.Subscribe(b, 0), b.nextID, t.pause);
  }

  /**
   A command whose context fires in some turn is over after one more turn than chunks have been published since it
   subscribed, whatever else others do: with the context error, if it has not seen its pattern and its subscription is
   still registered.
   */
  lemma CancelledCommandReturns(pick: Matcher<byte>, c: CS.Console, t: Talk, i: nat)
    requires CS.Inv(c) && t.written && i < |t.turns| && t.turns[i].cancel
    requires |t.turns| - i > PublishesIn(t.pause) + PublishedBy(t.turns)
    ensures var (h, r) := (Wait(pick, c, t), Waited(pick, Hear(pick, c, t).1));
            && Over(pick, h) && !r.Blocked?
            && (!r.Ok? && Mine(c, t) in h.console.subs ==> r == Err(Ctx))
            && (!r.Ok? && Mine(c, t) !in h.console.subs ==> r == Err(Ctx) || r == Err(Closed))
  {
    StartsEmpty(c, t);
    ListenEnds(pick, Subscribed(c, t), Mine(c, t), false, [], t.turns, i);
    ClosedMeansGone(pick, c, t);
  }

  /** On a silent target: nothing is published while the command waits, and its feed stays open. */
  lemma SilentTargetTimesOut(pick: Matcher<byte>, c: CS.Console, t: Talk, i: nat)
    requires CS.Inv(c) && t.written && i < |t.turns| && t.turns[i].cancel
    requires PublishesIn(t.pause) == 0 && PublishedBy(t.turns) == 0
    requires Mine(c, t) in Wait(pick, c, t).console.subs && FindIndex(pick, []).None?
    ensures Waited(pick, Hear(pick, c, t).1) == Err(Ctx)
  {
    CancelledCommandReturns(pick, c, t, i);
    StartsEmpty(c, t);
    HearsNothing(pick, Subscribed(c, t), Mine(c, t), false, [], t.turns);
  }

  lemma {:induction false} HearsNothing(pick: Matcher<byte>, c: CS.Console, id: nat, cancelled: bool, acc: seq<byte>,
                                        turns: seq<WL.Turn>)
    requires CS.Inv(c) && id in c.all && PendingOf(c, id) == 0 && PublishedBy(turns) == 0
    ensures Listen(pick, c, id, cancelled, acc, turns).chunks == []
    decreases |turns|
  {
    if turns != [] {
      var r, e := ListenOnce(pick, c, id, cancelled, acc, turns);
      if r.Nothing? {
        HearsNothing(pick, e, id, cancelled || turns[0].cancel, acc, turns[1..]);
      }
    }
  }

  // ---- A burst of one chunk more than a queue holds ---------------------------------------------------

  /** n times this chunk. */
  function Times(n: nat, chunk: seq<byte>): seq<seq<byte>> {
    seq(n, _ => chunk)
  }

  function Publishes(n: nat, chunk: seq<byte>): seq<CS.Event> {
    seq(n, _ => CS.EvPublish(chunk))
  }

  /** The subscription has been sent n chunks of a burst and has received k. */
  ghost predicate Sent(c: CS.Console, id: nat, chunk: seq<byte>, n: nat, k: nat, over: bool) {
    && id in c.all && c.all[id].ch == CS.Chan(Times(n, chunk), k, over) && c.all[id].closed == over
    && (id in c.subs <==> !over) && !c.closed
  }

  lemma PublishedOnce(c: CS.Console, id: nat, chunk: seq<byte>, n: nat)
    requires Sent(c, id, chunk, n, 0, false) && n < c.qcap
    ensures Sent(CS.Publish(c, chunk), id, chunk, n + 1, 0, false) && CS.Publish(c, chunk).qcap == c.qcap
  {
    assert Times(n, chunk) + [chunk] == Times(n + 1, chunk);
  }

  lemma PublishedTooMany(c: CS.Console, id: nat, chunk: seq<byte>, n: nat)
    requires Sent(c, id, chunk, n, 0, false) && n == c.qcap
    ensures Sent(CS.Publish(c, chunk), id, chunk, n, 0, true)
  {
  }

  lemma SettlePublish(c: CS.Console, id: nat, chunk: seq<byte>, n: nat)
    requires n > 0
    ensures Settle(c, id, Publishes(n, chunk)) == Settle(CS.Publish(c, chunk), id, Publishes(n - 1, chunk))
  {
    assert Publishes(n, chunk)[0] == CS.EvPublish(chunk) && Publishes(n, chunk)[1..] == Publishes(n - 1, chunk);
  }

  /** A burst that fills the queue, and one chunk more, which detaches the reader. */
  lemma {:induction false} BurstDetaches(c: CS.Console, id: nat, chunk: seq<byte>, n: nat)
    requires Sent(c, id, chunk, n, 0, false) && n <= c.qcap
    ensures Sent(Settle(c, id, Publishes(c.qcap - n + 1, chunk)), id, chunk, c.qcap, 0, true)
    decreases c.qcap - n
  {
    SettlePublish(c, id, chunk, c.qcap - n + 1);
    if n < c.qcap {
      PublishedOnce(c, id, chunk, n);
      BurstDetaches(CS.Publish(c, chunk), id, chunk, n + 1);
    } else {
      PublishedTooMany(c, id, chunk, n);
      assert Publishes(0, chunk) == [];
    }
  }

  // ---- ... and what the wait makes of it ------------------------------------------------------------------

  /** n turns in which nobody else does anything. */
  function Idles(n: nat): seq<WL.Turn> {
    seq(n, _ => WS.IDLE)
  }

  /** No number of these chunks holds a match. */
  ghost predicate NoMatchIn(pick: Matcher<byte>, chunk: seq<byte>, n: nat) {
    !Expect(pick, [], Times(n, chunk)).1
  }

  /** The next turn takes a chunk, or finds the end. */
  lemma IdleTurn(pick: Matcher<byte>, c: CS.Console, id: nat, acc: seq<byte>, chunk: seq<byte>, n: nat, k: nat,
                 rest: seq<WL.Turn>) returns (e: CS.Console)
    requires Sent(c, id, chunk, n, k, true) && k <= n
    ensures k < n ==> Sent(e, id, chunk, n, k + 1, true)
    ensures k == n ==> Listen(pick, c, id, false, acc, [WS.IDLE] + rest) == Hearing(c, [], ConsoleClosed)
    ensures k < n && FindIndex(pick, acc + chunk).None? ==>
              Listen(pick, c, id, false, acc, [WS.IDLE] + rest)
              == Then(chunk, Listen(pick, e, id, false, Trim(acc + chunk), rest))
  {
    e := CS.Receive(c, id);
    assert ([WS.IDLE] + rest)[1..] == rest && ([WS.IDLE] + rest)[0] == WS.IDLE;
    assert k < n ==> c.all[id].ch.Queue()[0] == chunk;
  }

  lemma MissesFirst(pick: Matcher<byte>, acc: seq<byte>, chunk: seq<byte>, n: nat)
    requires n > 0 && !Expect(pick, acc, Times(n, chunk)).1
    ensures FindIndex(pick, acc + chunk).None? && !Expect(pick, Trim(acc + chunk), Times(n - 1, chunk)).1
  {
    assert Times(n, chunk)[0] == chunk && Times(n, chunk)[1..] == Times(n - 1, chunk);
  }

  lemma {:induction false} TakesBurst(pick: Matcher<byte>, c: CS.Console, id: nat, acc: seq<byte>, chunk: seq<byte>,
                                      n: nat, k: nat)
    requires Sent(c, id, chunk, n, k, true) && k <= n && !Expect(pick, acc, Times(n - k, chunk)).1
    ensures var h := Listen(pick, c, id, false, acc, Idles(n - k + 1));
            h.chunks == Times(n - k, chunk) && h.ending == ConsoleClosed && !h.console.closed
    decreases n - k
  {
    var rest := Idles(n - k);
    assert Idles(n - k + 1) == [WS.IDLE] + rest;
    if k < n {
      MissesFirst(pick, acc, chunk, n - k);
      var e := IdleTurn(pick, c, id, acc, chunk, n, k, rest);
      TakesBurst(pick, e, id, Trim(acc + chunk), chunk, n, k + 1);
      assert Times(n - k, chunk) == [chunk] + Times(n - k - 1, chunk);
    } else {
      var e := IdleTurn(pick, c, id, acc, chunk, n, k, rest);
    }
  }

  /** The exchange in which the burst comes between the subscription and the first select. */
  function Flood(c: CS.Console, chunk: seq<byte>): Talk {
    Talk([], Publishes(c.qcap + 1, chunk), true, Idles(c.qcap + 1), [])
  }

  lemma FloodDetaches(c: CS.Console, chunk: seq<byte>)
    requires CS.Inv(c) && !c.closed
    ensures Mine(c, Flood(c, chunk)) == c.nextID
    ensures Sent(Subscribed(c, Flood(c, chunk)), c.nextID, chunk, c.qcap, 0, true)
  {
    assert Times(0, chunk) == [];
    BurstDetaches(CS.Subscribe(c, 0), c.nextID, chunk, 0);
  }

  /**
   Whatever the queue's capacity, a burst of one chunk more, printed before the wait gets to read, ends it with the
   closed error, though the console is open: being too slow reads as the console being closed.
   */
  lemma TooSlowReadsClosed(pick: Matcher<byte>, c: CS.Console, chunk: seq<byte>)
    requires CS.Inv(c) && !c.closed && NoMatchIn(pick, chunk, c.qcap)
    ensures Hear(pick, c, Flood(c, chunk)).1 == Heard(Times(c.qcap, chunk), ConsoleClosed)
    ensures Waited(pick, Hear(pick, c, Flood(c, chunk)).1) == Err(Closed)
    ensures !Wait(pick, c, Flood(c, chunk)).console.closed
  {
    FloodDetaches(c, chunk);
    TakesBurst(pick, Subscribed(c, Flood(c, chunk)), c.nextID, [], chunk, c.qcap, 0);
  }

  // ---- No subscription is left behind ---------------------------------------------------------------

  /**
   An exchange whose line could not be written, or whose wait has ended, leaves no subscription of its own: it is
   unregistered and its channel, if there is one, closed.
   */
  lemma HearCloses(pick: Matcher<byte>, c: CS.Console, t: Talk)
    requires CS.Inv(c)
    requires t.written ==> Wait(pick, c, t).ending != NotCut || Expect(pick, [], Wait(pick, c, t).chunks).1
    ensures var (d, id) := (Hear(pick, c, t).0, Mine(c, t));
            && id in d.all && id !in d.subs && d.all[id].ch.Chan? && d.all[id].ch.closed
  {
    SubscribedFollows(c, t);
    if t.written {
      WaitFollows(pick, c, t);
      var h := Wait(pick, c, t).console;
      SettleFollows(h, Mine(c, t), t.after, Began(c, t), CS.Consumed(h.all[Mine(c, t)]));
      LeavesNothing(Settle(h, Mine(c, t), t.after), Mine(c, t));
    } else {
      LeavesNothing(Subscribed(c, t), Mine(c, t));
    }
  }

  lemma StillRecorded(c: CS.Console, id: nat)
    requires CS.Inv(c) && id in c.all
    ensures CS.Inv(CS.Unsubscribe(c, id)) && id in CS.Unsubscribe(c, id).all && id !in CS.Unsubscribe(c, id).subs
  {
    CS.UnsubscribeExactly(c, id, id);
    UnsubscribeIsLater(c, id);
  }

  lemma Forgotten(d: CS.Console, id: nat)
    requires CS.Inv(d) && id in d.all && id !in d.subs
    ensures d.all[id].ch.Chan? && d.all[id].ch.closed
  {
    CS.RecordFacts(d, id);
  }

  lemma LeavesNothing(c: CS.Console, id: nat)
    requires CS.Inv(c) && id in c.all
    ensures var d := CS.Unsubscribe(c, id);
            id in d.all && id !in d.subs && d.all[id].ch.Chan? && d.all[id].ch.closed
  {
    StillRecorded(c, id);
    Forgotten(CS.Unsubscribe(c, id), id);
  }
}
