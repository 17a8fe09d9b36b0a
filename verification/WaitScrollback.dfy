/**
 How far back a wait that asks for scrollback may look, and when it can be satisfied by output from before it began.
 */
module WaitScrollback {
  import opened Bytes
  import opened Matching
  import opened Scanner
  import CS = ConsoleState
  import PW = PatternWait
  import WL = WaitLoop

  /** Where in the stream a subscription made now with this much replay would begin. */
  function Reach(c: CS.Console, scroll: int): int {
    PW.Len(c) - |CS.ReplayOf(c, scroll)|
  }

  /** The console at some later time. */
  ghost predicate Since(c: CS.Console, d: CS.Console) {
    CS.Stream(c) <= CS.Stream(d) && PW.ResetAt(c) <= PW.ResetAt(d) && c.cap == d.cap
  }

  lemma StepSince(c: CS.Console, e: CS.Event)
    requires CS.Inv(c)
    ensures CS.Inv(CS.Step(c, e)) && Since(c, CS.Step(c, e))
  {
    CS.StepInv(c, e);
    PW.StreamGrows(c, e);
  }

  lemma SinceTransitive(c: CS.Console, d: CS.Console, e: CS.Console)
    requires Since(c, d) && Since(d, e)
    ensures Since(c, e)
  {
  }

  lemma {:induction false} RunSince(c: CS.Console, es: seq<CS.Event>)
    requires CS.Inv(c)
    ensures CS.Inv(CS.Run(c, es)) && Since(c, CS.Run(c, es))
    decreases es
  {
    if es != [] {
      StepSince(c, es[0]);
      RunSince(CS.Step(c, es[0]), es[1..]);
    }
  }

  lemma RingLength(c: CS.Console)
    requires CS.Inv(c)
    ensures |CS.Ring(c)| == Min(PW.Len(c) - PW.ResetAt(c), c.cap)
  {
    PW.TotalSinceReset(c);
  }

  /** As time goes on a subscription begins no earlier. */
  lemma ReachGrows(c: CS.Console, d: CS.Console, scroll: int)
    requires CS.Inv(c) && CS.Inv(d) && Since(c, d)
    ensures Reach(c, scroll) <= Reach(d, scroll)
  {
    RingLength(c);
    RingLength(d);
  }

  /** The scrollback a wait would be given. */
  lemma RecentIsTail(c: CS.Console, scroll: int)
    requires CS.Inv(c)
    ensures 0 <= Reach(c, scroll) <= PW.Len(c)
    ensures CS.Stream(c)[Reach(c, scroll)..] == CS.ReplayOf(c, scroll)
  {
    CS.ReplayIsTail(c, scroll);
  }

  // ---- A floor under everything a wait is fed ------------------------------------------------

  /** In state x of a wait that began when the stream was g bytes long, nothing fed lies before position f, and once
      anything has been fed so has all of the stream up to g from there on. */
  ghost predicate Floor(p: PW.Params, x: PW.World, f: nat, g: nat) {
    && f <= g <= PW.Len(x.c)
    && (x.w.first.None? ==> f <= Reach(x.c, p.includeScrollback) && (x.w.phase.Arming? || x.w.phase.Subscribing?))
    && (x.w.phase.Subscribing? ==> (x.w.first.None? <==> x.w.retries == 0))
    && (x.w.first.Some? ==> f <= x.w.origin)
    && (!x.w.phase.Arming? ==> g <= x.w.armAt)
    && (x.w.phase.Draining? ==> Past(x.c, x.w.phase.id, g))
    && (HasFed(x.w) ==> g <= x.w.origin + |x.w.fed|)
  }

  /** The scanner has been fed something, if only enough for an empty match. */
  predicate HasFed(w: PW.Waiter) {
    w.fed != [] ||
    match w.phase
    case Leaving(_, found, _) => found.Some?
    case Deciding(found, _) => found.Some?
    case Finished(o) => o.Matched?
    case _ => false
  }

  /** The subscription was made when the stream was at least g bytes long. */
  ghost predicate Past(c: CS.Console, id: nat, g: nat) {
    id in c.all && c.all[id].at <= |c.chunks| && g <= |Flatten(c.chunks[..c.all[id].at])|
  }

  lemma FirstReceived(sent: seq<seq<byte>>, r: nat)
    requires 1 <= r <= |sent|
    ensures |Flatten(sent[..r])| >= |sent[0]|
  {
    FlattenSplit(sent[..r], 1);
    assert sent[..r][..1] == [sent[0]];
    FlattenOne(sent[0]);
  }

  /** Having received anything at all is having received the whole replay. */
  lemma ReceivedReplay(c: CS.Console, id: nat)
    requires CS.Inv(c) && id in c.all && c.all[id].ch.Chan? && c.all[id].ch.received >= 1
    ensures c.all[id].at <= |c.chunks|
    ensures CS.From(c, c.all[id]) + |CS.Consumed(c.all[id])| >= |Flatten(c.chunks[..c.all[id].at])|
  {
    var s := c.all[id];
    assert CS.SubOK(c, id, s);
    FirstReceived(s.ch.sent, s.ch.received);
    assert s.replay != [] ==> s.ch.sent[0] == s.replay;
  }

  lemma PastStays(c: CS.Console, e: CS.Event, id: nat, g: nat)
    requires CS.Inv(c) && Past(c, id, g) && e != CS.EvReceive(id)
    ensures Past(CS.Step(c, e), id, g)
  {
    var d := CS.Step(c, e);
    assert CS.SubOK(c, id, c.all[id]);
    PW.OthersOnlyAdd(c, e, id);
    PW.SamePrefix(c.chunks, d.chunks, c.all[id].at);
  }

  lemma EnvFloor(p: PW.Params, x: PW.World, e: CS.Event, f: nat, g: nat)
    requires PW.WInv(p, x) && Floor(p, x, f, g) && PW.Foreign(x.w, e)
    ensures Floor(p, x.(c := CS.Step(x.c, e)), f, g)
  {
    StepSince(x.c, e);
    ReachGrows(x.c, CS.Step(x.c, e), p.includeScrollback);
    if x.w.phase.Draining? {
      PastStays(x.c, e, x.w.phase.id, g);
    }
  }

  lemma SubscribeFloor(p: PW.Params, x: PW.World, r: int, f: nat, g: nat)
    requires PW.WInv(p, x) && Floor(p, x, f, g) && x.w.phase == PW.Subscribing(r)
    ensures Floor(p, PW.DoSubscribe(x, r), f, g)
  {
    PW.SubscribeLinks(x, r);
    PW.ReplayBounded(x.c, r);
    assert x.c.chunks[..|x.c.chunks|] == x.c.chunks;
    assert x.w.retries == 0 ==> |CS.ReplayOf(x.c, r)| <= |CS.ReplayOf(x.c, p.includeScrollback)|;
  }

  lemma TakeReceives(p: PW.Params, x: PW.World, id: nat, chunk: seq<byte>)
    requires id in x.c.all && x.c.all[id].ch.Queue() != []
    ensures var c := PW.Take(p, x, id, chunk).c;
            && c.chunks == x.c.chunks && id in c.all && c.all[id].at == x.c.all[id].at
            && c.all[id].ch.Chan? && c.all[id].ch.received >= 1
  {
  }

  /** The floor under a waiter that has just been fed from a subscription. */
  lemma FedFloor(p: PW.Params, x: PW.World, y: PW.World, id: nat, f: nat, g: nat)
    requires Floor(p, x, f, g) && x.w.phase == PW.Draining(id)
    requires CS.Stream(y.c) == CS.Stream(x.c) && Past(y.c, id, g)
    requires y.w.origin == x.w.origin && y.w.first == x.w.first && y.w.armAt == x.w.armAt
    requires y.w.phase == x.w.phase || y.w.phase.Leaving?
    requires g <= y.w.origin + |y.w.fed|
    ensures Floor(p, y, f, g)
  {
  }

  lemma TakeFloor(p: PW.Params, x: PW.World, id: nat, f: nat, g: nat)
    requires PW.WInv(p, x) && Floor(p, x, f, g) && x.w.phase == PW.Draining(id) && x.c.all[id].ch.Queue() != []
    ensures Floor(p, PW.Take(p, x, id, x.c.all[id].ch.Queue()[0]), f, g)
  {
    var chunk := x.c.all[id].ch.Queue()[0];
    var y := PW.Take(p, x, id, chunk);
    PW.TakeLinks(p, x, id);
    TakeReceives(p, x, id, chunk);
    ReceivedReplay(y.c, id);
    FedFloor(p, x, y, id, f, g);
  }

  lemma DrainFloor(p: PW.Params, x: PW.World, id: nat, preferCtx: bool, f: nat, g: nat)
    requires PW.WInv(p, x) && Floor(p, x, f, g) && x.w.phase == PW.Draining(id)
    ensures Floor(p, PW.Drain(p, x, id, preferCtx), f, g)
  {
    PW.DrainCases(p, x, id, preferCtx);
    if x.c.all[id].ch.Queue() != [] {
      TakeFloor(p, x, id, f, g);
    }
  }

  lemma LeaveFloor(p: PW.Params, x: PW.World, id: nat, found: Option<seq<byte>>, retry: bool, f: nat, g: nat)
    requires PW.WInv(p, x) && Floor(p, x, f, g) && x.w.phase == PW.Leaving(id, found, retry)
    ensures Floor(p, PW.World(CS.Unsubscribe(x.c, id), x.w.(phase := PW.Deciding(found, retry))), f, g)
  {
    StepSince(x.c, CS.EvUnsubscribe(id));
  }

  lemma ActFloor(p: PW.Params, x: PW.World, preferCtx: bool, f: nat, g: nat)
    requires PW.WInv(p, x) && Floor(p, x, f, g)
    ensures Floor(p, PW.Act(p, x, preferCtx), f, g)
  {
    match x.w.phase
    case Subscribing(r) => SubscribeFloor(p, x, r, f, g);
    case Draining(id) => DrainFloor(p, x, id, preferCtx, f, g);
    case Leaving(id, found, retry) => LeaveFloor(p, x, id, found, retry, f, g);
    case _ =>
  }

  /** The floor holds, and the stream only grows, through every run of a wait. */
  lemma {:induction false} RunFloor(p: PW.Params, x: PW.World, ms: seq<PW.Move>, f: nat, g: nat)
    requires Fresh(p.pick, WAIT_MATCH_WIDTH) && PW.WInv(p, x) && Floor(p, x, f, g)
    ensures Floor(p, PW.Run(p, x, ms), f, g) && PW.WInv(p, PW.Run(p, x, ms))
    decreases ms
  {
    if ms != [] {
      PW.GoKeeps(p, x, ms[0]);
      match ms[0] {
        case Env(e) =>
          if PW.Foreign(x.w, e) {
            EnvFloor(p, x, e, f, g);
          }
        case Cancel =>
        case Advance(preferCtx) => ActFloor(p, x, preferCtx, f, g);
      }
      RunFloor(p, PW.Go(p, x, ms[0]), ms[1..], f, g);
    }
  }

  lemma GoSince(p: PW.Params, x: PW.World, m: PW.Move)
    requires CS.Inv(x.c)
    ensures CS.Inv(PW.Go(p, x, m).c) && Since(x.c, PW.Go(p, x, m).c)
  {
    match m
    case Env(e) => StepSince(x.c, e);
    case Cancel =>
    case Advance(preferCtx) => ActSince(p, x, preferCtx);
  }

  /** What the waiter's own action does to the console: nothing, or one event. */
  lemma ActEvent(p: PW.Params, x: PW.World, preferCtx: bool) returns (e: Option<CS.Event>)
    ensures PW.Act(p, x, preferCtx).c == if e.Some? then CS.Step(x.c, e.value) else x.c
  {
    match x.w.phase
    case Subscribing(r) => e := Some(CS.EvSubscribe(r));
    case Draining(id) => e := DrainEvent(p, x, id, preferCtx);
    case Leaving(id, _, _) => e := Some(CS.EvUnsubscribe(id));
    case _ => e := None;
  }

  lemma DrainEvent(p: PW.Params, x: PW.World, id: nat, preferCtx: bool) returns (e: Option<CS.Event>)
    ensures PW.Drain(p, x, id, preferCtx).c == if e.Some? then CS.Step(x.c, e.value) else x.c
  {
    e := None;
    if id in x.c.all && PW.Select(x.c.all[id].ch, x.w.cancelled, preferCtx).ByChunk? {
      e := Some(CS.EvReceive(id));
    }
  }

  lemma ActSince(p: PW.Params, x: PW.World, preferCtx: bool)
    requires CS.Inv(x.c)
    ensures CS.Inv(PW.Act(p, x, preferCtx).c) && Since(x.c, PW.Act(p, x, preferCtx).c)
  {
    var e := ActEvent(p, x, preferCtx);
    if e.Some? {
      StepSince(x.c, e.value);
    }
  }

  lemma {:induction false} WaitSince(p: PW.Params, x: PW.World, ms: seq<PW.Move>)
    requires CS.Inv(x.c)
    ensures CS.Inv(PW.Run(p, x, ms).c) && Since(x.c, PW.Run(p, x, ms).c)
    decreases ms
  {
    if ms != [] {
      GoSince(p, x, ms[0]);
      WaitSince(p, PW.Go(p, x, ms[0]), ms[1..]);
    }
  }

  // ---- Matches that begin before the wait --------------------------------------------------------

  /** Where in the stream the match a finished wait reports begins and ends. */
  function MatchStart(pick: Matcher<byte>, x: PW.World): nat {
    match FindIndex(pick, x.w.fed)
    case None => 0
    case Some((lo, _)) => x.w.origin + lo
  }

  function MatchEnd(pick: Matcher<byte>, x: PW.World): nat {
    match FindIndex(pick, x.w.fed)
    case None => 0
    case Some((_, hi)) => x.w.origin + hi
  }

  predicate Found(x: PW.World) {
    x.w.phase.Finished? && x.w.phase.outcome.Matched?
  }

  /** No position in these bytes can begin a match, whatever output follows them. */
  ghost predicate Inert(pick: Matcher<byte>, stale: seq<byte>) {
    forall j: nat, u: seq<byte> {:trigger pick(stale[j..] + u)} :: j < |stale| ==> pick(stale[j..] + u).None?
  }

  lemma Slice(s: seq<byte>, a: nat, b: nat, lo: nat)
    requires a + lo <= b <= |s|
    ensures s[a..b][lo..] == s[a + lo..b]
  {
  }

  lemma SplitAt(s: seq<byte>, t: seq<byte>, a: nat, e: nat)
    requires s <= t && a <= |s| <= e <= |t|
    ensures t[a..e] == s[a..] + t[|s|..e]
  {
  }

  lemma NoStaleStart(pick: Matcher<byte>, s: seq<byte>, t: seq<byte>, f: nat, b: nat, e: nat)
    requires f <= b < |s| <= e <= |t| && s <= t && Inert(pick, s[f..])
    ensures pick(t[b..e]).None?
  {
    SplitAt(s, t, b, e);
    assert s[f..][b - f..] == s[b..];
    assert pick(s[f..][b - f..] + t[|s|..e]).None?;
  }

  /** If the scrollback the wait was given is inert, the match begins no earlier than the wait did. */
  lemma InertNotStale(p: PW.Params, x: PW.World, s: seq<byte>, f: nat)
    requires PW.WInv(p, x) && Floor(p, x, f, |s|) && s <= CS.Stream(x.c) && Found(x) && Inert(p.pick, s[f..])
    ensures MatchStart(p.pick, x) >= |s|
  {
    FindFromIsLeftmost(p.pick, x.w.fed, 0);
    var a, e := x.w.origin, x.w.origin + |x.w.fed|;
    var lo := FindIndex(p.pick, x.w.fed).value.0;
    Slice(CS.Stream(x.c), a, e, lo);
    if a + lo < |s| {
      NoStaleStart(p.pick, s, CS.Stream(x.c), f, a + lo, e);
    }
  }

  lemma StartFloor(p: PW.Params, c: CS.Console, d: CS.Console) returns (f: nat)
    requires CS.Inv(c) && CS.Inv(d) && Since(c, d)
    ensures f <= PW.Len(c) && CS.Stream(c)[f..] == CS.ReplayOf(c, p.includeScrollback)
    ensures Floor(p, PW.World(d, PW.START_WAITER), f, PW.Len(c))
  {
    RecentIsTail(c, p.includeScrollback);
    ReachGrows(c, d, p.includeScrollback);
    f := Reach(c, p.includeScrollback);
  }

  lemma PlayFloor(p: PW.Params, d: CS.Console, turns: seq<WL.Turn>, f: nat, g: nat)
    requires Fresh(p.pick, WAIT_MATCH_WIDTH) && CS.Inv(d) && Floor(p, PW.World(d, PW.START_WAITER), f, g)
    ensures var x := WL.Play(p, PW.World(d, PW.START_WAITER), turns).0;
            Floor(p, x, f, g) && PW.WInv(p, x) && Since(d, x.c)
  {
    var x0 := PW.World(d, PW.START_WAITER);
    var used := WL.PlayIsRun(p, x0, turns);
    PW.StartInv(p, d);
    RunFloor(p, x0, WL.AllMoves(used), f, g);
    WaitSince(p, x0, WL.AllMoves(used));
  }

  /** A wait begun at c, or later, with inert scrollback at c reports no match that begins before c. */
  lemma WaitNotStale(p: PW.Params, c: CS.Console, d: CS.Console, turns: seq<WL.Turn>)
    requires Fresh(p.pick, WAIT_MATCH_WIDTH) && CS.Inv(c) && CS.Inv(d) && Since(c, d)
    requires Inert(p.pick, CS.ReplayOf(c, p.includeScrollback))
    ensures var x := WL.Play(p, PW.World(d, PW.START_WAITER), turns).0;
            Found(x) ==> MatchStart(p.pick, x) >= PW.Len(c)
  {
    var x := WL.Play(p, PW.World(d, PW.START_WAITER), turns).0;
    var f := StartFloor(p, c, d);
    PlayFloor(p, d, turns, f, PW.Len(c));
    SinceTransitive(c, d, x.c);
    if Found(x) {
      InertNotStale(p, x, CS.Stream(c), f);
    }
  }

  // ---- ... and they do happen ------------------------------------------------------------------

  const IDLE: WL.Turn := WL.Turn([], false, false)

  /** Armed and subscribed, the waiter has the scrollback in its queue. */
  lemma Subscribed(p: PW.Params, c: CS.Console) returns (x: PW.World)
    requires CS.Inv(c) && !c.closed && CS.ReplayOf(c, p.includeScrollback) != []
    ensures x == WL.TakeTurn(p, WL.TakeTurn(p, PW.World(c, PW.START_WAITER), IDLE), IDLE)
    ensures x.w == x.w.(phase := PW.Draining(c.nextID), scan := FRESH_SCAN, fed := [], cancelled := false)
    ensures x.w.origin == PW.Len(c) - |CS.ReplayOf(c, p.includeScrollback)|
    ensures CS.Inv(x.c) && x.c.chunks == c.chunks && !x.c.closed && x.c.qcap == c.qcap
    ensures c.nextID in x.c.subs && c.nextID in x.c.all
    ensures x.c.all[c.nextID].ch == CS.Chan([CS.ReplayOf(c, p.includeScrollback)], 0, false)
  {
    var x0 := PW.World(c, PW.START_WAITER);
    var x1 := WL.TakeTurn(p, x0, IDLE);
    x := WL.TakeTurn(p, x1, IDLE);
    PW.SubscribeLinks(x1, p.includeScrollback);
    assert CS.EMPTY_CHAN.Send(CS.ReplayOf(c, p.includeScrollback)).sent == [CS.ReplayOf(c, p.includeScrollback)];
  }

  lemma PlayOn(p: PW.Params, x: PW.World, t: WL.Turn, rest: seq<WL.Turn>)
    requires !x.w.phase.Finished?
    ensures WL.Play(p, x, [t] + rest) == WL.Play(p, WL.TakeTurn(p, x, t), rest)
  {
    assert ([t] + rest)[1..] == rest;
  }

  /** Fed a chunk that completes a match, the waiter reports it in three turns. */
  lemma Reports(p: PW.Params, x: PW.World, id: nat, chunk: seq<byte>, t: WL.Turn)
    requires !x.w.cancelled && x.w.phase == PW.Draining(id) && WL.Before(p, x, t).w == x.w && !t.preferCtx
    requires id in WL.Before(p, x, t).c.all && Feed(p.pick, x.w.scan, chunk).1.Some?
    requires WL.Before(p, x, t).c.all[id].ch.Queue() != [] && WL.Before(p, x, t).c.all[id].ch.Queue()[0] == chunk
    ensures var y := WL.Play(p, x, [t, IDLE, IDLE]).0;
            && Found(y) && y.w.origin == x.w.origin && y.w.fed == x.w.fed + chunk
            && y.c == CS.Unsubscribe(CS.Receive(WL.Before(p, x, t).c, id), id)
  {
    var y1 := WL.TakeTurn(p, x, t);
    var text := Feed(p.pick, x.w.scan, chunk).1;
    PW.DrainTakes(p, WL.Before(p, x, t), id);
    assert y1.w.phase == PW.Leaving(id, text, false);
    var y2 := WL.TakeTurn(p, y1, IDLE);
    assert y2.w.phase == PW.Deciding(text, false);
    var y3 := WL.TakeTurn(p, y2, IDLE);
    assert [t, IDLE, IDLE] == [t] + ([IDLE] + ([IDLE] + []));
    PlayOn(p, x, t, [IDLE] + ([IDLE] + []));
    PlayOn(p, y1, IDLE, [IDLE] + []);
    PlayOn(p, y2, IDLE, []);
  }

  /** Armed and subscribed in two turns; the rest of the turns find it there. */
  lemma AfterSubscribing(p: PW.Params, c: CS.Console, x: PW.World, rest: seq<WL.Turn>)
    requires x == WL.TakeTurn(p, WL.TakeTurn(p, PW.World(c, PW.START_WAITER), IDLE), IDLE)
    ensures WL.Play(p, PW.World(c, PW.START_WAITER), [IDLE] + ([IDLE] + rest)) == WL.Play(p, x, rest)
  {
    PlayOn(p, PW.World(c, PW.START_WAITER), IDLE, [IDLE] + rest);
    PlayOn(p, WL.TakeTurn(p, PW.World(c, PW.START_WAITER), IDLE), IDLE, rest);
  }

  lemma FreshFeed(pick: Matcher<byte>, chunk: seq<byte>)
    requires Fresh(pick, WAIT_MATCH_WIDTH)
    ensures Feed(pick, FRESH_SCAN, chunk).1.Some? <==> FindIndex(pick, chunk).Some?
    ensures FindIndex(pick, chunk).None? ==> ScanInv(pick, Feed(pick, FRESH_SCAN, chunk).0, chunk)
  {
    FreshScanInv(pick);
    FeedRefines(pick, FRESH_SCAN, [], chunk);
    assert [] + chunk == chunk;
  }

  /** Scrollback that holds a match is reported at once, before anything new arrives. */
  lemma OldMatchReported(p: PW.Params, c: CS.Console) returns (turns: seq<WL.Turn>)
    requires Fresh(p.pick, WAIT_MATCH_WIDTH) && CS.Inv(c) && !c.closed
    requires CS.ReplayOf(c, p.includeScrollback) != []
    requires FindIndex(p.pick, CS.ReplayOf(c, p.includeScrollback)).Some?
    ensures var x := WL.Play(p, PW.World(c, PW.START_WAITER), turns).0;
            && Found(x) && x.w.origin == PW.Len(c) - |CS.ReplayOf(c, p.includeScrollback)|
            && x.w.fed == CS.ReplayOf(c, p.includeScrollback) && x.c.chunks == c.chunks
  {
    var replay := CS.ReplayOf(c, p.includeScrollback);
    var x := Subscribed(p, c);
    FreshFeed(p.pick, replay);
    Reports(p, x, c.nextID, replay, IDLE);
    assert [] + replay == replay;
    turns := [IDLE] + ([IDLE] + [IDLE, IDLE, IDLE]);
    AfterSubscribing(p, c, x, [IDLE, IDLE, IDLE]);
  }

  lemma ReplayReceived(c: CS.Console, id: nat, replay: seq<byte>)
    requires CS.Inv(c) && id in c.all && id in c.subs && c.all[id].ch == CS.Chan([replay], 0, false)
    ensures var d := CS.Receive(c, id);
            && CS.Inv(d) && d.qcap == c.qcap && id in d.all && id in d.subs
            && d.all[id].ch == CS.Chan([replay], 1, false) && !d.all[id].closed
  {
    CS.ReceiveInv(c, id);
    assert CS.SubOK(c, id, c.all[id]);
  }

  /** Fed scrollback without a match, the waiter goes on waiting. */
  lemma ReplayFed(p: PW.Params, x: PW.World, id: nat, replay: seq<byte>)
    requires Fresh(p.pick, WAIT_MATCH_WIDTH) && FindIndex(p.pick, replay).None?
    requires x.w == x.w.(phase := PW.Draining(id), scan := FRESH_SCAN, fed := [], cancelled := false)
    requires id in x.c.all && x.c.all[id].ch.Queue() != [] && x.c.all[id].ch.Queue()[0] == replay
    ensures var y := WL.TakeTurn(p, x, IDLE);
            && y.c == CS.Receive(x.c, id) && ScanInv(p.pick, y.w.scan, replay)
            && y.w == x.w.(scan := y.w.scan, fed := replay)
  {
    FreshFeed(p.pick, replay);
    assert [] + replay == replay;
    PW.DrainTakes(p, x, id);
  }

  /** Others publish u, and nothing else, before the waiter's next action. */
  function Output(u: seq<byte>): WL.Turn {
    WL.Turn([CS.EvPublish(u)], false, false)
  }

  lemma PublishedTo(c: CS.Console, id: nat, replay: seq<byte>, u: seq<byte>)
    requires id in c.all && id in c.subs && !c.all[id].closed && c.qcap >= 1
    requires c.all[id].ch == CS.Chan([replay], 1, false)
    ensures id in CS.Publish(c, u).all && CS.Publish(c, u).all[id].ch.Queue() == [u]
  {
    assert c.all[id].ch.Send(u) == CS.Chan([replay] + [u], 1, false);
  }

  lemma SettleOne(p: PW.Params, y: PW.World, e: CS.Event)
    ensures WL.Settle(p, y, [e]) == PW.Go(p, y, PW.Env(e))
  {
    assert [e][..0] == [];
  }

  lemma OutputQueued(p: PW.Params, y: PW.World, id: nat, replay: seq<byte>, u: seq<byte>)
    requires CS.Inv(y.c) && id in y.c.all && id in y.c.subs && !y.c.all[id].closed
    requires y.c.all[id].ch == CS.Chan([replay], 1, false)
    ensures var z := WL.Before(p, y, Output(u));
            z.w == y.w && id in z.c.all && z.c.all[id].ch.Queue() == [u]
  {
    SettleOne(p, y, CS.EvPublish(u));
    PublishedTo(y.c, id, replay, u);
  }

  /** Scrollback without a match that output u completes to one is reported once u arrives. */
  lemma CompletedMatchReported(p: PW.Params, c: CS.Console, u: seq<byte>) returns (turns: seq<WL.Turn>)
    requires Fresh(p.pick, WAIT_MATCH_WIDTH) && CS.Inv(c) && !c.closed
    requires CS.ReplayOf(c, p.includeScrollback) != []
    requires FindIndex(p.pick, CS.ReplayOf(c, p.includeScrollback)).None?
    requires FindIndex(p.pick, CS.ReplayOf(c, p.includeScrollback) + u).Some?
    ensures var x := WL.Play(p, PW.World(c, PW.START_WAITER), turns).0;
            && Found(x) && x.w.origin == PW.Len(c) - |CS.ReplayOf(c, p.includeScrollback)|
            && x.w.fed == CS.ReplayOf(c, p.includeScrollback) + u
  {
    var replay := CS.ReplayOf(c, p.includeScrollback);
    var x := Subscribed(p, c);
    ReplayFed(p, x, c.nextID, replay);
    ReplayReceived(x.c, c.nextID, replay);
    var y := WL.TakeTurn(p, x, IDLE);
    FeedReports(p.pick, y.w.scan, replay, u);
    OutputQueued(p, y, c.nextID, replay, u);
    Reports(p, y, c.nextID, u, Output(u));
    var rest := [Output(u), IDLE, IDLE];
    turns := [IDLE] + ([IDLE] + ([IDLE] + rest));
    AfterSubscribing(p, c, x, [IDLE] + rest);
    PlayOn(p, x, IDLE, rest);
  }

  /** Some continuation of the output makes a wait report a match that begins before it. */
  lemma StaleHappens(p: PW.Params, c: CS.Console, j: nat, u: seq<byte>) returns (turns: seq<WL.Turn>)
    requires Fresh(p.pick, WAIT_MATCH_WIDTH) && p.pick([]).None? && CS.Inv(c) && !c.closed
    requires j < |CS.ReplayOf(c, p.includeScrollback)|
    requires p.pick(CS.ReplayOf(c, p.includeScrollback)[j..] + u).Some?
    ensures var x := WL.Play(p, PW.World(c, PW.START_WAITER), turns).0;
            Found(x) && MatchStart(p.pick, x) < PW.Len(c)
  {
    var replay := CS.ReplayOf(c, p.includeScrollback);
    if FindIndex(p.pick, replay).Some? {
      turns := OldMatchReported(p, c);
      BeginsInside(p.pick, replay);
    } else {
      assert (replay + u)[j..] == replay[j..] + u;
      BeginsBy(p.pick, replay + u, j);
      turns := CompletedMatchReported(p, c, u);
    }
  }

  lemma BeginsInside(pick: Matcher<byte>, s: seq<byte>)
    requires pick([]).None? && FindIndex(pick, s).Some?
    ensures FindIndex(pick, s).value.0 < |s|
  {
    FindFromIsLeftmost(pick, s, 0);
    assert s[|s|..] == [];
  }

  lemma BeginsBy(pick: Matcher<byte>, s: seq<byte>, j: nat)
    requires j <= |s| && pick(s[j..]).Some?
    ensures FindIndex(pick, s).Some? && FindIndex(pick, s).value.0 <= j
  {
    FindFromIsLeftmost(pick, s, 0);
  }

  /** Whatever happens, a wait begun now reports no match that begins before it. */
  ghost predicate AlwaysFresh(p: PW.Params, c: CS.Console) {
    forall turns: seq<WL.Turn> ::
      var x := WL.Play(p, PW.World(c, PW.START_WAITER), turns).0;
      Found(x) ==> MatchStart(p.pick, x) >= PW.Len(c)
  }

  /** That is so exactly when the scrollback asked for is inert. */
  lemma FreshExactly(p: PW.Params, c: CS.Console)
    requires Fresh(p.pick, WAIT_MATCH_WIDTH) && p.pick([]).None? && CS.Inv(c) && !c.closed
    ensures AlwaysFresh(p, c) <==> Inert(p.pick, CS.ReplayOf(c, p.includeScrollback))
  {
    var replay := CS.ReplayOf(c, p.includeScrollback);
    if Inert(p.pick, replay) {
      forall turns: seq<WL.Turn>
        ensures var x := WL.Play(p, PW.World(c, PW.START_WAITER), turns).0;
                Found(x) ==> MatchStart(p.pick, x) >= PW.Len(c)
      {
        WaitNotStale(p, c, c, turns);
      }
    } else {
      var j: nat, u: seq<byte> :| j < |replay| && p.pick(replay[j..] + u).Some?;
      var turns := StaleHappens(p, c, j, u);
    }
  }
}
