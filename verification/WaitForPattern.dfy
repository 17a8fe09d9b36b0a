/**
 Waiting for a pattern on the console: the waiter's own atomic actions interleaved with anything
 else that happens to the console, and what the wait guarantees however the two interleave.

 The waiter arms, subscribes and drains. When its subscription is detached for slowness it
 measures what it missed, subscribes again asking for that much replay, and starts over. Arming,
 subscribing, receiving, reading the error, leaving and measuring are separate critical sections,
 and the console may change between any two of them.
 */
module PatternWait {
  import opened Bytes
  import opened Matching
  import opened Scanner
  import CS = ConsoleState

  datatype Outcome = Matched(text: seq<byte>) | CtxDone | ConsoleClosed

  datatype Phase =
    | Arming
    | Subscribing(replay: int)
    | Draining(id: nat)
    | CheckingErr(id: nat)
    | Leaving(id: nat, found: Option<seq<byte>>, retry: bool)
    | Deciding(found: Option<seq<byte>>, retry: bool)
    | Measuring
    | Finished(outcome: Outcome)

  /** The waiter's variables, then what is recorded about its past in order to state properties. */
  datatype Waiter = Waiter(
    phase: Phase,
    armTotal: int,
    scan: ScanState,
    cancelled: bool,         // the caller's context is done
    armAt: nat,              // length of the stream when the waiter armed
    armReset: nat,           // how much of the stream the last Reset before that had dropped
    first: Option<nat>,      // length of the stream at the first Subscribe
    retries: nat,
    origin: nat,             // where in the stream the current subscription begins
    fed: seq<byte>)          // what the scanner has been fed since its last reset

  datatype World = World(c: CS.Console, w: Waiter)

  /** What is waited for, and how much scrollback to consider first. */
  datatype Params = Params(pick: Matcher<byte>, includeScrollback: int)

  datatype Move = Env(e: CS.Event) | Cancel | Advance(preferCtx: bool)

  const START_WAITER: Waiter := Waiter(Arming, 0, FRESH_SCAN, false, 0, 0, None, 0, 0, [])

  /** How much of the stream preceded the last Reset. */
  function ResetAt(c: CS.Console): nat {
    if c.base <= |c.chunks| then |Flatten(c.chunks[..c.base])| else 0
  }

  function Len(c: CS.Console): nat {
    |CS.Stream(c)|
  }

  // ---- The waiter's actions -------------------------------------------------------

  function Arm(p: Params, x: World): World {
    x.(w := x.w.(phase := Subscribing(p.includeScrollback), armTotal := CS.TotalWritten(x.c),
                 armAt := Len(x.c), armReset := ResetAt(x.c)))
  }

  function DoSubscribe(x: World, replay: int): World {
    World(CS.Subscribe(x.c, replay),
          x.w.(phase := Draining(x.c.nextID),
               first := if x.w.first.None? then Some(Len(x.c)) else x.w.first,
               origin := Max(0, Len(x.c) - |CS.ReplayOf(x.c, replay)|),
               fed := []))
  }

  /** What one turn of the select finds ready: the done context, a chunk, the end of the feed, or nothing. */
  datatype Ready = ByCtx | ByChunk(chunk: seq<byte>) | ByEnd | Nothing

  function Select(ch: CS.Chan, cancelled: bool, preferCtx: bool): Ready {
    if cancelled && preferCtx then ByCtx
    else if ch.Queue() != [] then ByChunk(ch.Queue()[0])
    else if ch.Chan? && ch.closed then ByEnd
    else if cancelled then ByCtx
    else Nothing
  }

  function Drain(p: Params, x: World, id: nat, preferCtx: bool): World {
    if id !in x.c.all then x
    else
      match Select(x.c.all[id].ch, x.w.cancelled, preferCtx)
      case ByCtx => x.(w := x.w.(phase := Leaving(id, None, false)))
      case ByChunk(chunk) => Take(p, x, id, chunk)
      case ByEnd => x.(w := x.w.(phase := CheckingErr(id)))
      case Nothing => x
  }

  function Take(p: Params, x: World, id: nat, chunk: seq<byte>): World {
    var (scan, found) := Feed(p.pick, x.w.scan, chunk);
    World(CS.Receive(x.c, id),
          x.w.(scan := scan, fed := x.w.fed + chunk,
               phase := if found.Some? then Leaving(id, found, false) else x.w.phase))
  }

  function Decide(x: World, found: Option<seq<byte>>, retry: bool): World {
    x.(w := x.w.(phase :=
      if found.Some? then Finished(Matched(found.value))
      else if x.w.cancelled then Finished(CtxDone)
      else if !retry then Finished(ConsoleClosed)
      else Measuring))
  }

  function Measure(x: World): World {
    var missed := CS.TotalWritten(x.c) - x.w.armTotal;
    x.(w := x.w.(phase := Subscribing(Min(missed, MAX_PATTERN_WINDOW)),
                 scan := FRESH_SCAN, fed := [], retries := x.w.retries + 1))
  }

  function Act(p: Params, x: World, preferCtx: bool): World {
    match x.w.phase
    case Arming => Arm(p, x)
    case Subscribing(replay) => DoSubscribe(x, replay)
    case Draining(id) => Drain(p, x, id, preferCtx)
    case CheckingErr(id) => x.(w := x.w.(phase := Leaving(id, None, x.c.closeErr.None?)))
    case Leaving(id, found, retry) =>
      World(CS.Unsubscribe(x.c, id), x.w.(phase := Deciding(found, retry)))
    case Deciding(found, retry) => Decide(x, found, retry)
    case Measuring => Measure(x)
    case Finished(_) => x
  }

  /** The subscription the waiter is using. Nobody else receives from it or closes it. */
  function Current(w: Waiter): Option<nat> {
    match w.phase
    case Draining(id) => Some(id)
    case CheckingErr(id) => Some(id)
    case Leaving(id, _, _) => Some(id)
    case _ => None
  }

  predicate Foreign(w: Waiter, e: CS.Event) {
    match e
    case EvReceive(id) => Current(w) != Some(id)
    case EvUnsubscribe(id) => Current(w) != Some(id)
    case _ => true
  }

  function Go(p: Params, x: World, m: Move): World {
    match m
    case Env(e) => if Foreign(x.w, e) then x.(c := CS.Step(x.c, e)) else x
    case Cancel => x.(w := x.w.(cancelled := true))
    case Advance(preferCtx) => Act(p, x, preferCtx)
  }

  function Run(p: Params, x: World, ms: seq<Move>): World
    decreases ms
  {
    if ms == [] then x else Run(p, Go(p, x, ms[0]), ms[1..])
  }

  lemma {:induction false} RunThen(p: Params, x: World, ms: seq<Move>, m: Move)
    ensures Run(p, x, ms + [m]) == Go(p, Run(p, x, ms), m)
    decreases ms
  {
    if ms == [] {
      assert [m][1..] == [];
    } else {
      assert (ms + [m])[1..] == ms[1..] + [m];
      RunThen(p, Go(p, x, ms[0]), ms[1..], m);
    }
  }

  // ---- How the console's moves look from one subscription ---------------------------

  lemma StreamGrows(c: CS.Console, e: CS.Event)
    requires CS.Inv(c)
    ensures CS.Stream(c) <= CS.Stream(CS.Step(c, e))
    ensures !e.EvPublish? ==> CS.Stream(CS.Step(c, e)) == CS.Stream(c)
    ensures ResetAt(c) <= ResetAt(CS.Step(c, e)) <= Len(CS.Step(c, e))
    ensures !e.EvReset? ==> ResetAt(CS.Step(c, e)) == ResetAt(c)
    ensures c.closed ==> CS.Step(c, e).closed
    ensures CS.Step(c, e).cap == c.cap
  {
    FlattenSplit(c.chunks, c.base);
    match e
    case EvPublish(p) =>
      FlattenSnoc(c.chunks, p);
      assert (c.chunks + [p])[..c.base] == c.chunks[..c.base];
    case EvReset =>
      assert c.chunks[..|c.chunks|] == c.chunks;
    case _ =>
  }

  lemma TotalSinceReset(c: CS.Console)
    requires CS.Inv(c)
    ensures CS.TotalWritten(c) == Len(c) - ResetAt(c)
  {
    FlattenSplit(c.chunks, c.base);
  }

  /** What others do to a subscription's record: at most add to its channel or close it. */
  lemma OthersOnlyAdd(c: CS.Console, e: CS.Event, id: nat)
    requires id in c.all && id < c.nextID && e != CS.EvReceive(id)
    requires c.all[id].ch.Chan? && c.all[id].ch.received <= |c.all[id].ch.sent|
    requires c.all[id].ch.closed ==> id !in c.subs && c.all[id].closed
    ensures var c' := CS.Step(c, e);
            && id in c'.all
            && c'.all[id].replay == c.all[id].replay && c'.all[id].at == c.all[id].at
            && c'.all[id].ch.Chan? && c'.all[id].ch.received == c.all[id].ch.received
            && c.all[id].ch.sent <= c'.all[id].ch.sent
            && c.chunks <= c'.chunks
  {
    match e
    case EvPublish(p) => PublishOnlyAdds(c, p, id);
    case EvClose(err) => CloseOnlyCloses(c, err, id);
    case _ =>
  }

  lemma PublishOnlyAdds(c: CS.Console, p: seq<byte>, id: nat)
    requires id in c.all && c.all[id].ch.Chan? && (c.all[id].ch.closed ==> c.all[id].closed)
    ensures var s, t := c.all[id], CS.Publish(c, p).all[id];
            && t.replay == s.replay && t.at == s.at && t.ch.Chan?
            && t.ch.received == s.ch.received && s.ch.sent <= t.ch.sent
  {
  }

  lemma CloseOnlyCloses(c: CS.Console, err: CS.Error, id: nat)
    requires id in c.all && c.all[id].ch.Chan? && (c.all[id].ch.closed ==> c.all[id].closed)
    ensures var s, t := c.all[id], CS.CloseWithErr(c, err).all[id];
            && t.replay == s.replay && t.at == s.at && t.ch.Chan?
            && t.ch.received == s.ch.received && t.ch.sent == s.ch.sent
  {
  }

  lemma SamePrefix<T>(a: seq<T>, b: seq<T>, n: nat)
    requires n <= |a| && a <= b
    ensures a[..n] == b[..n]
  {
  }

  /** What others do leaves a subscription where it began and what has been taken from it. */
  lemma Undisturbed(c: CS.Console, e: CS.Event, id: nat)
    requires CS.Inv(c) && id in c.all && e != CS.EvReceive(id)
    ensures var c' := CS.Step(c, e);
            && id in c'.all
            && c'.all[id].replay == c.all[id].replay && c'.all[id].at == c.all[id].at <= |c'.chunks|
            && CS.Consumed(c'.all[id]) == CS.Consumed(c.all[id])
            && CS.From(c', c'.all[id]) == CS.From(c, c.all[id])
  {
    var s, t := c.all[id], CS.Step(c, e).all;
    assert CS.SubOK(c, id, s);
    OthersOnlyAdd(c, e, id);
    SamePrefix(s.ch.sent, t[id].ch.sent, s.ch.received);
    SamePrefix(c.chunks, CS.Step(c, e).chunks, s.at);
  }

  /** A receive on a channel takes the first queued chunk. */
  lemma ChanTakes(s: CS.Sub)
    requires s.ch.Queue() != []
    ensures var t := s.(ch := s.ch.Receive());
            t.ch.Queue() == s.ch.Queue()[1..] && CS.Consumed(t) == CS.Consumed(s) + s.ch.Queue()[0]
  {
    var r := s.ch.received;
    assert s.ch.sent[..r + 1] == s.ch.sent[..r] + [s.ch.sent[r]];
    FlattenSnoc(s.ch.sent[..r], s.ch.sent[r]);
  }

  lemma TakesNext(c: CS.Console, id: nat)
    requires id in c.all && c.all[id].at <= |c.chunks| && c.all[id].ch.Queue() != []
    ensures var c' := CS.Receive(c, id);
            var q := c.all[id].ch.Queue();
            && id in c'.all && c'.all[id].at == c.all[id].at && c'.chunks == c.chunks
            && c'.all[id].ch.Queue() == q[1..]
            && CS.Consumed(c'.all[id]) == CS.Consumed(c.all[id]) + q[0]
            && CS.From(c', c'.all[id]) == CS.From(c, c.all[id])
  {
    ChanTakes(c.all[id]);
  }

  /** Where a new subscription begins: as far back from the end of the stream as its replay is long. */
  lemma NewBegins(c: CS.Console, n: int)
    requires CS.Inv(c)
    ensures var c' := CS.Subscribe(c, n);
            && |CS.ReplayOf(c, n)| <= Len(c)
            && CS.From(c', c'.all[c.nextID]) == Len(c) - |CS.ReplayOf(c, n)|
            && CS.Consumed(c'.all[c.nextID]) == []
            && |c'.all[c.nextID].ch.Queue()| <= 1
  {
    CS.SnapshotIsTail(c, n);
    assert c.chunks[..|c.chunks|] == c.chunks;
  }

  // ---- Invariant of every run -------------------------------------------------------

  /** What the waiter remembers from arming still bounds what it missed, whatever resets came since. */
  ghost predicate ArmOK(c: CS.Console, w: Waiter) {
    && (w.phase.Arming? ==> w.retries == 0 && w.first.None? && w.fed == [])
    && (!w.phase.Arming? ==>
          w.armReset <= w.armAt <= Len(c) && w.armReset <= ResetAt(c) && w.armTotal == w.armAt - w.armReset)
  }

  /** The scanner has been fed one stretch of the stream. */
  ghost predicate FedOK(c: CS.Console, w: Waiter) {
    && w.origin + |w.fed| <= Len(c)
    && w.fed == CS.Stream(c)[w.origin..w.origin + |w.fed|]
  }

  /** No byte from before arming is in it, unless the caller asked for scrollback and this is the first try. */
  predicate FenceOK(p: Params, w: Waiter) {
    w.fed != [] && (w.retries > 0 || p.includeScrollback <= 0) ==> w.armAt <= w.origin
  }

  ghost predicate Linked(c: CS.Console, w: Waiter, id: nat) {
    && id in c.all && c.all[id].at <= |c.chunks|
    && w.origin == CS.From(c, c.all[id]) && w.fed == CS.Consumed(c.all[id])
  }

  ghost predicate PhaseOK(p: Params, c: CS.Console, w: Waiter) {
    match w.phase
    case Arming => w.scan == FRESH_SCAN
    case Subscribing(r) =>
      w.fed == [] && w.scan == FRESH_SCAN && r <= if w.retries > 0 then Len(c) - w.armAt else p.includeScrollback
    case Draining(id) =>
      Linked(c, w, id) && ScanInv(p.pick, w.scan, w.fed)
      && (w.retries > 0 || p.includeScrollback <= 0 ==> w.armAt <= w.origin)
    case CheckingErr(id) => Linked(c, w, id)
    case Leaving(id, found, retry) => Verdict(p, c, w, found, retry)
    case Deciding(found, retry) => Verdict(p, c, w, found, retry)
    case Measuring => true
    case Finished(o) =>
      match o
      case Matched(text) => NaiveMatch(p.pick, w.fed) == Some(text)
      case CtxDone => w.cancelled
      case ConsoleClosed => c.closed
  }

  /** A match in hand is the leftmost in everything fed; giving up has a reason. */
  ghost predicate Verdict(p: Params, c: CS.Console, w: Waiter, found: Option<seq<byte>>, retry: bool) {
    && (found.Some? ==> NaiveMatch(p.pick, w.fed) == found)
    && (found.None? && !retry ==> w.cancelled || c.closed)
  }

  ghost predicate WInv(p: Params, x: World) {
    CS.Inv(x.c) && ArmOK(x.c, x.w) && FedOK(x.c, x.w) && FenceOK(p, x.w) && PhaseOK(p, x.c, x.w)
  }

  /** The stream has grown and the last reset moved on. */
  ghost predicate Later(c: CS.Console, d: CS.Console) {
    CS.Stream(c) <= CS.Stream(d) && ResetAt(c) <= ResetAt(d) && (c.closed ==> d.closed)
  }

  lemma LaterKeeps(c: CS.Console, d: CS.Console, w: Waiter)
    requires Later(c, d) && ArmOK(c, w) && FedOK(c, w)
    ensures ArmOK(d, w) && FedOK(d, w)
  {
  }

  lemma PhaseSurvives(p: Params, c: CS.Console, d: CS.Console, w: Waiter)
    requires Later(c, d) && PhaseOK(p, c, w)
    requires Current(w).Some? && !w.phase.Leaving? ==> Linked(d, w, Current(w).value)
    ensures PhaseOK(p, d, w)
  {
  }

  lemma EnvKeeps(p: Params, x: World, e: CS.Event)
    requires WInv(p, x) && Foreign(x.w, e)
    ensures WInv(p, x.(c := CS.Step(x.c, e)))
  {
    CS.StepInv(x.c, e);
    StreamGrows(x.c, e);
    LaterKeeps(x.c, CS.Step(x.c, e), x.w);
    match x.w.phase {
      case Draining(id) => LinkSurvives(x, e, id);
      case CheckingErr(id) => LinkSurvives(x, e, id);
      case _ =>
    }
    PhaseSurvives(p, x.c, CS.Step(x.c, e), x.w);
  }

  lemma LinkSurvives(x: World, e: CS.Event, id: nat)
    requires CS.Inv(x.c) && Linked(x.c, x.w, id) && e != CS.EvReceive(id)
    ensures Linked(CS.Step(x.c, e), x.w, id)
  {
    Undisturbed(x.c, e, id);
  }

  lemma ArmKeeps(p: Params, x: World)
    requires WInv(p, x) && x.w.phase.Arming?
    ensures WInv(p, Arm(p, x))
  {
    TotalSinceReset(x.c);
  }

  lemma ReplayBounded(c: CS.Console, r: int)
    ensures |CS.ReplayOf(c, r)| <= Max(0, r)
  {
  }

  lemma SubscribeLinks(x: World, r: int)
    requires CS.Inv(x.c)
    ensures var y := DoSubscribe(x, r);
            && CS.Inv(y.c) && Linked(y.c, y.w, x.c.nextID)
            && CS.Stream(y.c) == CS.Stream(x.c) && ResetAt(y.c) == ResetAt(x.c)
            && y.w.origin == Len(x.c) - |CS.ReplayOf(x.c, r)|
  {
    CS.SubscribeInv(x.c, r);
    NewBegins(x.c, r);
  }

  /** A new subscription on a stream that has not changed, beginning no further back than it may. */
  lemma FreshDraining(p: Params, c: CS.Console, w: Waiter, v: Waiter, id: nat)
    requires ArmOK(c, w) && !w.phase.Arming?
    requires v.phase == Draining(id) && v.fed == [] && v.scan == FRESH_SCAN && v.origin <= Len(c)
    requires v.armAt == w.armAt && v.armReset == w.armReset && v.armTotal == w.armTotal
    requires Linked(c, v, id) && (v.retries > 0 || p.includeScrollback <= 0 ==> v.armAt <= v.origin)
    ensures ArmOK(c, v) && FedOK(c, v) && FenceOK(p, v) && PhaseOK(p, c, v)
  {
    FreshScanInv(p.pick);
    NothingFed(c, v);
  }

  lemma NothingFed(c: CS.Console, w: Waiter)
    requires w.fed == [] && w.origin <= Len(c)
    ensures FedOK(c, w)
  {
  }

  /** What the waiter remembers carries over to a console with the same stream. */
  lemma ArmCarries(c: CS.Console, d: CS.Console, w: Waiter)
    requires ArmOK(c, w) && CS.Stream(d) == CS.Stream(c) && ResetAt(d) == ResetAt(c)
    ensures ArmOK(d, w)
  {
  }

  /** However stale the measurement, the replay it asks for reaches back no further than arming. */
  lemma SubscribeKeeps(p: Params, x: World, r: int)
    requires WInv(p, x) && x.w.phase == Subscribing(r)
    ensures WInv(p, DoSubscribe(x, r))
  {
    var y := DoSubscribe(x, r);
    SubscribeLinks(x, r);
    ReplayBounded(x.c, r);
    ArmCarries(x.c, y.c, x.w);
    FreshDraining(p, y.c, x.w, y.w, x.c.nextID);
  }

  /** What has been taken from a subscription is the stretch of the stream that begins where it does. */
  lemma LinkedIsFed(c: CS.Console, w: Waiter, id: nat)
    requires CS.Inv(c) && Linked(c, w, id)
    ensures FedOK(c, w)
  {
    CS.ConsumedStretch(c, id);
  }

  lemma TakeLinks(p: Params, x: World, id: nat)
    requires CS.Inv(x.c) && Linked(x.c, x.w, id) && x.c.all[id].ch.Queue() != []
    ensures var y := Take(p, x, id, x.c.all[id].ch.Queue()[0]);
            CS.Inv(y.c) && Linked(y.c, y.w, id) && FedOK(y.c, y.w)
            && CS.Stream(y.c) == CS.Stream(x.c) && ResetAt(y.c) == ResetAt(x.c)
  {
    CS.ReceiveInv(x.c, id);
    TakesNext(x.c, id);
    StreamGrows(x.c, CS.EvReceive(id));
    var y := Take(p, x, id, x.c.all[id].ch.Queue()[0]);
    LinkedIsFed(y.c, y.w, id);
  }

  lemma TakeScans(p: Params, x: World, id: nat, chunk: seq<byte>)
    requires Fresh(p.pick, WAIT_MATCH_WIDTH) && x.w.phase == Draining(id) && ScanInv(p.pick, x.w.scan, x.w.fed)
    ensures var y := Take(p, x, id, chunk);
            || (y.w.phase == Draining(id) && ScanInv(p.pick, y.w.scan, y.w.fed))
            || (exists text :: y.w.phase == Leaving(id, Some(text), false)
                               && NaiveMatch(p.pick, y.w.fed) == Some(text))
  {
    FeedReports(p.pick, x.w.scan, x.w.fed, chunk);
    var r := Feed(p.pick, x.w.scan, chunk).1;
    if r.None? {
      FeedKeepsInv(p.pick, x.w.scan, x.w.fed, chunk);
    } else {
      assert Take(p, x, id, chunk).w.phase == Leaving(id, Some(r.value), false);
    }
  }

  lemma TakeKeeps(p: Params, x: World, id: nat)
    requires Fresh(p.pick, WAIT_MATCH_WIDTH)
    requires WInv(p, x) && x.w.phase == Draining(id) && x.c.all[id].ch.Queue() != []
    ensures WInv(p, Take(p, x, id, x.c.all[id].ch.Queue()[0]))
  {
    TakeLinks(p, x, id);
    TakeScans(p, x, id, x.c.all[id].ch.Queue()[0]);
  }

  /** A change of phase alone. */
  lemma PhaseOnly(p: Params, x: World, phase: Phase)
    requires WInv(p, x) && !x.w.phase.Arming? && !phase.Arming?
    requires PhaseOK(p, x.c, x.w.(phase := phase))
    ensures WInv(p, x.(w := x.w.(phase := phase)))
  {
  }

  /** Giving up because the context is done, or noticing that the feed has ended. */
  lemma StopKeeps(p: Params, x: World, id: nat)
    requires WInv(p, x) && x.w.phase == Draining(id)
    ensures WInv(p, x.(w := x.w.(phase := CheckingErr(id))))
    ensures x.w.cancelled ==> WInv(p, x.(w := x.w.(phase := Leaving(id, None, false))))
  {
    PhaseOnly(p, x, CheckingErr(id));
    if x.w.cancelled {
      PhaseOnly(p, x, Leaving(id, None, false));
    }
  }

  lemma CheckKeeps(p: Params, x: World, id: nat)
    requires WInv(p, x) && x.w.phase == CheckingErr(id)
    ensures WInv(p, x.(w := x.w.(phase := Leaving(id, None, x.c.closeErr.None?))))
  {
    PhaseOnly(p, x, Leaving(id, None, x.c.closeErr.None?));
  }

  lemma DecideKeeps(p: Params, x: World, found: Option<seq<byte>>, retry: bool)
    requires WInv(p, x) && x.w.phase == Deciding(found, retry)
    ensures WInv(p, Decide(x, found, retry))
  {
    PhaseOnly(p, x, Decide(x, found, retry).w.phase);
  }

  lemma DrainCases(p: Params, x: World, id: nat, preferCtx: bool)
    requires id in x.c.all
    ensures var y := Drain(p, x, id, preferCtx);
            || y == x
            || y == x.(w := x.w.(phase := CheckingErr(id)))
            || (x.w.cancelled && y == x.(w := x.w.(phase := Leaving(id, None, false))))
            || (x.c.all[id].ch.Queue() != [] && y == Take(p, x, id, x.c.all[id].ch.Queue()[0]))
  {
  }

  lemma DrainKeeps(p: Params, x: World, id: nat, preferCtx: bool)
    requires Fresh(p.pick, WAIT_MATCH_WIDTH)
    requires WInv(p, x) && x.w.phase == Draining(id)
    ensures WInv(p, Drain(p, x, id, preferCtx))
  {
    DrainCases(p, x, id, preferCtx);
    StopKeeps(p, x, id);
    if x.c.all[id].ch.Queue() != [] {
      TakeKeeps(p, x, id);
    }
  }

  lemma LeaveKeeps(p: Params, x: World, id: nat, found: Option<seq<byte>>, retry: bool)
    requires WInv(p, x) && x.w.phase == Leaving(id, found, retry)
    ensures WInv(p, World(CS.Unsubscribe(x.c, id), x.w.(phase := Deciding(found, retry))))
  {
    CS.UnsubscribeInv(x.c, id);
    StreamGrows(x.c, CS.EvUnsubscribe(id));
  }

  lemma MeasureKeeps(p: Params, x: World)
    requires WInv(p, x) && x.w.phase.Measuring?
    ensures WInv(p, Measure(x))
  {
    TotalSinceReset(x.c);
  }

  lemma ActKeeps(p: Params, x: World, preferCtx: bool)
    requires Fresh(p.pick, WAIT_MATCH_WIDTH) && WInv(p, x)
    ensures WInv(p, Act(p, x, preferCtx))
  {
    match x.w.phase
    case Arming => ArmKeeps(p, x);
    case Subscribing(r) => SubscribeKeeps(p, x, r);
    case Draining(id) => DrainKeeps(p, x, id, preferCtx);
    case CheckingErr(id) => CheckKeeps(p, x, id);
    case Leaving(id, found, retry) => LeaveKeeps(p, x, id, found, retry);
    case Deciding(found, retry) => DecideKeeps(p, x, found, retry);
    case Measuring => MeasureKeeps(p, x);
    case Finished(_) =>
  }

  lemma GoKeeps(p: Params, x: World, m: Move)
    requires Fresh(p.pick, WAIT_MATCH_WIDTH) && WInv(p, x)
    ensures WInv(p, Go(p, x, m))
  {
    match m
    case Env(e) =>
      if Foreign(x.w, e) {
        EnvKeeps(p, x, e);
      }
    case Cancel =>
    case Advance(preferCtx) => ActKeeps(p, x, preferCtx);
  }

  lemma {:induction false} RunKeeps(p: Params, x: World, ms: seq<Move>)
    requires Fresh(p.pick, WAIT_MATCH_WIDTH) && WInv(p, x)
    ensures WInv(p, Run(p, x, ms))
    decreases ms
  {
    if ms != [] {
      GoKeeps(p, x, ms[0]);
      RunKeeps(p, Go(p, x, ms[0]), ms[1..]);
    }
  }

  /** A waiter may start on a console in any reachable state. */
  lemma StartInv(p: Params, c: CS.Console)
    requires CS.Inv(c)
    ensures WInv(p, World(c, START_WAITER))
  {
  }

  /**
   On any retry, whatever the interleaving and however often the console was reset, the scanner is
   fed only bytes published after arming; so is a first try that asked for no scrollback.
   */
  lemma OnlyPostArmBytes(p: Params, c: CS.Console, ms: seq<Move>)
    requires Fresh(p.pick, WAIT_MATCH_WIDTH) && CS.Inv(c)
    ensures var x := Run(p, World(c, START_WAITER), ms);
            && x.w.origin + |x.w.fed| <= Len(x.c)
            && x.w.fed == CS.Stream(x.c)[x.w.origin..x.w.origin + |x.w.fed|]
            && ((x.w.retries > 0 || p.includeScrollback <= 0) && x.w.fed != [] ==> x.w.armAt <= x.w.origin)
  {
    StartInv(p, c);
    RunKeeps(p, World(c, START_WAITER), ms);
  }

  /** A reported match is the leftmost in what was fed; the two failures each have their one cause. */
  lemma OutcomesAreHonest(p: Params, c: CS.Console, ms: seq<Move>)
    requires Fresh(p.pick, WAIT_MATCH_WIDTH) && CS.Inv(c)
    ensures var x := Run(p, World(c, START_WAITER), ms);
            && (x.w.phase == Finished(ConsoleClosed) ==> x.c.closed && x.c.closeErr.Some?)
            && (x.w.phase == Finished(CtxDone) ==> x.w.cancelled)
            && forall text :: x.w.phase == Finished(Matched(text)) ==> NaiveMatch(p.pick, x.w.fed) == Some(text)
  {
    StartInv(p, c);
    RunKeeps(p, World(c, START_WAITER), ms);
  }

  // ---- No match is lost across detaches ---------------------------------------------

  /** A (re)subscription begins exactly as far back as asked for and buffered, and no further. */
  lemma RetryBeginsExactly(x: World, r: int)
    requires CS.Inv(x.c)
    ensures DoSubscribe(x, r).w.origin == Len(x.c) - Max(0, Min(r, |CS.Ring(x.c)|))
    ensures |CS.Ring(x.c)| == Min(CS.TotalWritten(x.c), x.c.cap)
  {
    NewBegins(x.c, r);
  }

  /**
   Exactly when a retry reaches back to where the waiter armed, whatever became of the console between
   measuring the gap (x) and subscribing (d): nothing was published since arming at all, or nothing in
   between, no reset dropped any of it or upset the count, and it fits the ring and the window.
   */
  lemma RetryReachesArmExactly(p: Params, x: World, d: CS.Console)
    requires WInv(p, x) && x.w.phase.Measuring?
    requires CS.Inv(d) && Later(x.c, d) && d.cap == x.c.cap
    ensures var y := Measure(x).w;
            DoSubscribe(World(d, y), y.phase.replay).w.origin <= x.w.armAt
            <==> Len(d) == x.w.armAt
                 || (Len(d) == Len(x.c) && ResetAt(x.c) == x.w.armReset && ResetAt(d) <= x.w.armAt
                     && Len(d) - x.w.armAt <= Min(d.cap, MAX_PATTERN_WINDOW))
  {
    var y := Measure(x).w;
    TotalSinceReset(x.c);
    TotalSinceReset(d);
    RetryBeginsExactly(World(d, y), y.phase.replay);
  }

  /** Matches the two bytes "ab". */
  function PickAb(t: seq<byte>): Option<nat> {
    if |t| >= 2 && t[0] == 97 && t[1] == 98 then Some(2) else None
  }

  /** Text in which no "a" is followed by "b". */
  lemma NoAb(t: seq<byte>)
    requires forall i :: 0 <= i < |t| - 1 ==> t[i] != 97 || t[i + 1] != 98
    ensures FindIndex(PickAb, t).None?
  {
    forall j | 0 <= j <= |t|
      ensures PickAb(t[j..]).None?
    {
      var rest := t[j..];
      assert |rest| >= 2 ==> rest[0] == t[j] && rest[1] == t[j + 1];
    }
    FindFromIsLeftmost(PickAb, t, 0);
  }

  lemma AbIsFresh()
    ensures Fresh(PickAb, WAIT_MATCH_WIDTH)
  {
    forall t: seq<byte>, u: seq<byte> | PickAb(t).None? && PickAb(t + u).Some?
      ensures |t| < 2
    {
      if |t| >= 2 {
        AbStays(t, u);
      }
    }
  }

  lemma AbStays(t: seq<byte>, u: seq<byte>)
    requires |t| >= 2
    ensures PickAb(t + u) == PickAb(t)
  {
    assert (t + u)[0] == t[0] && (t + u)[1] == t[1];
  }

  const GAP_PARAMS: Params := Params(PickAb, 0)
  const OWN: Move := Advance(false)

  function GapStart(cap: nat, qcap: nat): World {
    World(CS.InitConsole(cap, qcap), START_WAITER)
  }

  /** n bytes "c". */
  function Cs(n: nat): seq<byte> {
    seq(n, _ => 99)
  }

  /** Padding and an "a": one byte for every chunk a queue holds. */
  function Burst(qcap: nat): seq<byte>
    requires qcap >= 1
  {
    Cs(qcap - 1) + [97]
  }

  /** Every byte a chunk of its own. */
  function Singles(s: seq<byte>): seq<seq<byte>> {
    seq(|s|, i requires 0 <= i < |s| => [s[i]])
  }

  lemma {:induction false} FlattenSingles(s: seq<byte>)
    ensures Flatten(Singles(s)) == s
    decreases |s|
  {
    if s != [] {
      var n := |s| - 1;
      FlattenSingles(s[..n]);
      assert Singles(s) == Singles(s[..n]) + [[s[n]]];
      FlattenSnoc(Singles(s[..n]), [s[n]]);
      assert s == s[..n] + [s[n]];
    }
  }

  /** One more move of the example run. */
  lemma GapMove(p: Params, start: World, ms: seq<Move>, x: World, m: Move) returns (more: seq<Move>, y: World)
    requires x == Run(p, start, ms)
    ensures more == ms + [m] && y == Go(p, x, m) == Run(p, start, more)
  {
    RunThen(p, start, ms, m);
    more, y := ms + [m], Go(p, x, m);
  }

  function GapConsole(cap: nat, qcap: nat, chunks: seq<seq<byte>>, sent: seq<seq<byte>>, n: nat, over: bool)
    : CS.Console
  {
    CS.Console(cap, qcap, chunks, 0, map[0 := CS.Sub([], 0, CS.Chan(sent, n, over), over)],
               if over then {} else {0}, 1, false, None, CS.EMPTY_CHAN)
  }

  /** The waiter is subscribed and has been sent these chunks, of which it has received n. */
  predicate GapSent(x: World, cap: nat, qcap: nat, chunks: seq<seq<byte>>, sent: seq<seq<byte>>, n: nat, over: bool) {
    && x.c == GapConsole(cap, qcap, chunks, sent, n, over)
    && x.w.phase == Draining(0) && x.w.first == Some(0) && !x.w.cancelled
    && x.w.armAt == x.w.armTotal == x.w.armReset == x.w.origin == x.w.retries == 0
  }

  /** Armed and subscribed, the waiter is sent single bytes while its queue has room. */
  lemma {:induction false} GapFilled(p: Params, cap: nat, qcap: nat, s: seq<byte>) returns (ms: seq<Move>, x: World)
    requires |s| <= qcap && p.includeScrollback == 0
    ensures x == Run(p, GapStart(cap, qcap), ms)
    ensures GapSent(x, cap, qcap, Singles(s), Singles(s), 0, false) && x.w.scan == FRESH_SCAN && x.w.fed == []
    decreases |s|
  {
    if s == [] {
      ms, x := [], GapStart(cap, qcap);
      ms, x := GapMove(p, GapStart(cap, qcap), ms, x, OWN);
      ms, x := GapMove(p, GapStart(cap, qcap), ms, x, OWN);
    } else {
      var n := |s| - 1;
      ms, x := GapFilled(p, cap, qcap, s[..n]);
      assert Singles(s) == Singles(s[..n]) + [[s[n]]];
      ms, x := GapMove(p, GapStart(cap, qcap), ms, x, Env(CS.EvPublish([s[n]])));
    }
  }

  /** Its queue full, the waiter is detached by "b". */
  lemma GapDetached(p: Params, cap: nat, qcap: nat) returns (ms: seq<Move>, x: World)
    requires qcap >= 1 && p.includeScrollback == 0
    ensures x == Run(p, GapStart(cap, qcap), ms)
    ensures GapSent(x, cap, qcap, Singles(Burst(qcap)) + [[98]], Singles(Burst(qcap)), 0, true)
    ensures x.w.scan == FRESH_SCAN && x.w.fed == []
  {
    ms, x := GapFilled(p, cap, qcap, Burst(qcap));
    ms, x := GapMove(p, GapStart(cap, qcap), ms, x, Env(CS.EvPublish([98])));
  }

  /** A chunk that completes no match. */
  lemma QuietTake(p: Params, x: World, id: nat, chunk: seq<byte>)
    requires Fresh(p.pick, WAIT_MATCH_WIDTH) && x.w.phase == Draining(id) && ScanInv(p.pick, x.w.scan, x.w.fed)
    requires FindIndex(p.pick, x.w.fed + chunk).None?
    ensures var y := Take(p, x, id, chunk);
            && y.c == CS.Receive(x.c, id) && y.w == x.w.(scan := y.w.scan, fed := x.w.fed + chunk)
            && ScanInv(p.pick, y.w.scan, y.w.fed)
  {
    FeedRefines(p.pick, x.w.scan, x.w.fed, chunk);
  }

  lemma GapReceived(c: CS.Console, cap: nat, qcap: nat, chunks: seq<seq<byte>>, sent: seq<seq<byte>>, n: nat)
    requires c == GapConsole(cap, qcap, chunks, sent, n, true) && n < |sent|
    ensures CS.Receive(c, 0) == GapConsole(cap, qcap, chunks, sent, n + 1, true)
    ensures c.all[0].ch.Queue() != [] && c.all[0].ch.Queue()[0] == sent[n]
  {
    assert CS.Receive(c, 0).all == map[0 := CS.Sub([], 0, CS.Chan(sent, n + 1, true), true)];
  }

  lemma GapTakes(p: Params, x: World, cap: nat, qcap: nat, chunks: seq<seq<byte>>, sent: seq<seq<byte>>, n: nat)
    requires GapSent(x, cap, qcap, chunks, sent, n, true) && n < |sent|
    requires Fresh(p.pick, WAIT_MATCH_WIDTH)
    requires ScanInv(p.pick, x.w.scan, x.w.fed) && FindIndex(p.pick, x.w.fed + sent[n]).None?
    ensures var y := Act(p, x, false);
            && GapSent(y, cap, qcap, chunks, sent, n + 1, true)
            && y.w.fed == x.w.fed + sent[n] && ScanInv(p.pick, y.w.scan, y.w.fed)
  {
    QuietTake(p, x, 0, sent[n]);
    GapReceived(x.c, cap, qcap, chunks, sent, n);
    DrainTakes(p, x, 0);
  }

  /** The end of the feed, without an error: the waiter leaves and goes on. */
  lemma GapLeaves(p: Params, start: World, was: seq<Move>, y: World, cap: nat, qcap: nat, chunks: seq<seq<byte>>,
                  sent: seq<seq<byte>>) returns (ms: seq<Move>, x: World)
    requires y == Run(p, start, was) && GapSent(y, cap, qcap, chunks, sent, |sent|, true)
    ensures x == Run(p, start, ms)
    ensures x == World(y.c, y.w.(phase := Measuring))
  {
    ms, x := was, y;
    ms, x := GapMove(p, start, ms, x, OWN);
    ms, x := GapMove(p, start, ms, x, OWN);
    ms, x := GapMove(p, start, ms, x, OWN);
    ms, x := GapMove(p, start, ms, x, OWN);
  }

  /** No match occurs in any beginning of the text. */
  ghost predicate Misses(p: Params, s: seq<byte>) {
    && Fresh(p.pick, WAIT_MATCH_WIDTH) && p.includeScrollback == 0
    && forall n :: 0 <= n <= |s| ==> FindIndex(p.pick, s[..n]).None?
  }

  /** It receives the first n of the chunks, in which it finds nothing. */
  lemma {:induction false} GapDrained(p: Params, start: World, was: seq<Move>, x0: World, cap: nat, qcap: nat,
                                      chunks: seq<seq<byte>>, s: seq<byte>, n: nat)
      returns (ms: seq<Move>, x: World)
    requires x0 == Run(p, start, was) && GapSent(x0, cap, qcap, chunks, Singles(s), 0, true)
    requires x0.w.scan == FRESH_SCAN && x0.w.fed == [] && Misses(p, s) && n <= |s|
    ensures x == Run(p, start, ms) && GapSent(x, cap, qcap, chunks, Singles(s), n, true)
    ensures x.w.fed == s[..n] && ScanInv(p.pick, x.w.scan, x.w.fed)
    decreases n
  {
    if n == 0 {
      ms, x := was, x0;
      FreshScanInv(p.pick);
    } else {
      ms, x := GapDrained(p, start, was, x0, cap, qcap, chunks, s, n - 1);
      assert s[..n] == s[..n - 1] + [s[n - 1]];
      GapTakes(p, x, cap, qcap, chunks, Singles(s), n - 1);
      ms, x := GapMove(p, start, ms, x, OWN);
    }
  }

  /** All of the burst received and the end of the feed seen, it goes round again. */
  lemma GapAgain(p: Params, cap: nat, qcap: nat) returns (ms: seq<Move>, x: World)
    requires qcap >= 1 && Misses(p, Burst(qcap))
    ensures x == Run(p, GapStart(cap, qcap), ms)
    ensures x.c == GapConsole(cap, qcap, Singles(Burst(qcap)) + [[98]], Singles(Burst(qcap)), qcap, true)
    ensures x.w.phase == Measuring && x.w.first == Some(0) && !x.w.cancelled
    ensures x.w.armAt == x.w.armTotal == x.w.armReset == x.w.origin == x.w.retries == 0
  {
    var start, chunks := GapStart(cap, qcap), Singles(Burst(qcap)) + [[98]];
    ms, x := GapDetached(p, cap, qcap);
    ms, x := GapDrained(p, start, ms, x, cap, qcap, chunks, Burst(qcap), qcap);
    ms, x := GapLeaves(p, start, ms, x, cap, qcap, chunks, Singles(Burst(qcap)));
  }

  lemma GapCount(x: World, qcap: nat)
    requires qcap >= 1 && x.c.chunks == Singles(Burst(qcap)) + [[98]] && x.c.base == 0 && x.w.armTotal == 0
    ensures Measure(x) == World(x.c, x.w.(phase := Subscribing(Min(qcap + 1, MAX_PATTERN_WINDOW)),
                                          scan := FRESH_SCAN, fed := [], retries := x.w.retries + 1))
  {
    assert x.c.chunks[0..] == x.c.chunks;
    FlattenSingles(Burst(qcap));
    FlattenSnoc(Singles(Burst(qcap)), [98]);
  }

  /** It reads the end of the feed, finds no error, leaves, goes on and measures what it missed. */
  lemma GapMeasured(p: Params, cap: nat, qcap: nat) returns (ms: seq<Move>, x: World)
    requires qcap >= 1 && Misses(p, Burst(qcap))
    ensures x == Run(p, GapStart(cap, qcap), ms)
    ensures x.c.chunks == Singles(Burst(qcap)) + [[98]] && x.c.base == 0 && x.c.cap == cap && x.c.qcap == qcap
    ensures !x.c.closed && x.c.closeErr.None? && x.c.subs == {} && x.c.all.Keys == {0} && x.c.nextID == 1
    ensures x.w == START_WAITER.(phase := Subscribing(Min(qcap + 1, MAX_PATTERN_WINDOW)),
                                 first := Some(0), retries := 1)
  {
    ms, x := GapAgain(p, cap, qcap);
    GapCount(x, qcap);
    ms, x := GapMove(p, GapStart(cap, qcap), ms, x, OWN);
  }

  /** The stream of the example: the burst, "b" and as many bytes again. */
  lemma GapStream(c: CS.Console, qcap: nat)
    requires qcap >= 1 && c.chunks == Singles(Burst(qcap)) + [[98]] + [Cs(qcap)] && c.base == 0
    ensures CS.Stream(c) == Burst(qcap) + [98] + Cs(qcap)
    ensures CS.Ring(c) == Last(CS.Stream(c), c.cap)
  {
    FlattenSingles(Burst(qcap));
    FlattenSnoc(Singles(Burst(qcap)), [98]);
    FlattenSnoc(Singles(Burst(qcap)) + [[98]], Cs(qcap));
    assert c.chunks[0..] == c.chunks;
  }

  /** What a replay of no more than the second half of it holds. */
  lemma GapReplay(c: CS.Console, qcap: nat, r: int)
    requires qcap >= 1 && c.chunks == Singles(Burst(qcap)) + [[98]] + [Cs(qcap)] && c.base == 0
    requires c.cap >= 1 && 1 <= r <= qcap + 1
    ensures CS.ReplayOf(c, r) != [] && IsSuffix(CS.ReplayOf(c, r), CS.Stream(c))
    ensures |CS.ReplayOf(c, r)| <= qcap + 1 && FindIndex(PickAb, CS.ReplayOf(c, r)).None?
  {
    var replay := CS.ReplayOf(c, r);
    CS.ReplayIsTail(c, r);
    GapStream(c, qcap);
    forall i | 0 <= i < |replay|
      ensures replay[i] != 97
    {
      assert replay[i] == CS.Stream(c)[|CS.Stream(c)| - |replay| + i];
    }
    NoAb(replay);
  }

  /** As much is published between measuring the gap and subscribing again. */
  lemma GapReturn(p: Params, cap: nat, qcap: nat) returns (ms: seq<Move>, x: World, replay: seq<byte>)
    requires cap >= 1 && qcap >= 1 && Misses(p, Burst(qcap))
    ensures x == Run(p, GapStart(cap, qcap), ms)
    ensures CS.Stream(x.c) == Burst(qcap) + [98] + Cs(qcap) && !x.c.closed && 1 in x.c.all
    ensures Len(x.c) == 2 * qcap + 1
    ensures replay != [] && |replay| <= qcap + 1 && IsSuffix(replay, CS.Stream(x.c)) && FindIndex(PickAb, replay).None?
    ensures x.c.all[1] == CS.Sub(replay, qcap + 2, CS.Chan([replay], 0, false), false)
    ensures x.w == START_WAITER.(phase := Draining(1), first := Some(0), retries := 1,
                                 origin := 2 * qcap + 1 - |replay|)
  {
    var r := Min(qcap + 1, MAX_PATTERN_WINDOW);
    ms, x := GapMeasured(p, cap, qcap);
    ms, x := GapMove(p, GapStart(cap, qcap), ms, x, Env(CS.EvPublish(Cs(qcap))));
    GapReplay(x.c, qcap, r);
    GapStream(x.c, qcap);
    replay := CS.ReplayOf(x.c, r);
    ghost var c := x.c;
    ms, x := GapMove(p, GapStart(cap, qcap), ms, x, OWN);
    assert CS.EMPTY_CHAN.Send(replay).sent == [] + [replay] == [replay];
    assert x.c.all[1] == CS.NewSub(c, r);
  }

  /** Fed the replay, the waiter finds nothing and has nothing more to do. */
  lemma GapWaitsOn(p: Params, x: World, replay: seq<byte>)
    requires Fresh(p.pick, WAIT_MATCH_WIDTH)
    requires x.w.phase == Draining(1) && x.w.scan == FRESH_SCAN && x.w.fed == [] && !x.w.cancelled
    requires 1 in x.c.all && x.c.all[1].ch == CS.Chan([replay], 0, false) && FindIndex(p.pick, replay).None?
    ensures var y := Act(p, x, false);
            && y.c == CS.Receive(x.c, 1) && y.w == x.w.(scan := y.w.scan, fed := replay)
            && Act(p, y, false) == y
  {
    var y := Take(p, x, 1, replay);
    assert [] + replay == replay;
    FreshScanInv(p.pick);
    QuietTake(p, x, 1, replay);
    AllReceived(x.c, 1, replay);
    DrainTakes(p, x, 1);
    NothingToDrain(p, y, 1);
  }

  lemma AllReceived(c: CS.Console, id: nat, chunk: seq<byte>)
    requires id in c.all && c.all[id].ch == CS.Chan([chunk], 0, false)
    ensures c.all[id].ch.Queue() == [chunk]
    ensures id in CS.Receive(c, id).all && CS.Receive(c, id).all[id].ch == CS.Chan([chunk], 1, false)
  {
  }

  lemma NothingToDrain(p: Params, x: World, id: nat)
    requires id in x.c.all && x.c.all[id].ch.Chan? && !x.c.all[id].ch.closed && x.c.all[id].ch.Queue() == []
    requires !x.w.cancelled
    ensures Drain(p, x, id, false) == x
  {
  }

  /**
   A match can be lost, whatever the capacities: as many chunks as a queue holds, the last of them "a"; "b", which
   detaches the waiter; and, between measuring the gap and subscribing again, as many bytes as were counted missed
   but one. The replay begins after the "a". The pattern has occurred since the first subscribe, the console is
   open and the context is not done, but the waiter has been fed nothing that matches and waits on.
   */
  lemma GapLosesMatch(cap: nat, qcap: nat) returns (ms: seq<Move>, x: World)
    requires cap >= 1 && qcap >= 1
    ensures x == Run(GAP_PARAMS, GapStart(cap, qcap), ms)
    ensures x.w.first == Some(0) && qcap + 1 <= Len(x.c) && Contains(PickAb, CS.Stream(x.c), qcap - 1, qcap + 1)
    ensures !x.c.closed && !x.w.cancelled
    ensures qcap <= x.w.origin <= Len(x.c) && x.w.fed == CS.Stream(x.c)[x.w.origin..]
    ensures x.w.phase == Draining(1) && Act(GAP_PARAMS, x, false) == x
  {
    var replay;
    AbIsFresh();
    forall n | 0 <= n <= qcap
      ensures FindIndex(PickAb, Burst(qcap)[..n]).None?
    {
      NoAb(Burst(qcap)[..n]);
    }
    ms, x, replay := GapReturn(GAP_PARAMS, cap, qcap);
    AbInBurst(CS.Stream(x.c), qcap);
    GapWaitsOn(GAP_PARAMS, x, replay);
    assert Act(GAP_PARAMS, x, false).c.chunks == x.c.chunks;
    ms, x := GapMove(GAP_PARAMS, GapStart(cap, qcap), ms, x, OWN);
  }

  lemma AbInBurst(t: seq<byte>, qcap: nat)
    requires qcap >= 1 && Burst(qcap) + [98] <= t
    ensures Contains(PickAb, t, qcap - 1, qcap + 1)
  {
    var ab := t[qcap - 1..qcap + 1];
    assert ab[0..] == ab && ab[0] == 97 && ab[1] == 98;
  }

  /** A move that keeps to the conditions under which nothing can be lost: once armed no reset, output
      that fits the ring and the window, and none of it between measuring a gap and subscribing again. */
  ghost predicate Quiet(p: Params, x: World, m: Move) {
    m.Env? && !x.w.phase.Arming? ==>
      && !m.e.EvReset?
      && (x.w.phase.Subscribing? && x.w.retries > 0 ==> !m.e.EvPublish?)
      && Fits(CS.Step(x.c, m.e), x.w)
  }

  predicate Fits(c: CS.Console, w: Waiter) {
    Len(c) - w.armAt <= Min(c.cap, MAX_PATTERN_WINDOW)
  }

  ghost predicate QuietRun(p: Params, x: World, ms: seq<Move>)
    decreases ms
  {
    ms != [] ==> Quiet(p, x, ms[0]) && QuietRun(p, Go(p, x, ms[0]), ms[1..])
  }

  /** Every retry so far went back to where the waiter armed. */
  ghost predicate Covered(x: World) {
    && (!x.w.phase.Arming? ==> ResetAt(x.c) == x.w.armReset && Fits(x.c, x.w))
    && (x.w.first.None? <==> x.w.retries == 0 && (x.w.phase.Arming? || x.w.phase.Subscribing?))
    && (x.w.first.Some? ==> x.w.armAt <= x.w.first.value <= Len(x.c) && x.w.origin <= x.w.first.value)
    && (x.w.phase.Subscribing? && x.w.retries > 0 ==> x.w.phase.replay == Len(x.c) - x.w.armAt)
  }

  lemma CoveredEnv(p: Params, x: World, e: CS.Event)
    requires WInv(p, x) && Covered(x) && Quiet(p, x, Env(e))
    ensures Covered(x.(c := CS.Step(x.c, e)))
  {
    StreamGrows(x.c, e);
  }

  lemma CoveredSubscribe(p: Params, x: World, r: int)
    requires WInv(p, x) && Covered(x) && x.w.phase == Subscribing(r)
    ensures Covered(DoSubscribe(x, r))
  {
    SubscribeLinks(x, r);
    RetryBeginsExactly(x, r);
    TotalSinceReset(x.c);
  }

  lemma CoveredMeasure(p: Params, x: World)
    requires WInv(p, x) && Covered(x) && x.w.phase.Measuring?
    ensures Covered(Measure(x))
  {
    TotalSinceReset(x.c);
  }

  lemma CoveredStop(x: World, phase: Phase)
    requires Covered(x) && x.w.phase.Draining? && (phase.CheckingErr? || phase.Leaving?)
    ensures Covered(x.(w := x.w.(phase := phase)))
  {
  }

  lemma CoveredTake(p: Params, x: World, id: nat, chunk: seq<byte>)
    requires CS.Inv(x.c) && Covered(x) && x.w.phase == Draining(id)
    ensures Covered(Take(p, x, id, chunk))
  {
    StreamGrows(x.c, CS.EvReceive(id));
  }

  lemma CoveredDrain(p: Params, x: World, id: nat, preferCtx: bool)
    requires CS.Inv(x.c) && Covered(x) && x.w.phase == Draining(id)
    ensures Covered(Drain(p, x, id, preferCtx))
  {
    if id in x.c.all {
      match Select(x.c.all[id].ch, x.w.cancelled, preferCtx)
      case ByCtx => CoveredStop(x, Leaving(id, None, false));
      case ByChunk(chunk) => CoveredTake(p, x, id, chunk);
      case ByEnd => CoveredStop(x, CheckingErr(id));
      case Nothing =>
    }
  }

  lemma CoveredAct(p: Params, x: World, preferCtx: bool)
    requires WInv(p, x) && Covered(x)
    ensures Covered(Act(p, x, preferCtx))
  {
    match x.w.phase
    case Subscribing(r) => CoveredSubscribe(p, x, r);
    case Draining(id) => CoveredDrain(p, x, id, preferCtx);
    case Leaving(id, found, retry) => StreamGrows(x.c, CS.EvUnsubscribe(id));
    case Measuring => CoveredMeasure(p, x);
    case _ =>
  }

  lemma {:induction false} QuietRunKeeps(p: Params, x: World, ms: seq<Move>)
    requires Fresh(p.pick, WAIT_MATCH_WIDTH) && WInv(p, x) && Covered(x) && QuietRun(p, x, ms)
    ensures WInv(p, Run(p, x, ms)) && Covered(Run(p, x, ms))
    decreases ms
  {
    if ms != [] {
      GoKeeps(p, x, ms[0]);
      match ms[0] {
        case Env(e) =>
          if Foreign(x.w, e) {
            CoveredEnv(p, x, e);
          }
        case Cancel =>
        case Advance(preferCtx) => CoveredAct(p, x, preferCtx);
      }
      QuietRunKeeps(p, Go(p, x, ms[0]), ms[1..]);
    }
  }

  /** A stretch of the stream, published since the first Subscribe, in which the pattern occurs. */
  ghost predicate Occurs(p: Params, x: World, a: nat, b: nat) {
    && x.w.first.Some? && x.w.first.value <= a < b <= Len(x.c)
    && Contains(p.pick, CS.Stream(x.c), a, b)
  }

  lemma NotInFed(pick: Matcher<byte>, text: seq<byte>, fed: seq<byte>, o: nat, a: nat, b: nat)
    requires Persistent(pick)
    requires o <= a < b && o + |fed| <= |text| && fed == text[o..o + |fed|] && Contains(pick, text, a, b)
    requires fed != [] ==> FindIndex(pick, fed).None?
    ensures b > o + |fed|
  {
    assert b <= o + |fed| ==> Contains(pick, text, o, o + |fed|);
  }

  lemma DrainingFacts(p: Params, x: World, a: nat, b: nat)
    requires WInv(p, x) && Covered(x) && x.w.phase.Draining? && Occurs(p, x, a, b)
    ensures FedOK(x.c, x.w) && x.w.origin <= a < b && Contains(p.pick, CS.Stream(x.c), a, b)
    ensures x.w.fed != [] ==> FindIndex(p.pick, x.w.fed).None?
  {
  }

  /** A waiter still draining has not been fed any occurrence. */
  lemma NotYetFed(p: Params, x: World, a: nat, b: nat)
    requires Persistent(p.pick)
    requires WInv(p, x) && Covered(x) && x.w.phase.Draining? && Occurs(p, x, a, b)
    ensures b > x.w.origin + |x.w.fed|
  {
    DrainingFacts(p, x, a, b);
    NotInFed(p.pick, CS.Stream(x.c), x.w.fed, x.w.origin, a, b);
  }

  // ---- ... and every one is reported --------------------------------------------------

  /** How many of its own actions the waiter still has to take. */
  function Rank(x: World): nat {
    match x.w.phase
    case Finished(_) => 0
    case Deciding(found, _) => if found.Some? then 1 else 7
    case Leaving(_, found, _) => if found.Some? then 2 else 8
    case Draining(id) =>
      if id !in x.c.all then 0
      else if id in x.c.subs then 3 + |x.c.all[id].ch.Queue()| else 10 + |x.c.all[id].ch.Queue()|
    case Subscribing(_) => 5
    case Measuring => 6
    case CheckingErr(_) => 9
    case Arming => 11
  }

  /** Nothing stands in the way of a report: console open, context not done, an occurrence out there. */
  ghost predicate Ripe(p: Params, x: World, a: nat, b: nat) {
    WInv(p, x) && Covered(x) && !x.w.cancelled && !x.c.closed && Occurs(p, x, a, b)
  }

  /** What the waiter's own actions leave alone. */
  lemma ActIsLocal(p: Params, x: World, preferCtx: bool)
    requires CS.Inv(x.c)
    ensures var y := Act(p, x, preferCtx);
            && CS.Stream(y.c) == CS.Stream(x.c) && y.c.closed == x.c.closed && y.c.cap == x.c.cap
            && y.w.cancelled == x.w.cancelled
            && (x.w.first.Some? ==> y.w.first == x.w.first)
            && (!x.w.phase.Arming? ==> y.w.armAt == x.w.armAt)
  {
    match x.w.phase
    case Subscribing(r) => StreamGrows(x.c, CS.EvSubscribe(r));
    case Draining(id) => DrainIsLocal(p, x, id, preferCtx);
    case Leaving(id, _, _) => StreamGrows(x.c, CS.EvUnsubscribe(id));
    case _ =>
  }

  lemma DrainIsLocal(p: Params, x: World, id: nat, preferCtx: bool)
    requires CS.Inv(x.c)
    ensures var y := Drain(p, x, id, preferCtx);
            && CS.Stream(y.c) == CS.Stream(x.c) && y.c.closed == x.c.closed && y.c.cap == x.c.cap
            && y.w.cancelled == x.w.cancelled && y.w.first == x.w.first && y.w.armAt == x.w.armAt
  {
    StreamGrows(x.c, CS.EvReceive(id));
    assert CS.Receive(x.c, id).closed == x.c.closed;
  }

  lemma OccursLater(p: Params, x: World, y: World, a: nat, b: nat)
    requires Occurs(p, x, a, b) && y.w.first == x.w.first && CS.Stream(x.c) <= CS.Stream(y.c)
    ensures Occurs(p, y, a, b)
  {
    assert CS.Stream(x.c)[a..b] == CS.Stream(y.c)[a..b];
  }

  lemma OccursStays(p: Params, x: World, a: nat, b: nat, preferCtx: bool)
    requires Ripe(p, x, a, b) && Fresh(p.pick, WAIT_MATCH_WIDTH)
    ensures Ripe(p, Act(p, x, preferCtx), a, b)
  {
    ActKeeps(p, x, preferCtx);
    CoveredAct(p, x, preferCtx);
    ActIsLocal(p, x, preferCtx);
    OccursLater(p, x, Act(p, x, preferCtx), a, b);
  }

  /** With its feed live, the waiter has more to read: everything read so far held no match. */
  lemma LiveHasMore(p: Params, x: World, id: nat, a: nat, b: nat)
    requires Persistent(p.pick)
    requires Ripe(p, x, a, b) && x.w.phase == Draining(id) && id in x.c.subs
    ensures x.c.all[id].ch.Queue() != []
  {
    NotYetFed(p, x, a, b);
    CS.ContiguousSuffix(x.c, id);
  }

  lemma DrainTakes(p: Params, x: World, id: nat)
    requires id in x.c.all && x.c.all[id].ch.Queue() != []
    ensures Drain(p, x, id, false) == Take(p, x, id, x.c.all[id].ch.Queue()[0])
  {
  }

  lemma QueueShrinks(ch: CS.Chan)
    requires ch.Queue() != []
    ensures |ch.Receive().Queue()| == |ch.Queue()| - 1
  {
  }

  lemma TakeRanks(p: Params, x: World, id: nat, chunk: seq<byte>)
    requires x.w.phase == Draining(id) && id in x.c.all && x.c.all[id].ch.Queue() != []
    ensures Rank(Take(p, x, id, chunk)) < Rank(x)
  {
    QueueShrinks(x.c.all[id].ch);
  }

  /** Reading what is queued brings the waiter closer to the end. */
  lemma QueuedRanks(p: Params, x: World, id: nat)
    requires x.w.phase == Draining(id) && id in x.c.all && x.c.all[id].ch.Queue() != []
    ensures Rank(Drain(p, x, id, false)) < Rank(x)
  {
    DrainTakes(p, x, id);
    TakeRanks(p, x, id, x.c.all[id].ch.Queue()[0]);
  }

  /** So does finding a detached feed at its end. */
  lemma DryRanks(p: Params, x: World, id: nat)
    requires x.w.phase == Draining(id) && id in x.c.all && id !in x.c.subs
    requires x.c.all[id].ch.Queue() == [] && x.c.all[id].ch.Chan? && x.c.all[id].ch.closed
    ensures Rank(Drain(p, x, id, false)) < Rank(x)
  {
  }

  lemma DetachedIsClosed(c: CS.Console, id: nat)
    requires CS.Inv(c) && id in c.all && id !in c.subs
    ensures c.all[id].ch.Chan? && c.all[id].ch.closed
  {
    assert CS.SubOK(c, id, c.all[id]);
  }

  lemma DrainRanks(p: Params, x: World, id: nat, a: nat, b: nat)
    requires Persistent(p.pick)
    requires Ripe(p, x, a, b) && x.w.phase == Draining(id)
    ensures id in x.c.all && Rank(Drain(p, x, id, false)) < Rank(x)
  {
    assert id in x.c.all;
    if id in x.c.subs {
      LiveHasMore(p, x, id, a, b);
      QueuedRanks(p, x, id);
    } else if x.c.all[id].ch.Queue() != [] {
      QueuedRanks(p, x, id);
    } else {
      DetachedIsClosed(x.c, id);
      DryRanks(p, x, id);
    }
  }

  /** Subscribing again gives a live feed with at most the replay in it. */
  lemma SubscribeRanks(x: World, r: int)
    requires CS.Inv(x.c) && !x.c.closed && x.w.phase == Subscribing(r)
    ensures Rank(DoSubscribe(x, r)) < Rank(x)
  {
    NewBegins(x.c, r);
  }

  /** Giving up is not an option: the context is not done and the console is open. */
  ghost predicate MustGoOn(x: World) {
    && !x.w.cancelled && x.c.closeErr.None?
    && (x.w.phase.Leaving? && x.w.phase.found.None? ==> x.w.phase.retry)
    && (x.w.phase.Deciding? && x.w.phase.found.None? ==> x.w.phase.retry)
  }

  /** Every other action that does not finish the wait is followed by one closer to its end. */
  lemma OtherRanks(p: Params, x: World)
    requires MustGoOn(x)
    requires !x.w.phase.Finished? && !x.w.phase.Draining? && !x.w.phase.Subscribing?
    ensures Rank(Act(p, x, false)) < Rank(x)
  {
  }

  lemma RipeGoesOn(p: Params, x: World, a: nat, b: nat)
    requires Ripe(p, x, a, b)
    ensures MustGoOn(x)
  {
  }

  /** With the context not done there is nothing to prefer. */
  lemma NothingToPrefer(p: Params, x: World, preferCtx: bool)
    requires !x.w.cancelled
    ensures Act(p, x, preferCtx) == Act(p, x, false)
  {
  }

  lemma ActRanks(p: Params, x: World, a: nat, b: nat, preferCtx: bool)
    requires Persistent(p.pick) && Ripe(p, x, a, b)
    ensures Rank(Act(p, x, preferCtx)) <= Max(0, Rank(x) - 1)
  {
    NothingToPrefer(p, x, preferCtx);
    match x.w.phase
    case Finished(_) =>
    case Subscribing(r) => SubscribeRanks(x, r);
    case Draining(id) => DrainRanks(p, x, id, a, b);
    case _ =>
      RipeGoesOn(p, x, a, b);
      OtherRanks(p, x);
  }

  lemma RankZero(p: Params, x: World, a: nat, b: nat)
    requires Ripe(p, x, a, b) && Rank(x) == 0
    ensures Reports(x)
  {
  }

  predicate Reports(x: World) {
    x.w.phase.Finished? && x.w.phase.outcome.Matched?
  }

  /** How many more bytes may be published before the output no longer fits. */
  function Room(x: World): nat {
    Max(0, Min(x.c.cap, MAX_PATTERN_WINDOW) - (Len(x.c) - x.w.armAt))
  }

  /** A bound on the waiter's own actions until it reports, whatever else is published while it fits. */
  function Bound(x: World): nat {
    Rank(x) + 8 * Room(x)
  }

  /** Moves that leave the context and the console open; the read loop publishes no empty chunk. */
  predicate Steady(m: Move) {
    match m
    case Env(e) => !e.EvClose? && (e.EvPublish? ==> e.p != [])
    case Cancel => false
    case Advance(_) => true
  }

  predicate AllSteady(ms: seq<Move>) {
    forall k :: 0 <= k < |ms| ==> Steady(ms[k])
  }

  /** How many of the moves are the waiter's own. */
  function Advances(ms: seq<Move>): nat {
    if ms == [] then 0 else (if ms[0].Advance? then 1 else 0) + Advances(ms[1..])
  }

  /** One more chunk in the queue, or the detach of a full one. */
  lemma PublishRanks(x: World, q: seq<byte>)
    requires CS.Inv(x.c)
    ensures Rank(x.(c := CS.Publish(x.c, q))) <= Rank(x) + 7
  {
    match x.w.phase
    case Draining(id) =>
      if id in x.c.all {
        assert CS.SubOK(x.c, id, x.c.all[id]);
        PublishedQueue(x.c, q, id);
      }
    case _ =>
  }

  lemma PublishedQueue(c: CS.Console, q: seq<byte>, id: nat)
    requires id in c.all && c.all[id].ch.Chan? && c.all[id].ch.received <= |c.all[id].ch.sent|
    requires (id in c.subs <==> !c.all[id].closed) && c.all[id].ch.closed == c.all[id].closed
    ensures var d, n := CS.Publish(c, q), |c.all[id].ch.Queue()|;
            id in d.all && (if id in d.subs then id in c.subs && |d.all[id].ch.Queue()| == n + 1
                            else |d.all[id].ch.Queue()| == n)
  {
  }

  lemma OtherEventRanks(x: World, e: CS.Event)
    requires x.w.phase.Draining? ==> x.w.phase.id in x.c.all && x.w.phase.id < x.c.nextID
    requires Foreign(x.w, e) && !e.EvPublish? && !e.EvClose?
    ensures Rank(x.(c := CS.Step(x.c, e))) == Rank(x)
  {
    match e
    case EvSubscribe(n) =>
    case EvUnsubscribe(id) =>
    case EvReceive(id) =>
    case EvReset =>
  }

  /** Publishing uses up room faster than it sets the waiter back. */
  lemma PublishBound(x: World, q: seq<byte>)
    requires CS.Inv(x.c) && q != [] && Fits(CS.Publish(x.c, q), x.w)
    ensures Bound(x.(c := CS.Publish(x.c, q))) <= Bound(x)
  {
    PublishRanks(x, q);
    FlattenSnoc(x.c.chunks, q);
  }

  lemma OtherEventBound(x: World, e: CS.Event)
    requires CS.Inv(x.c) && Foreign(x.w, e) && !e.EvPublish? && !e.EvClose?
    requires x.w.phase.Draining? ==> x.w.phase.id in x.c.all
    ensures Bound(x.(c := CS.Step(x.c, e))) == Bound(x)
  {
    StreamGrows(x.c, e);
    OtherEventRanks(x, e);
  }

  lemma EnvRipe(p: Params, x: World, e: CS.Event, a: nat, b: nat)
    requires Ripe(p, x, a, b) && Foreign(x.w, e) && Quiet(p, x, Env(e)) && !e.EvClose?
    ensures Ripe(p, x.(c := CS.Step(x.c, e)), a, b)
  {
    EnvKeeps(p, x, e);
    CoveredEnv(p, x, e);
    StreamGrows(x.c, e);
    OccursLater(p, x, x.(c := CS.Step(x.c, e)), a, b);
    assert CS.Step(x.c, e).closed == x.c.closed;
  }

  /** One move of a quiet, steady continuation: the occurrence stays out there and the bound does not grow. */
  lemma MoveBounds(p: Params, x: World, m: Move, a: nat, b: nat)
    requires Fresh(p.pick, WAIT_MATCH_WIDTH) && Persistent(p.pick)
    requires Ripe(p, x, a, b) && Quiet(p, x, m) && Steady(m)
    ensures Ripe(p, Go(p, x, m), a, b)
    ensures Bound(Go(p, x, m)) <= Bound(x)
    ensures m.Advance? && Rank(x) > 0 ==> Bound(Go(p, x, m)) < Bound(x)
  {
    match m
    case Env(e) =>
      if Foreign(x.w, e) {
        EnvRipe(p, x, e, a, b);
        if e.EvPublish? {
          PublishBound(x, e.p);
        } else {
          OtherEventBound(x, e);
        }
      }
    case Advance(preferCtx) =>
      OccursStays(p, x, a, b, preferCtx);
      ActRanks(p, x, a, b, preferCtx);
      ActIsLocal(p, x, preferCtx);
  }

  lemma {:induction false} ReportStays(p: Params, x: World, ms: seq<Move>)
    requires Reports(x)
    ensures Reports(Run(p, x, ms))
    decreases ms
  {
    if ms != [] {
      ReportStays(p, Go(p, x, ms[0]), ms[1..]);
    }
  }

  /** With an occurrence out there, any quiet and steady continuation in which the waiter takes Bound of its own
      actions ends with its report, whatever others do in between. */
  lemma {:induction false} OccurrenceIsReported(p: Params, x: World, a: nat, b: nat, ms: seq<Move>)
    requires Fresh(p.pick, WAIT_MATCH_WIDTH) && Persistent(p.pick)
    requires Ripe(p, x, a, b) && QuietRun(p, x, ms) && AllSteady(ms) && Advances(ms) >= Bound(x)
    ensures Reports(Run(p, x, ms))
    decreases ms
  {
    if Rank(x) == 0 {
      RankZero(p, x, a, b);
      ReportStays(p, x, ms);
    } else {
      MoveBounds(p, x, ms[0], a, b);
      OccurrenceIsReported(p, Go(p, x, ms[0]), a, b, ms[1..]);
    }
  }

  /**
   No match is lost. Whatever quiet interleaving came before, on whatever reachable console, and however
   often the waiter was detached: once the pattern has occurred anywhere in what was published since the
   first Subscribe, the waiter reports a match after at most Bound more of its own actions, however these
   are interleaved with quiet and steady moves of others.
   */
  lemma NoMatchIsLost(p: Params, m: seq<byte> -> bool, c: CS.Console, ms: seq<Move>, more: seq<Move>, a: nat, b: nat)
    requires SubstringLocal(p.pick, m, WAIT_MATCH_WIDTH)
    requires CS.Inv(c) && QuietRun(p, World(c, START_WAITER), ms)
    requires var x := Run(p, World(c, START_WAITER), ms);
             && Occurs(p, x, a, b) && !x.w.cancelled && !x.c.closed
             && QuietRun(p, x, more) && AllSteady(more) && Advances(more) >= Bound(x)
    ensures Reports(Run(p, Run(p, World(c, START_WAITER), ms), more))
  {
    SubstringLocalIsFresh(p.pick, m, WAIT_MATCH_WIDTH);
    SubstringLocalPersists(p.pick, m, WAIT_MATCH_WIDTH);
    NoMatchIsLostFrom(p, World(c, START_WAITER), ms, more, a, b);
  }

  lemma NoMatchIsLostFrom(p: Params, x0: World, ms: seq<Move>, more: seq<Move>, a: nat, b: nat)
    requires Fresh(p.pick, WAIT_MATCH_WIDTH) && Persistent(p.pick)
    requires CS.Inv(x0.c) && x0.w == START_WAITER && QuietRun(p, x0, ms)
    requires var x := Run(p, x0, ms);
             && Occurs(p, x, a, b) && !x.w.cancelled && !x.c.closed
             && QuietRun(p, x, more) && AllSteady(more) && Advances(more) >= Bound(x)
    ensures Reports(Run(p, Run(p, x0, ms), more))
  {
    StartInv(p, x0.c);
    QuietRunKeeps(p, x0, ms);
    OccurrenceIsReported(p, Run(p, x0, ms), a, b, more);
  }
}
