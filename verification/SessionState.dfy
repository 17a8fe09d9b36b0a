/**
 The single-user hardware lock as a state machine over values: every critical section of the lock
 manager, and the world around it of calls in flight, parked waiters and a clock.
 */
module SessionState {
  import opened Bytes

  datatype Turn = Acquired(id: string) | Released(id: string)

  /** The manager's fields. `closes` counts, for every channel it ever made, how often it was closed
      (a second close panics); `log` records acquisitions and releases. The empty id means free. */
  datatype Manager = Manager(
    ttl: int,
    id: string,
    owner: string,
    startedAt: int,
    lastActivity: int,
    activeCalls: int,
    released: Option<nat>,
    closes: seq<nat>,
    log: seq<Turn>)

  datatype Info = NoSession | Session(id: string, owner: string, startedAt: int, expiresAt: int)

  datatype Attempt = Got(info: Info) | Busy(rel: Option<nat>, owner: string, expiresAt: int)

  const DEFAULT_TTL: int := 300_000_000_000  // five minutes, in nanoseconds

  function NewManager(ttl: int): Manager {
    Manager(if ttl <= 0 then DEFAULT_TTL else ttl, "", "", 0, 0, 0, None, [], [])
  }

  // ---- Critical sections ----------------------------------------------------------

  function ExpiresAt(m: Manager): int {
    m.lastActivity + m.ttl
  }

  function InfoOf(m: Manager): Info {
    if m.id == "" then NoSession else Session(m.id, m.owner, m.startedAt, ExpiresAt(m))
  }

  /** Frees the lock and closes the channel that waiters of this session are parked on. */
  function Clear(m: Manager): Manager {
    m.(id := "", owner := "", activeCalls := 0, released := None,
       closes := match m.released
                 case Some(k) => if k < |m.closes| then m.closes[k := m.closes[k] + 1] else m.closes
                 case None => m.closes,
       log := if m.id == "" then m.log else m.log + [Released(m.id)])
  }

  predicate Expired(m: Manager, now: int) {
    m.id != "" && m.activeCalls <= 0 && now > ExpiresAt(m)
  }

  function ExpireIfIdle(m: Manager, now: int): Manager {
    if Expired(m, now) then Clear(m) else m
  }

  function Begin(m: Manager, now: int, owner: string, newId: string): Manager {
    m.(id := newId, owner := owner, startedAt := now, lastActivity := now, activeCalls := 0,
       released := Some(|m.closes|), closes := m.closes + [0], log := m.log + [Acquired(newId)])
  }

  /** One pass of the acquire loop. */
  function TryAcquire(m: Manager, now: int, owner: string, newId: string): (Manager, Attempt) {
    var e := ExpireIfIdle(m, now);
    if e.id == "" then (Begin(e, now, owner, newId), Got(InfoOf(Begin(e, now, owner, newId))))
    else (e, Busy(e.released, e.owner, ExpiresAt(e)))
  }

  /** Finishing a free lock is a no-op; finishing somebody else's is refused. */
  function Finish(m: Manager, id: string): (Manager, bool) {
    if m.id == id then (Clear(m), true) else (m, m.id == "")
  }

  predicate Holds(m: Manager, id: string) {
    m.id != "" && m.id == id
  }

  function Refresh(m: Manager, now: int, id: string): (Manager, bool) {
    var e := ExpireIfIdle(m, now);
    if Holds(e, id) then (e.(lastActivity := now), true) else (e, false)
  }

  function CallStart(m: Manager, now: int, id: string): (Manager, bool) {
    var e := ExpireIfIdle(m, now);
    if Holds(e, id) then (e.(lastActivity := now, activeCalls := e.activeCalls + 1), true) else (e, false)
  }

  function CallEnd(m: Manager, now: int, id: string): Manager {
    if m.id == id && m.activeCalls > 0 then m.(activeCalls := m.activeCalls - 1, lastActivity := now) else m
  }

  // ---- The world around the manager --------------------------------------------------

  datatype Rpc =
    | GetStatus | StreamConsole | ReadConsoleLog | StartSession | FinishSession | Ping
    | Operational(name: string)

  /** Calls the lock does not gate. */
  predicate Exempt(rpc: Rpc) {
    !rpc.Operational?
  }

  /** The manager, the clock, the ids of operational calls in flight, each parked waiter with the
      channel it waits on, and every session id handed out so far. */
  datatype World = World(
    m: Manager,
    now: int,
    inflight: multiset<string>,
    parked: map<nat, nat>,
    used: set<string>)

  datatype Event =
    | Tick(d: nat)
    | Reap
    | GetInfo
    | TryLock(w: nat, owner: string, newId: string, failFast: bool)
    | Wake(w: nat)
    | GiveUp(w: nat)
    | End(id: string)              // FinishSession
    | KeepAlive(id: string)        // Ping
    | RpcBegins(rpc: Rpc, id: string)
    | RpcMessage(id: string)       // a message on a stream in flight
    | RpcReturns(id: string)

  /** A waiter that is not parked attempts the lock with a fresh id; if it is held, it parks or fails. */
  function DoTryLock(s: World, w: nat, owner: string, newId: string, failFast: bool): World {
    if w in s.parked || newId == "" || newId in s.used then s
    else
      var (m, a) := TryAcquire(s.m, s.now, owner, newId);
      match a
      case Got(_) => s.(m := m, used := s.used + {newId})
      case Busy(rel, _, _) =>
        s.(m := m, parked := if failFast || rel.None? then s.parked else s.parked[w := rel.value])
  }

  predicate Awake(s: World, w: nat) {
    w in s.parked && s.parked[w] < |s.m.closes| && s.m.closes[s.parked[w]] > 0
  }

  function Step(s: World, e: Event): World {
    match e
    case Tick(d) => s.(now := s.now + d)
    case Reap => s.(m := ExpireIfIdle(s.m, s.now))
    case GetInfo => s.(m := ExpireIfIdle(s.m, s.now))
    case TryLock(w, owner, newId, failFast) => DoTryLock(s, w, owner, newId, failFast)
    case Wake(w) => if Awake(s, w) then s.(parked := s.parked - {w}) else s
    case GiveUp(w) => s.(parked := s.parked - {w})
    case End(id) => s.(m := Finish(s.m, id).0)
    case KeepAlive(id) => s.(m := Refresh(s.m, s.now, id).0)
    case RpcBegins(rpc, id) =>
      if Exempt(rpc) then s
      else
        var (m, ok) := CallStart(s.m, s.now, id);
        s.(m := m, inflight := if ok then s.inflight + multiset{id} else s.inflight)
    case RpcMessage(id) => if id in s.inflight then s.(m := Refresh(s.m, s.now, id).0) else s
    case RpcReturns(id) =>
      if id in s.inflight then s.(m := CallEnd(s.m, s.now, id), inflight := s.inflight - multiset{id}) else s
  }

  function Run(s: World, es: seq<Event>): World
    decreases es
  {
    if es == [] then s else Run(Step(s, es[0]), es[1..])
  }

  function InitWorld(ttl: int, now: int): World {
    World(NewManager(ttl), now, multiset{}, map[], {})
  }

  // ---- Invariant ------------------------------------------------------------------------

  /** Every channel but the current session's has been closed exactly once, that one not at all. */
  ghost predicate ChannelsOK(m: Manager) {
    && (m.id == "" <==> m.released.None?)
    && (m.released.Some? ==> m.released.value + 1 == |m.closes|)
    && (forall k :: 0 <= k < |m.closes| ==> m.closes[k] == if m.released == Some(k) then 0 else 1)
  }

  /** A history that alternates between acquiring and releasing the same id, ending as the lock stands. */
  predicate Alternates(log: seq<Turn>, id: string) {
    if log == [] then id == ""
    else
      var before, last := log[..|log| - 1], log[|log| - 1];
      match last
      case Acquired(x) => x == id && id != "" && Alternates(before, "")
      case Released(x) => id == "" && x != "" && Alternates(before, x)
  }

  function Holding(s: World): nat {
    if s.m.id == "" then 0 else s.inflight[s.m.id]
  }

  ghost predicate Inv(s: World) {
    && ChannelsOK(s.m) && Alternates(s.m.log, s.m.id)
    && s.m.activeCalls == Holding(s)
    && "" !in s.used && (s.m.id != "" ==> s.m.id in s.used)
    && (forall id :: id in s.inflight ==> id in s.used)
    && (forall w :: w in s.parked ==> s.parked[w] < |s.m.closes|)
  }

  lemma InitInv(ttl: int, now: int)
    ensures Inv(InitWorld(ttl, now))
  {
  }

  lemma ClearOK(m: Manager)
    requires ChannelsOK(m) && Alternates(m.log, m.id)
    ensures ChannelsOK(Clear(m)) && Alternates(Clear(m).log, "")
    ensures |Clear(m).closes| == |m.closes|
  {
    if m.id != "" {
      var log := Clear(m).log;
      assert log[..|log| - 1] == m.log;
    }
  }

  lemma BeginOK(m: Manager, now: int, owner: string, newId: string)
    requires ChannelsOK(m) && Alternates(m.log, m.id) && m.id == "" && newId != ""
    ensures ChannelsOK(Begin(m, now, owner, newId)) && Alternates(Begin(m, now, owner, newId).log, newId)
  {
    var log := Begin(m, now, owner, newId).log;
    assert log[..|log| - 1] == m.log;
  }

  /** An expiry, or none, keeps everything: it happens only with no call of the holder in flight. */
  lemma ExpireKeeps(s: World)
    requires Inv(s)
    ensures Inv(s.(m := ExpireIfIdle(s.m, s.now)))
  {
    ClearOK(s.m);
  }

  lemma TryLockKeeps(s: World, w: nat, owner: string, newId: string, failFast: bool)
    requires Inv(s)
    ensures Inv(DoTryLock(s, w, owner, newId, failFast))
  {
    var e := ExpireIfIdle(s.m, s.now);
    ExpireKeeps(s);
    if e.id == "" && newId != "" {
      BeginOK(e, s.now, owner, newId);
    }
  }

  lemma BeginCallKeeps(s: World, rpc: Rpc, id: string)
    requires Inv(s)
    ensures Inv(Step(s, RpcBegins(rpc, id)))
  {
    ExpireKeeps(s);
  }

  lemma ReturnKeeps(s: World, id: string)
    requires Inv(s)
    ensures Inv(Step(s, RpcReturns(id)))
  {
  }

  lemma RefreshKeeps(s: World, id: string)
    requires Inv(s)
    ensures Inv(s.(m := Refresh(s.m, s.now, id).0))
  {
    ExpireKeeps(s);
  }

  lemma UnparkKeeps(s: World, w: nat)
    requires Inv(s)
    ensures Inv(s.(parked := s.parked - {w}))
  {
  }

  lemma EndKeeps(s: World, id: string)
    requires Inv(s)
    ensures Inv(s.(m := Finish(s.m, id).0))
  {
    ClearOK(s.m);
  }

  lemma StepInv(s: World, e: Event)
    requires Inv(s)
    ensures Inv(Step(s, e))
  {
    match e
    case Reap => ExpireKeeps(s);
    case GetInfo => ExpireKeeps(s);
    case TryLock(w, owner, newId, failFast) => TryLockKeeps(s, w, owner, newId, failFast);
    case End(id) => EndKeeps(s, id);
    case RpcBegins(rpc, id) => BeginCallKeeps(s, rpc, id);
    case RpcReturns(id) => ReturnKeeps(s, id);
    case KeepAlive(id) => RefreshKeeps(s, id);
    case RpcMessage(id) => RefreshKeeps(s, id);
    case Wake(w) => UnparkKeeps(s, w);
    case GiveUp(w) => UnparkKeeps(s, w);
    case Tick(_) =>
  }

  /** Time only moves forward and an id once handed out stays used. */
  lemma StepGrows(s: World, e: Event)
    ensures s.now <= Step(s, e).now && s.used <= Step(s, e).used
  {
  }

  /** The invariant holds in every reachable state, with a clock that does not go back and ids never reused. */
  lemma {:induction false} RunInv(s: World, es: seq<Event>)
    requires Inv(s)
    ensures Inv(Run(s, es)) && s.now <= Run(s, es).now && s.used <= Run(s, es).used
    decreases es
  {
    if es != [] {
      StepInv(s, es[0]);
      StepGrows(s, es[0]);
      RunInv(Step(s, es[0]), es[1..]);
    }
  }

  /**
   In every reachable state the call counter is the number of calls in flight that carry the current
   holder's id, and zero when the lock is free, however sessions and stale calls overlapped before.
   */
  lemma CounterIsExact(ttl: int, now: int, es: seq<Event>)
    ensures var s := Run(InitWorld(ttl, now), es);
            s.m.activeCalls == (if s.m.id == "" then 0 else s.inflight[s.m.id])
  {
    InitInv(ttl, now);
    RunInv(InitWorld(ttl, now), es);
  }

  // ---- What one event does to the holder, the calls in flight and the last activity ----------

  /** An event that gets as far as attempting the lock. */
  predicate Attempts(s: World, e: Event) {
    e.TryLock? && e.w !in s.parked && e.newId != "" && e.newId !in s.used
  }

  /** The holder, once an event that looks for idleness has looked. */
  function Kept(s: World): string {
    if Expired(s.m, s.now) then "" else s.m.id
  }

  function HolderAfter(s: World, e: Event): string {
    match e
    case Reap => Kept(s)
    case GetInfo => Kept(s)
    case TryLock(_, _, newId, _) => if !Attempts(s, e) then s.m.id else if Kept(s) == "" then newId else Kept(s)
    case End(id) => if s.m.id == id then "" else s.m.id
    case KeepAlive(_) => Kept(s)
    case RpcBegins(rpc, _) => if Exempt(rpc) then s.m.id else Kept(s)
    case RpcMessage(id) => if id in s.inflight then Kept(s) else s.m.id
    case _ => s.m.id
  }

  lemma HolderStep(s: World, e: Event)
    ensures Step(s, e).m.id == HolderAfter(s, e)
  {
    match e
    case TryLock(w, owner, newId, failFast) => AttemptHolder(s, w, owner, newId, failFast);
    case KeepAlive(id) => RefreshHolder(s.m, s.now, id);
    case RpcBegins(rpc, id) => RefreshHolder(s.m, s.now, id);
    case RpcMessage(id) => RefreshHolder(s.m, s.now, id);
    case _ =>
  }

  lemma AttemptHolder(s: World, w: nat, owner: string, newId: string, failFast: bool)
    ensures DoTryLock(s, w, owner, newId, failFast).m.id == HolderAfter(s, TryLock(w, owner, newId, failFast))
  {
  }

  lemma RefreshHolder(m: Manager, now: int, id: string)
    ensures Refresh(m, now, id).0.id == CallStart(m, now, id).0.id == if Expired(m, now) then "" else m.id
  {
  }

  /** A call is admitted: it is gated, and carries the id of a holder that is not overdue. */
  predicate Admits(s: World, e: Event) {
    e.RpcBegins? && !Exempt(e.rpc) && Kept(s) != "" && e.id == Kept(s)
  }

  function CallsAfter(s: World, e: Event): multiset<string> {
    if Admits(s, e) then s.inflight + multiset{e.id}
    else if e.RpcReturns? && e.id in s.inflight then s.inflight - multiset{e.id}
    else s.inflight
  }

  lemma CallsStep(s: World, e: Event)
    ensures Step(s, e).inflight == CallsAfter(s, e)
  {
  }

  // ---- Exclusion ------------------------------------------------------------------------

  /** Every operational call in flight belongs to the current holder. */
  ghost predicate Exclusive(s: World) {
    forall id :: id in s.inflight ==> id == s.m.id
  }

  /** A session is finished while it still has calls in flight. */
  predicate FinishesMidCall(s: World, e: Event) {
    e.End? && s.m.id != "" && e.id == s.m.id && s.m.activeCalls > 0
  }

  ghost predicate ExclusiveThroughout(s: World, es: seq<Event>)
    decreases es
  {
    Exclusive(s) && (es != [] ==> ExclusiveThroughout(Step(s, es[0]), es[1..]))
  }

  ghost predicate NeverFinishesMidCall(s: World, es: seq<Event>)
    decreases es
  {
    es != [] ==> !FinishesMidCall(s, es[0]) && NeverFinishesMidCall(Step(s, es[0]), es[1..])
  }

  /** An idle holder has no call in flight, so expiry leaves none behind. */
  lemma ExpiredIsAlone(s: World)
    requires Inv(s) && Exclusive(s) && (Expired(s.m, s.now) || s.m.id == "")
    ensures s.inflight == multiset{}
  {
    assert s.m.id !in s.inflight;
  }

  /** One event keeps exclusion unless it finishes a session mid-call, and then it breaks it. */
  lemma StepExclusive(s: World, e: Event)
    requires Inv(s) && Exclusive(s)
    ensures Exclusive(Step(s, e)) <==> !FinishesMidCall(s, e)
  {
    HolderStep(s, e);
    CallsStep(s, e);
    if FinishesMidCall(s, e) {
      assert s.m.id in CallsAfter(s, e);
    } else {
      StaysExclusive(s, e);
    }
  }

  lemma StaysExclusive(s: World, e: Event)
    requires Inv(s) && Exclusive(s) && !FinishesMidCall(s, e)
    ensures forall id :: id in CallsAfter(s, e) ==> id == HolderAfter(s, e)
  {
    if Expired(s.m, s.now) || s.m.id == "" {
      ExpiredIsAlone(s);
      NoneStaysNone(s, e);
    } else if e == End(s.m.id) {
      assert s.m.id !in s.inflight;
    } else {
      HolderStays(s, e);
    }
  }

  lemma NoneStaysNone(s: World, e: Event)
    requires s.inflight == multiset{} && Kept(s) == ""
    ensures CallsAfter(s, e) == multiset{}
  {
  }

  lemma HolderStays(s: World, e: Event)
    requires Exclusive(s) && Kept(s) == s.m.id != "" && e != End(s.m.id)
    ensures HolderAfter(s, e) == s.m.id && forall id :: id in CallsAfter(s, e) ==> id == s.m.id
  {
  }

  /**
   Exclusion over whole runs: at every moment every call in flight is the current holder's, exactly
   when no session is ever finished with calls in flight. Expiry alone never lets two overlap.
   */
  lemma {:induction false} ExclusionExactly(s: World, es: seq<Event>)
    requires Inv(s) && Exclusive(s)
    ensures ExclusiveThroughout(s, es) <==> NeverFinishesMidCall(s, es)
    decreases es
  {
    if es != [] {
      StepInv(s, es[0]);
      StepExclusive(s, es[0]);
      if Exclusive(Step(s, es[0])) {
        ExclusionExactly(Step(s, es[0]), es[1..]);
      }
    }
  }

  /** Such a finish is reachable ... */
  lemma MidCallReachable()
    ensures FinishesMidCall(Run(InitWorld(1, 0), [TryLock(0, "a", "A", true), RpcBegins(Operational("boot"), "A")]),
                            End("A"))
  {
    var lock, call := TryLock(0, "a", "A", true), RpcBegins(Operational("boot"), "A");
    var s0 := InitWorld(1, 0);
    var s1 := Step(s0, lock);
    assert s1.m.id == "A" && s1.m.activeCalls == 0 && s1.now == s1.m.lastActivity;
    assert [lock, call][1..] == [call] && [call][1..] == [];
    assert Run(s0, [lock, call]) == Run(s1, [call]) == Run(Step(s1, call), []);
  }

  /** ... and the next holder's call then overlaps the call of the session that was finished. */
  lemma MidCallOverlaps(s: World, w: nat, owner: string, newId: string, rpc: Rpc)
    requires Inv(s) && FinishesMidCall(s, End(s.m.id)) && !Exempt(rpc)
    requires w !in s.parked && newId != "" && newId !in s.used && s.m.ttl >= 0
    ensures var f := Step(s, End(s.m.id));
            var t := Step(Step(f, TryLock(w, owner, newId, true)), RpcBegins(rpc, newId));
            t.m.id == newId != s.m.id && newId in t.inflight && s.m.id in t.inflight
  {
    var f := Step(s, End(s.m.id));
    var g := Step(f, TryLock(w, owner, newId, true));
    assert f.m.id == "" && f.inflight == s.inflight;
    assert g.m.id == newId && g.m.lastActivity == g.now && g.inflight == s.inflight;
  }

  // ---- How a session ends ------------------------------------------------------------------

  /** Events that look whether the holder has been idle too long. */
  predicate Checks(s: World, e: Event) {
    match e
    case Reap => true
    case GetInfo => true
    case TryLock(w, _, newId, _) => w !in s.parked && newId != "" && newId !in s.used
    case KeepAlive(_) => true
    case RpcBegins(rpc, _) => !Exempt(rpc)
    case RpcMessage(id) => id in s.inflight
    case _ => false
  }

  predicate Overdue(s: World) {
    s.m.activeCalls == 0 && s.now > s.m.lastActivity + s.m.ttl
  }

  /** A session ends exactly when its own id is finished, or when an event that checks finds it overdue. */
  lemma EndsExactly(s: World, e: Event)
    requires Inv(s) && s.m.id != ""
    ensures Step(s, e).m.id != s.m.id <==> e == End(s.m.id) || (Checks(s, e) && Overdue(s))
  {
    HolderStep(s, e);
  }

  // ---- Keeping the lock ----------------------------------------------------------------------

  /** One holder's view of its session: the clock, its last activity, and the calls in flight. */
  datatype View = View(now: int, last: int, calls: multiset<string>)

  predicate Idle(v: View, h: string) {
    v.calls[h] == 0
  }

  /** Holder events: what the holder itself does while the session is its own. */
  predicate ByHolder(v: View, h: string, e: Event) {
    match e
    case KeepAlive(id) => id == h
    case RpcBegins(rpc, id) => !Exempt(rpc) && id == h
    case RpcMessage(id) => id == h && id in v.calls
    case RpcReturns(id) => id == h && id in v.calls
    case _ => false
  }

  function Next(v: View, h: string, e: Event): View {
    View(if e.Tick? then v.now + e.d else v.now,
         if ByHolder(v, h, e) then v.now else v.last,
         match e
         case RpcBegins(rpc, id) => if !Exempt(rpc) && id == h then v.calls + multiset{h} else v.calls
         case RpcReturns(id) => v.calls - multiset{id}
         case _ => v.calls)
  }

  /** The holder never lets more than ttl pass without an event of its own while it is idle. */
  predicate Attentive(v: View, h: string, ttl: int, es: seq<Event>)
    decreases es
  {
    if es == [] then Idle(v, h) ==> v.now <= v.last + ttl
    else
      && (ByHolder(v, h, es[0]) && Idle(v, h) ==> v.now <= v.last + ttl)
      && Attentive(Next(v, h, es[0]), h, ttl, es[1..])
  }

  predicate NotFinished(h: string, es: seq<Event>) {
    forall k :: 0 <= k < |es| ==> es[k] != End(h)
  }

  ghost predicate Sees(s: World, h: string, v: View) {
    s.m.id == h && v == View(s.now, s.m.lastActivity, s.inflight)
  }

  /** Time only moves forward, so an attentive holder is never overdue, not even between its own events. */
  lemma {:induction false} AttentiveNow(v: View, h: string, ttl: int, es: seq<Event>)
    requires Attentive(v, h, ttl, es) && Idle(v, h)
    ensures v.now <= v.last + ttl
    decreases es
  {
    if es != [] && !ByHolder(v, h, es[0]) {
      AttentiveNow(Next(v, h, es[0]), h, ttl, es[1..]);
    }
  }

  lemma RemoveAbsent(calls: multiset<string>, id: string)
    requires id !in calls
    ensures calls - multiset{id} == calls
  {
  }

  lemma CallsSeen(s: World, h: string, v: View, e: Event)
    requires h != "" && Sees(s, h, v) && Kept(s) == h
    ensures CallsAfter(s, e) == Next(v, h, e).calls
  {
    match e
    case RpcReturns(id) =>
      if id !in s.inflight {
        RemoveAbsent(s.inflight, id);
      }
    case RpcBegins(rpc, id) =>
    case _ =>
  }

  lemma ClockSeen(s: World, h: string, v: View, e: Event)
    requires Sees(s, h, v)
    ensures Step(s, e).now == Next(v, h, e).now
  {
  }

  lemma ActivitySeen(s: World, h: string, v: View, e: Event)
    requires h != "" && Sees(s, h, v) && Kept(s) == h && e != End(h)
    requires s.m.activeCalls == s.inflight[h]
    ensures Step(s, e).m.lastActivity == Next(v, h, e).last && Step(s, e).m.ttl == s.m.ttl
  {
    match e
    case RpcBegins(rpc, id) =>
    case RpcMessage(id) =>
    case RpcReturns(id) =>
    case KeepAlive(id) =>
    case _ =>
  }

  lemma StepSeen(s: World, h: string, v: View, e: Event)
    requires Inv(s) && h != "" && Sees(s, h, v) && e != End(h)
    requires Idle(v, h) ==> v.now <= v.last + s.m.ttl
    ensures Sees(Step(s, e), h, Next(v, h, e)) && Step(s, e).m.ttl == s.m.ttl
  {
    assert Kept(s) == h;
    HolderStep(s, e);
    CallsStep(s, e);
    CallsSeen(s, h, v, e);
    ClockSeen(s, h, v, e);
    ActivitySeen(s, h, v, e);
  }

  /** A holder whose own events are never more than ttl apart while it is idle never loses the lock. */
  lemma {:induction false} AttentiveKeepsLock(s: World, h: string, v: View, es: seq<Event>)
    requires Inv(s) && h != "" && Sees(s, h, v)
    requires NotFinished(h, es) && Attentive(v, h, s.m.ttl, es)
    ensures Run(s, es).m.id == h
    decreases es
  {
    if es != [] {
      if Idle(v, h) {
        AttentiveNow(v, h, s.m.ttl, es);
      }
      StepSeen(s, h, v, es[0]);
      StepInv(s, es[0]);
      assert forall k :: 0 <= k < |es[1..]| ==> es[1..][k] == es[k + 1];
      AttentiveKeepsLock(Step(s, es[0]), h, Next(v, h, es[0]), es[1..]);
    }
  }

  /** Once overdue, the next attempt, query, refresh or call finds the holder gone. */
  lemma OverdueIsGone(s: World, e: Event)
    requires Inv(s) && s.m.id != "" && Overdue(s) && Checks(s, e)
    ensures Step(s, e).m.id != s.m.id
  {
    EndsExactly(s, e);
  }

  // ---- No lost wakeup ---------------------------------------------------------------------------

  /** A parked waiter waits for the current session or has been woken; each channel is closed at most once. */
  lemma NoLostWakeup(ttl: int, now: int, es: seq<Event>, w: nat)
    requires w in Run(InitWorld(ttl, now), es).parked
    ensures var s := Run(InitWorld(ttl, now), es);
            var k := s.parked[w];
            && k < |s.m.closes|
            && (s.m.released == Some(k) || s.m.closes[k] == 1)
            && (s.m.id == "" ==> Awake(s, w))
  {
    InitInv(ttl, now);
    RunInv(InitWorld(ttl, now), es);
  }

  /** Acquisitions and releases alternate in every history, and there is one channel per acquisition,
      closed exactly once when its session has ended. */
  lemma TurnsAlternate(ttl: int, now: int, es: seq<Event>)
    ensures var m := Run(InitWorld(ttl, now), es).m;
            && Alternates(m.log, m.id)
            && forall k :: 0 <= k < |m.closes| ==>
                 m.closes[k] == if k + 1 == |m.closes| && m.id != "" then 0 else 1
  {
    InitInv(ttl, now);
    RunInv(InitWorld(ttl, now), es);
  }

  /** What Alternates means, position by position: acquire, then release of the same id, and so on. */
  lemma {:induction false} AlternatesAt(log: seq<Turn>, id: string, k: nat)
    requires Alternates(log, id) && k < |log|
    ensures log[k].Acquired? <==> k % 2 == 0
    ensures k % 2 == 1 ==> log[k - 1] == Acquired(log[k].id)
    ensures id != "" <==> |log| % 2 == 1
    decreases |log|
  {
    var before, last := log[..|log| - 1], log[|log| - 1];
    if before != [] {
      AlternatesAt(before, if last.Acquired? then "" else last.id, if k < |before| then k else |before| - 1);
    }
  }

  /** A woken waiter that finds the lock free gets it. */
  lemma WokenAcquires(s: World, w: nat, owner: string, newId: string)
    requires Inv(s) && Awake(s, w) && s.m.id == "" && newId != "" && newId !in s.used
    ensures var t := Step(Step(s, Wake(w)), TryLock(w, owner, newId, false));
            t.m.id == newId && t.m.owner == owner && w !in t.parked
  {
  }
}
