/**
 The server around the lock manager: which calls are bracketed by CallStart and CallEnd, what a stream
 refreshes, and the loop of a blocking acquire, run against whatever other clients do meanwhile.
 Every method takes the step of the state machine that it is named for.
 */
module Service {
  import opened Bytes
  import SS = SessionState
  import Session

  /** How long an acquire may wait: not at all, until a timer fires, or until its context ends. */
  datatype Patience = FailFast | Timed | Untimed

  datatype Alarm = Silent | CtxDone | TimedOut

  /** What happens before an acquire next looks: others' events, an alarm of its own, the id it would be given. */
  datatype Turn = Turn(others: seq<SS.Event>, alarm: Alarm, preferAlarm: bool, newId: string)

  datatype Outcome = Acquired(info: SS.Info) | Busy(owner: string, expiresAt: int) | Cancelled

  /** Who waits, for whom, and for how long. */
  datatype Bid = Bid(w: nat, owner: string, patience: Patience)

  // ---- A blocking acquire, turn by turn ----------------------------------------------------

  /** Whether an event is waiter w's own. */
  predicate Own(w: nat, e: SS.Event) {
    match e
    case TryLock(v, _, _, _) => v == w
    case Wake(v) => v == w
    case GiveUp(v) => v == w
    case _ => false
  }

  /** Others' events, those that would move waiter w left out. */
  function Settle(s: SS.World, w: nat, es: seq<SS.Event>): SS.World {
    if es == [] then s
    else
      var t := Settle(s, w, es[..|es| - 1]);
      if Own(w, es[|es| - 1]) then t else SS.Step(t, es[|es| - 1])
  }

  predicate Rings(b: Bid, alarm: Alarm) {
    alarm == CtxDone || (alarm == TimedOut && b.patience == Timed)
  }

  /** What a parked waiter does when it looks: give up, go on, or stay. */
  function Look(s: SS.World, b: Bid, t: Turn, busy: Outcome): (SS.World, Option<Outcome>) {
    if Rings(b, t.alarm) && (t.preferAlarm || !SS.Awake(s, b.w)) then
      (SS.Step(s, SS.GiveUp(b.w)), Some(if t.alarm == CtxDone then Cancelled else busy))
    else if SS.Awake(s, b.w) then (SS.Step(s, SS.Wake(b.w)), None)
    else (s, None)
  }

  /** How the busy error would read after this turn's attempt, if there is one. */
  function BusyAfter(s: SS.World, b: Bid, t: Turn, busy: Outcome): Outcome {
    if b.w in s.parked || t.newId == "" || t.newId in s.used then busy
    else
      match SS.TryAcquire(s.m, s.now, b.owner, t.newId).1
      case Got(_) => busy
      case Busy(_, owner, expiresAt) => Busy(owner, expiresAt)
  }

  /** One attempt at the lock; without patience a held lock ends it. */
  function TryOnce(s: SS.World, b: Bid, t: Turn, busy: Outcome): (SS.World, Option<Outcome>) {
    if t.newId == "" || t.newId in s.used then (s, None)
    else
      (SS.Step(s, SS.TryLock(b.w, b.owner, t.newId, b.patience == FailFast)),
       match SS.TryAcquire(s.m, s.now, b.owner, t.newId).1
       case Got(info) => Some(Acquired(info))
       case Busy(_, owner, expiresAt) => if b.patience == FailFast then Some(Busy(owner, expiresAt)) else None)
  }

  function TakeTurn(s: SS.World, b: Bid, t: Turn, busy: Outcome): (SS.World, Option<Outcome>) {
    if b.w in s.parked then Look(s, b, t, busy) else TryOnce(s, b, t, busy)
  }

  /** The acquire over these turns: where it ends, with what result, and the turns not needed. */
  function Play(s: SS.World, b: Bid, busy: Outcome, turns: seq<Turn>): (SS.World, Option<Outcome>, seq<Turn>)
    decreases |turns|
  {
    if turns == [] then (s, None, [])
    else
      var u := Settle(s, b.w, turns[0].others);
      var (v, r) := TakeTurn(u, b, turns[0], busy);
      if r.Some? then (v, r, turns[1..]) else Play(v, b, BusyAfter(u, b, turns[0], busy), turns[1..])
  }

  const NO_BUSY: Outcome := Busy("", 0)

  // ---- What it promises ---------------------------------------------------------------------

  lemma OnlyOwnMoves(s: SS.World, w: nat, e: SS.Event)
    requires !Own(w, e)
    ensures w in SS.Step(s, e).parked <==> w in s.parked
  {
  }

  lemma {:induction false} SettleKeeps(s: SS.World, w: nat, es: seq<SS.Event>)
    requires SS.Inv(s)
    ensures var t := Settle(s, w, es);
            SS.Inv(t) && (w in t.parked <==> w in s.parked) && s.used <= t.used
    decreases |es|
  {
    if es != [] {
      var last := es[|es| - 1];
      SettleKeeps(s, w, es[..|es| - 1]);
      if !Own(w, last) {
        var t := Settle(s, w, es[..|es| - 1]);
        SS.StepInv(t, last);
        SS.StepGrows(t, last);
        OnlyOwnMoves(t, w, last);
      }
    }
  }

  /** What one turn may end with. */
  ghost predicate Fair(v: SS.World, r: Option<Outcome>, b: Bid, t: Turn, used: set<string>) {
    && (r.Some? ==> b.w !in v.parked)
    && (r.Some? && r.value.Acquired? ==>
          && r.value.info == SS.InfoOf(v.m) && v.m.id == t.newId != "" && t.newId !in used
          && v.m.owner == b.owner)
    && (r.Some? && r.value.Busy? ==> b.patience == FailFast || (b.patience == Timed && t.alarm == TimedOut))
    && (r == Some(Cancelled) ==> t.alarm == CtxDone)
  }

  lemma TryIsFair(s: SS.World, b: Bid, t: Turn, busy: Outcome)
    requires SS.Inv(s) && b.w !in s.parked
    ensures var (v, r) := TryOnce(s, b, t, busy);
            Fair(v, r, b, t, s.used) && SS.Inv(v) && s.used <= v.used
            && (b.patience == FailFast ==> b.w !in v.parked)
  {
    if t.newId != "" && t.newId !in s.used {
      SS.StepInv(s, SS.TryLock(b.w, b.owner, t.newId, b.patience == FailFast));
    }
  }

  lemma LookIsFair(s: SS.World, b: Bid, t: Turn, busy: Outcome)
    requires SS.Inv(s) && b.w in s.parked && busy.Busy?
    ensures var (v, r) := Look(s, b, t, busy);
            Fair(v, r, b, t, s.used) && SS.Inv(v) && s.used <= v.used
  {
    SS.StepInv(s, SS.GiveUp(b.w));
    SS.StepInv(s, SS.Wake(b.w));
  }

  lemma FairSince(v: SS.World, r: Option<Outcome>, b: Bid, t: Turn, used: set<string>, before: set<string>)
    requires Fair(v, r, b, t, used) && before <= used
    ensures Fair(v, r, b, t, before)
  {
  }

  /**
   An acquire that returns is no longer parked. It returns a session only as that session's holder, under the
   caller's name and with an id never used before; it reports busy only to a caller that set a limit, after the
   timer if there is one, and cancelled only after its context ended. It stops early only with a result.
   */
  lemma {:induction false} AcquireIsFair(s: SS.World, b: Bid, busy: Outcome, turns: seq<Turn>) returns (t: Turn)
    requires SS.Inv(s) && busy.Busy? && (b.patience == FailFast ==> b.w !in s.parked)
    ensures var (v, r, rest) := Play(s, b, busy, turns);
            && SS.Inv(v) && s.used <= v.used
            && (b.patience == FailFast ==> b.w !in v.parked)
            && (r.None? ==> rest == [])
            && (r.Some? ==> t in turns && Fair(v, r, b, t, s.used))
    decreases |turns|
  {
    if turns == [] {
      t := Turn([], Silent, false, "");
    } else {
      t := turns[0];
      var u := Settle(s, b.w, t.others);
      SettleKeeps(s, b.w, t.others);
      if b.w in u.parked {
        LookIsFair(u, b, t, busy);
      } else {
        TryIsFair(u, b, t, busy);
      }
      var (v, r) := TakeTurn(u, b, t, busy);
      FairSince(v, r, b, t, u.used, s.used);
      if r.None? {
        var rest := turns[1..];
        t := AcquireIsFair(v, b, BusyAfter(u, b, turns[0], busy), rest);
        assert forall x :: x in rest ==> x in turns;
        var (v', r', _) := Play(v, b, BusyAfter(u, b, turns[0], busy), rest);
        if r'.Some? {
          FairSince(v', r', b, t, v.used, s.used);
        }
      }
    }
  }

  // ---- The server ------------------------------------------------------------------------------

  // ---- A ping -------------------------------------------------------------------------------

  /** A ping by a session, with these events between refreshing it and reading the reply. */
  function Pinged(s: SS.World, id: string, between: seq<SS.Event>): (SS.World, Option<SS.Info>) {
    var t := SS.Step(s, SS.KeepAlive(id));
    if id == "" || SS.Kept(s) != id then (t, None)
    else
      var u := SS.Step(SS.Run(t, between), SS.GetInfo);
      (u, Some(SS.InfoOf(u.m)))
  }

  /** A ping is refused exactly to those who do not hold the lock; undisturbed, it replies with the caller's own
      session, which now expires a whole ttl later. */
  lemma PingExtends(s: SS.World, id: string)
    requires s.m.ttl >= 0
    ensures var (t, reply) := Pinged(s, id, []);
            && (reply.Some? <==> id != "" && SS.Kept(s) == id)
            && (reply.Some? ==>
                  && t.m.id == id && reply.value == SS.Session(id, t.m.owner, t.m.startedAt, s.now + s.m.ttl)
                  && t.m.owner == s.m.owner && t.m.startedAt == s.m.startedAt)
  {
  }

  class Server {
    const locks: Session.Manager
    var now: int
    var inflight: multiset<string>   // session ids of the operational calls being handled
    var parked: map<nat, nat>        // the channel each blocked acquire waits on
    var used: set<string>            // session ids ever handed out

    ghost function State(): SS.World
      reads this, locks
    {
      SS.World(locks.View(), now, inflight, parked, used)
    }

    ghost predicate Valid()
      reads this, locks
    {
      locks.Valid() && SS.Inv(State())
    }

    constructor (ttl: int, now: int)
      ensures Valid() && State() == SS.InitWorld(ttl, now) && fresh(locks)
    {
      locks := new Session.Manager(ttl);
      this.now, inflight, parked, used := now, multiset{}, map[], {};
      new;
      SS.InitInv(ttl, now);
    }

    // ---- Interceptors ------------------------------------------------------------------

    /** The front half of both interceptors: an operational call is admitted by CallStart or refused. */
    method Begin(rpc: SS.Rpc, id: string) returns (admitted: bool)
      requires Valid()
      modifies this`inflight, locks
      ensures Valid() && State() == SS.Step(old(State()), SS.RpcBegins(rpc, id))
      ensures admitted <==> SS.Exempt(rpc) || SS.Admits(old(State()), SS.RpcBegins(rpc, id))
      ensures !rpc.Operational? ==> admitted && State() == old(State())
      ensures rpc.Operational? ==> (admitted <==> id != "" && old(locks.id) == id && !old(locks.Overdue(now)))
    {
      SS.StepInv(State(), SS.RpcBegins(rpc, id));
      if SS.Exempt(rpc) {
        return true;
      }
      admitted := locks.CallStart(now, id);
      if admitted {
        inflight := inflight + multiset{id};
      }
    }

    /** The deferred half, however the handler ended. */
    method Return(id: string)
      requires Valid() && id in inflight
      modifies this`inflight, locks
      ensures Valid() && State() == SS.Step(old(State()), SS.RpcReturns(id))
    {
      ghost var s := State();
      SS.StepInv(s, SS.RpcReturns(id));
      locks.CallEnd(now, id);
      assert locks.View() == SS.CallEnd(s.m, now, id);
      inflight := inflight - multiset{id};
    }

    /** A message sent or received on a stream refreshes its session; a stale id changes nothing. */
    method Message(id: string)
      requires Valid() && id in inflight
      modifies locks
      ensures Valid() && State() == SS.Step(old(State()), SS.RpcMessage(id))
    {
      SS.StepInv(State(), SS.RpcMessage(id));
      var _ := locks.Refresh(now, id);
    }

    // ---- Session calls -----------------------------------------------------------------

    method FinishSession(id: string) returns (ok: bool)
      requires Valid()
      modifies locks
      ensures Valid() && State() == SS.Step(old(State()), SS.End(id))
      ensures ok <==> old(locks.id) == "" || old(locks.id) == id
    {
      SS.StepInv(State(), SS.End(id));
      ok := locks.Finish(id);
    }

    method Refresh(id: string) returns (ok: bool)
      requires Valid()
      modifies locks
      ensures Valid() && State() == SS.Step(old(State()), SS.KeepAlive(id))
      ensures ok <==> id != "" && SS.Kept(old(State())) == id
    {
      SS.StepInv(State(), SS.KeepAlive(id));
      ok := locks.Refresh(now, id);
    }

    /** One attempt at the lock with a fresh id; a waiter that may wait is parked on the holder's channel. */
    method Attempt(w: nat, owner: string, newId: string, failFast: bool) returns (a: SS.Attempt)
      requires Valid() && w !in parked && newId != "" && newId !in used
      modifies this`parked, this`used, locks
      ensures Valid() && State() == SS.Step(old(State()), SS.TryLock(w, owner, newId, failFast))
      ensures a == SS.TryAcquire(old(locks.View()), now, owner, newId).1
    {
      SS.StepInv(State(), SS.TryLock(w, owner, newId, failFast));
      a := locks.TryAcquire(now, owner, newId);
      if a.Got? {
        used := used + {newId};
      } else if !failFast && a.rel.Some? {
        parked := parked[w := a.rel.value];
      }
    }

    // ---- Everything at once ------------------------------------------------------------------

    /** A waiter attempts the lock, is woken or gives up. */
    method HandleWaiter(e: SS.Event)
      requires Valid() && (e.TryLock? || e.Wake? || e.GiveUp?)
      modifies this, locks
      ensures Valid() && State() == SS.Step(old(State()), e)
    {
      SS.StepInv(State(), e);
      match e
      case TryLock(w, owner, newId, failFast) =>
        if w !in parked && newId != "" && newId !in used {
          var _ := Attempt(w, owner, newId, failFast);
        }
      case Wake(w) =>
        if w in parked && locks.closes[parked[w]] > 0 {
          parked := parked - {w};
        }
      case GiveUp(w) => parked := parked - {w};
    }

    /** A call begins, carries a message or ends. */
    method HandleCall(e: SS.Event)
      requires Valid() && (e.RpcBegins? || e.RpcMessage? || e.RpcReturns?)
      modifies this, locks
      ensures Valid() && State() == SS.Step(old(State()), e)
    {
      match e
      case RpcBegins(rpc, id) => var _ := Begin(rpc, id);
      case RpcMessage(id) =>
        if id in inflight {
          Message(id);
        }
      case RpcReturns(id) =>
        if id in inflight {
          Return(id);
        }
    }

    /** The clock advances, the reaper looks, or somebody asks who holds the lock. */
    method HandleClock(e: SS.Event)
      requires Valid() && (e.Tick? || e.Reap? || e.GetInfo?)
      modifies this, locks
      ensures Valid() && State() == SS.Step(old(State()), e)
    {
      SS.StepInv(State(), e);
      match e
      case Tick(d) => now := now + d;
      case Reap => locks.ExpireIfIdle(now);
      case GetInfo => var _ := locks.GetInfo(now);
    }

    method Handle(e: SS.Event)
      requires Valid()
      modifies this, locks
      ensures Valid() && State() == SS.Step(old(State()), e)
    {
      match e
      case Tick(_) => HandleClock(e);
      case Reap => HandleClock(e);
      case GetInfo => HandleClock(e);
      case End(id) => var _ := FinishSession(id);
      case KeepAlive(id) => var _ := Refresh(id);
      case TryLock(_, _, _, _) => HandleWaiter(e);
      case Wake(_) => HandleWaiter(e);
      case GiveUp(_) => HandleWaiter(e);
      case RpcBegins(_, _) => HandleCall(e);
      case RpcMessage(_) => HandleCall(e);
      case RpcReturns(_) => HandleCall(e);
    }

    // ---- A ping --------------------------------------------------------------------

    /** What happens between the two critical sections of a ping. */
    method Meanwhile(es: seq<SS.Event>)
      requires Valid()
      modifies this, locks
      ensures Valid() && State() == SS.Run(old(State()), es)
    {
      for i := 0 to |es|
        invariant Valid() && SS.Run(State(), es[i..]) == SS.Run(old(State()), es)
      {
        assert es[i..][0] == es[i] && es[i..][1..] == es[i + 1..];
        Handle(es[i]);
      }
    }

    /** Refreshes the session and then, in a second critical section, reads what to reply: refused for a stale id. */
    method Ping(id: string, between: seq<SS.Event>) returns (reply: Option<SS.Info>)
      requires Valid()
      modifies this, locks
      ensures Valid() && (State(), reply) == Pinged(old(State()), id, between)
    {
      SS.StepInv(State(), SS.KeepAlive(id));
      var ok := Refresh(id);
      if !ok {
        return None;
      }
      Meanwhile(between);
      SS.StepInv(State(), SS.GetInfo);
      var info := locks.GetInfo(now);
      reply := Some(info);
    }

    // ---- A blocking acquire ----------------------------------------------------------

    method Others(w: nat, es: seq<SS.Event>)
      requires Valid()
      modifies this, locks
      ensures Valid() && State() == Settle(old(State()), w, es)
    {
      for i := 0 to |es|
        invariant Valid() && State() == Settle(old(State()), w, es[..i])
      {
        assert es[..i + 1][..i] == es[..i];
        if !Own(w, es[i]) {
          Handle(es[i]);
        }
      }
      assert es[..|es|] == es;
    }

    /** A parked waiter looks at its channels. */
    method LookOnce(b: Bid, t: Turn, busy: Outcome) returns (r: Option<Outcome>)
      requires Valid() && b.w in parked
      modifies this`parked
      ensures Valid() && (State(), r) == Look(old(State()), b, t, busy)
    {
      var awake := locks.closes[parked[b.w]] > 0;
      SS.StepInv(State(), SS.GiveUp(b.w));
      SS.StepInv(State(), SS.Wake(b.w));
      if Rings(b, t.alarm) && (t.preferAlarm || !awake) {
        parked := parked - {b.w};
        return Some(if t.alarm == CtxDone then Cancelled else busy);
      }
      if awake {
        parked := parked - {b.w};
      }
      return None;
    }

    /** The loop of a blocking acquire; None while it is still waiting when the turns run out. */
    method Acquire(b: Bid, turns: seq<Turn>) returns (r: Option<Outcome>)
      requires Valid() && b.w !in parked
      modifies this, locks
      ensures Valid()
      ensures State() == Play(old(State()), b, NO_BUSY, turns).0 && r == Play(old(State()), b, NO_BUSY, turns).1
    {
      r := None;
      var busy := NO_BUSY;
      for i := 0 to |turns|
        invariant Valid() && r.None?
        invariant Play(State(), b, busy, turns[i..]) == Play(old(State()), b, NO_BUSY, turns)
      {
        assert turns[i..][0] == turns[i] && turns[i..][1..] == turns[i + 1..];
        Others(b.w, turns[i].others);
        if b.w in parked {
          r := LookOnce(b, turns[i], busy);
          if r.Some? {
            return;
          }
        } else if turns[i].newId != "" && turns[i].newId !in used {
          var a := Attempt(b.w, b.owner, turns[i].newId, b.patience == FailFast);
          if a.Got? {
            return Some(Acquired(a.info));
          }
          busy := Busy(a.owner, a.expiresAt);
          if b.patience == FailFast {
            return Some(busy);
          }
        }
      }
    }
  }
}
