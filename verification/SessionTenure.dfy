/**
 How long a session lasts, from the events alone: it begins when its attempt gets the lock, is extended by its holder's
 own events, and ends when it is finished or when somebody looks more than a ttl after the latest of these, with no
 call of the holder in flight.
 */
module SessionTenure {
  import opened SessionState

  /** How a session looks to its holder when the lock has just been got: begun now, active now. */
  function NewView(s: World): View {
    View(s.now, s.now, s.inflight)
  }

  /**
   An attempt at a lock that is free, or whose holder is overdue, gets it: the reply names the session and its owner,
   says that it began now and that it expires a ttl from now, and now is when its holder was last active.
   */
  lemma AcquiredNow(s: World, w: nat, owner: string, newId: string, failFast: bool)
    requires Inv(s) && w !in s.parked && newId != "" && newId !in s.used
    requires s.m.id == "" || (s.m.activeCalls == 0 && s.now > s.m.lastActivity + s.m.ttl)
    ensures TryAcquire(s.m, s.now, owner, newId).1 == Got(Session(newId, owner, s.now, s.now + s.m.ttl))
    ensures var t := Step(s, TryLock(w, owner, newId, failFast));
            && Sees(t, newId, NewView(s)) && t.m.ttl == s.m.ttl && newId in t.used && Idle(NewView(s), newId)
  {
  }

  /** An attempt at a lock that is held, by a holder not overdue, is told whose it is and when it expires. */
  lemma BusyWith(s: World, owner: string, newId: string)
    requires Inv(s) && s.m.id != "" && !(s.m.activeCalls == 0 && s.now > s.m.lastActivity + s.m.ttl)
    ensures TryAcquire(s.m, s.now, owner, newId)
            == (s.m, Busy(s.m.released, s.m.owner, s.m.lastActivity + s.m.ttl))
  {
  }

  // ---- One event --------------------------------------------------------------------------------

  /** The event ends the session of h, as its holder sees it: it is finished, or somebody looks too late after the
      holder's latest own event, with no call of the holder in flight. */
  predicate Ends(s: World, h: string, v: View, e: Event) {
    e == End(h) || (Checks(s, e) && v.calls[h] == 0 && v.now > v.last + s.m.ttl)
  }

  lemma UncheckedSeen(s: World, h: string, v: View, e: Event)
    requires Inv(s) && h != "" && Sees(s, h, v) && e != End(h) && !Checks(s, e) && v.calls[h] == 0
    ensures Sees(Step(s, e), h, Next(v, h, e)) && Step(s, e).m.ttl == s.m.ttl
  {
    if e.RpcReturns? && e.id !in s.inflight {
      RemoveAbsent(s.inflight, e.id);
    }
  }

  lemma EventSeen(s: World, h: string, v: View, e: Event)
    requires Inv(s) && h != "" && Sees(s, h, v)
    ensures Ends(s, h, v, e) ==> Step(s, e).m.id != h
    ensures !Ends(s, h, v, e) ==> Sees(Step(s, e), h, Next(v, h, e)) && Step(s, e).m.ttl == s.m.ttl
  {
    EndsExactly(s, e);
    if !Ends(s, h, v, e) {
      if v.calls[h] == 0 && v.now > v.last + s.m.ttl {
        UncheckedSeen(s, h, v, e);
      } else {
        StepSeen(s, h, v, e);
      }
    }
  }

  // ---- Whole runs -----------------------------------------------------------------------------------

  /** No event of the run ends the session. The view follows the events alone. */
  predicate Lasts(s: World, h: string, v: View, es: seq<Event>)
    decreases es
  {
    es == [] || (!Ends(s, h, v, es[0]) && Lasts(Step(s, es[0]), h, Next(v, h, es[0]), es[1..]))
  }

  /** An id that has been used and no longer holds the lock never holds it again. */
  lemma {:induction false} NeverAgain(s: World, h: string, es: seq<Event>)
    requires Inv(s) && h != "" && h in s.used && s.m.id != h
    ensures Run(s, es).m.id != h
    decreases es
  {
    if es != [] {
      HolderStep(s, es[0]);
      StepInv(s, es[0]);
      StepGrows(s, es[0]);
      NeverAgain(Step(s, es[0]), h, es[1..]);
    }
  }

  /** A session is still on at the end of a run exactly if no event of the run has ended it. */
  lemma {:induction false} TenureExactly(s: World, h: string, v: View, es: seq<Event>)
    requires Inv(s) && h != "" && h in s.used && Sees(s, h, v)
    ensures Run(s, es).m.id == h <==> Lasts(s, h, v, es)
    decreases es
  {
    if es != [] {
      EventSeen(s, h, v, es[0]);
      StepInv(s, es[0]);
      StepGrows(s, es[0]);
      if Ends(s, h, v, es[0]) {
        NeverAgain(Step(s, es[0]), h, es[1..]);
      } else {
        TenureExactly(Step(s, es[0]), h, Next(v, h, es[0]), es[1..]);
      }
    }
  }

  /**
   From the attempt that got the lock on, a session is held exactly until it is finished, or somebody looks when more
   than a ttl has passed since it was got, or since the latest event of its holder, with none of its calls in flight.
   */
  lemma AcquiredLasts(s: World, w: nat, owner: string, newId: string, failFast: bool, es: seq<Event>)
    requires Inv(s) && w !in s.parked && newId != "" && newId !in s.used
    requires s.m.id == "" || (s.m.activeCalls == 0 && s.now > s.m.lastActivity + s.m.ttl)
    ensures var t := Step(s, TryLock(w, owner, newId, failFast));
            Run(t, es).m.id == newId <==> Lasts(t, newId, NewView(s), es)
  {
    AcquiredNow(s, w, owner, newId, failFast);
    StepInv(s, TryLock(w, owner, newId, failFast));
    TenureExactly(Step(s, TryLock(w, owner, newId, failFast)), newId, NewView(s), es);
  }

  // ---- A holder that is never heard of again ----------------------------------------------------------

  /** The event is not one of this session. */
  predicate NotOf(h: string, e: Event) {
    match e
    case End(id) => id != h
    case KeepAlive(id) => id != h
    case RpcBegins(_, id) => id != h
    case RpcMessage(id) => id != h
    case RpcReturns(id) => id != h
    case _ => true
  }

  predicate NoneOf(h: string, es: seq<Event>) {
    forall k :: 0 <= k < |es| ==> NotOf(h, es[k])
  }

  /** How far the clock advances. */
  function Elapsed(es: seq<Event>): nat {
    if es == [] then 0 else (if es[0].Tick? then es[0].d else 0) + Elapsed(es[1..])
  }

  lemma {:induction false} SilentView(s: World, h: string, v: View, es: seq<Event>)
    requires Inv(s) && h != "" && Sees(s, h, v) && Idle(v, h) && NoneOf(h, es)
    requires v.now + Elapsed(es) <= v.last + s.m.ttl
    ensures var t := Run(s, es);
            Inv(t) && t.m.id == h && t.m.lastActivity == v.last && t.now == v.now + Elapsed(es) && t.inflight[h] == 0
            && t.m.ttl == s.m.ttl
    decreases es
  {
    if es != [] {
      assert NotOf(h, es[0]) && NoneOf(h, es[1..]);
      EventSeen(s, h, v, es[0]);
      StepInv(s, es[0]);
      SilentView(Step(s, es[0]), h, Next(v, h, es[0]), es[1..]);
    }
  }

  /** However long nobody looks, only the clock changes for an idle session without events of its own. */
  lemma {:induction false} Unlooked(s: World, h: string, v: View, es: seq<Event>)
    requires Inv(s) && h != "" && h in s.used && Sees(s, h, v) && Idle(v, h) && NoneOf(h, es) && v.now >= v.last
    ensures var t := Run(s, es);
            Inv(t) && (t.m.id == h ==> t.m.lastActivity == v.last && t.now == v.now + Elapsed(es)
                                       && t.m.activeCalls == 0 && t.m.ttl == s.m.ttl)
    decreases es
  {
    if es != [] {
      assert NotOf(h, es[0]) && NoneOf(h, es[1..]);
      EventSeen(s, h, v, es[0]);
      StepInv(s, es[0]);
      StepGrows(s, es[0]);
      if Ends(s, h, v, es[0]) {
        NeverAgain(Step(s, es[0]), h, es[1..]);
        RunInv(Step(s, es[0]), es[1..]);
      } else {
        Unlooked(Step(s, es[0]), h, Next(v, h, es[0]), es[1..]);
      }
    }
  }

  /**
   A client that gets the lock at time t and dies keeps it for a ttl and no longer: while at most a ttl has passed,
   whoever looks finds the session, and once more has passed the first to look finds it gone.
   */
  lemma SilentHolder(s: World, w: nat, owner: string, newId: string, failFast: bool, es: seq<Event>, look: Event)
    requires Inv(s) && w !in s.parked && newId != "" && newId !in s.used
    requires s.m.id == "" || (s.m.activeCalls == 0 && s.now > s.m.lastActivity + s.m.ttl)
    requires NoneOf(newId, es) && NotOf(newId, look)
    ensures var t := Run(Step(s, TryLock(w, owner, newId, failFast)), es);
            && (Elapsed(es) <= s.m.ttl ==> t.m.id == newId && (!look.Tick? ==> Step(t, look).m.id == newId))
            && (Elapsed(es) > s.m.ttl && Checks(t, look) ==> Step(t, look).m.id != newId)
  {
    var first := Step(s, TryLock(w, owner, newId, failFast));
    AcquiredNow(s, w, owner, newId, failFast);
    StepInv(s, TryLock(w, owner, newId, failFast));
    var t := Run(first, es);
    if Elapsed(es) <= s.m.ttl {
      SilentView(first, newId, NewView(s), es);
      EndsExactly(t, look);
    } else {
      Unlooked(first, newId, NewView(s), es);
      if t.m.id == newId {
        EndsExactly(t, look);
      } else if Checks(t, look) {
        StillUsed(first, newId, es);
        NeverAgain(t, newId, [look]);
        assert [look][1..] == [];
      }
    }
  }

  lemma {:induction false} StillUsed(s: World, h: string, es: seq<Event>)
    requires Inv(s) && h in s.used
    ensures Inv(Run(s, es)) && h in Run(s, es).used
    decreases es
  {
    if es != [] {
      StepInv(s, es[0]);
      StepGrows(s, es[0]);
      StillUsed(Step(s, es[0]), h, es[1..]);
    }
  }
}
