/**
 What each turn of a blocking acquire does, in every case, and that the acquire gets on: a freed lock is taken by the
 waiter that is left alone, and an alarm ends the wait.
 */
module AcquireProgress {
  import opened Bytes
  import opened Service
  import SS = SessionState
  import ST = SessionTenure

  /** The lock can be had: free, or its holder idle for more than a ttl. */
  predicate Available(s: SS.World) {
    s.m.id == "" || (s.m.activeCalls <= 0 && s.now > s.m.lastActivity + s.m.ttl)
  }

  predicate FreshId(s: SS.World, newId: string) {
    newId != "" && newId !in s.used
  }

  /** Nothing but the waiters has changed. */
  predicate OnlyParked(s: SS.World, t: SS.World) {
    t.m == s.m && t.now == s.now && t.inflight == s.inflight && t.used == s.used
  }

  /**
   A turn of a waiter that is not parked: it gets a lock that can be had, as a session that begins now; a lock that is
   held is refused at once to a caller without patience, with its owner and expiry, and any other caller is parked on
   the channel of the current session, to report that owner and expiry if its time runs out.
   */
  lemma TryExactly(s: SS.World, b: Bid, t: Turn, busy: Outcome)
    requires SS.Inv(s) && b.w !in s.parked && FreshId(s, t.newId)
    ensures var (v, r) := TakeTurn(s, b, t, busy);
            if Available(s) then
              && r == Some(Acquired(SS.Session(t.newId, b.owner, s.now, s.now + s.m.ttl)))
              && v.m.id == t.newId && v.m.lastActivity == s.now && v.parked == s.parked
            else
              var held := Outcome.Busy(s.m.owner, s.m.lastActivity + s.m.ttl);
              && OnlyParked(s, v)
              && if b.patience == FailFast then r == Some(held) && v.parked == s.parked
                 else
                   && r == None && BusyAfter(s, b, t, busy) == held
                   && s.m.released.Some? && v.parked == s.parked[b.w := s.m.released.value]
  {
    if Available(s) {
      ST.AcquiredNow(s, b.w, b.owner, t.newId, b.patience == FailFast);
    } else {
      ST.BusyWith(s, b.owner, t.newId);
    }
  }

  /** A waiter's alarm: its context has ended, or its time has run out if it has set a limit. */
  predicate Alarmed(b: Bid, alarm: Alarm) {
    alarm == CtxDone || (alarm == TimedOut && b.patience == Timed)
  }

  /**
   A turn of a parked waiter: with an alarm it gives up unless its channel is closed and is preferred; once its channel
   is closed it is unparked, to try again; otherwise it stays.
   */
  lemma LookExactly(s: SS.World, b: Bid, t: Turn, busy: Outcome)
    requires SS.Inv(s) && b.w in s.parked
    ensures var (v, r) := TakeTurn(s, b, t, busy);
            var closed := s.m.closes[s.parked[b.w]] > 0;
            && OnlyParked(s, v) && BusyAfter(s, b, t, busy) == busy
            && if Alarmed(b, t.alarm) && (t.preferAlarm || !closed) then
                 v.parked == s.parked - {b.w} && r == Some(if t.alarm == CtxDone then Cancelled else busy)
               else
                 r == None && v.parked == if closed then s.parked - {b.w} else s.parked
  {
  }

  // ---- Several turns -----------------------------------------------------------------------------

  /** Nobody else does anything in this turn. */
  predicate Alone(t: Turn) {
    t.others == []
  }

  lemma AloneSettles(s: SS.World, w: nat)
    ensures Settle(s, w, []) == s
  {
  }

  lemma PlayOne(s: SS.World, b: Bid, busy: Outcome, turns: seq<Turn>)
    requires turns != []
    ensures var u := Settle(s, b.w, turns[0].others);
            var (v, r) := TakeTurn(u, b, turns[0], busy);
            Play(s, b, busy, turns).1
            == if r.Some? then r else Play(v, b, BusyAfter(u, b, turns[0], busy), turns[1..]).1
  {
  }

  lemma PlayTwo(s: SS.World, b: Bid, busy: Outcome, turns: seq<Turn>)
    requires |turns| >= 2
    ensures var u := Settle(s, b.w, turns[0].others);
            var (v, r) := TakeTurn(u, b, turns[0], busy);
            var z := Settle(v, b.w, turns[1].others);
            var (_, q) := TakeTurn(z, b, turns[1], BusyAfter(u, b, turns[0], busy));
            r == None && q.Some? ==> Play(s, b, busy, turns).1 == q
  {
    PlayOne(s, b, busy, turns);
    var u := Settle(s, b.w, turns[0].others);
    var (v, r) := TakeTurn(u, b, turns[0], busy);
    PlayOne(v, b, BusyAfter(u, b, turns[0], busy), turns[1..]);
    assert turns[1..][0] == turns[1];
  }

  /** A parked waiter whose session has ended, and to whom nothing else happens, has the lock two turns later. */
  lemma FreedIsTaken(s: SS.World, b: Bid, busy: Outcome, turns: seq<Turn>)
    requires SS.Inv(s) && b.w in s.parked && s.m.id == ""
    requires |turns| >= 2 && Alone(turns[0]) && Alone(turns[1]) && FreshId(s, turns[1].newId)
    requires !Alarmed(b, turns[0].alarm)
    ensures Play(s, b, busy, turns).1 == Some(Acquired(SS.Session(turns[1].newId, b.owner, s.now, s.now + s.m.ttl)))
  {
    AloneSettles(s, b.w);
    LookExactly(s, b, turns[0], busy);
    var v := TakeTurn(s, b, turns[0], busy).0;
    AloneSettles(v, b.w);
    SS.UnparkKeeps(s, b.w);
    TryExactly(v, b, turns[1], busy);
    PlayTwo(s, b, busy, turns);
  }

  /** Whatever others do, two turns whose alarms are preferred end the acquire: with the lock, or with the alarm. */
  lemma AlarmEnds(s: SS.World, b: Bid, busy: Outcome, turns: seq<Turn>)
    requires SS.Inv(s) && |turns| >= 2 && turns[0].preferAlarm && turns[1].preferAlarm
    requires Alarmed(b, turns[0].alarm) && Alarmed(b, turns[1].alarm)
    requires FreshId(Settle(s, b.w, turns[0].others), turns[0].newId)
    ensures Play(s, b, busy, turns).1.Some?
    ensures b.w in s.parked ==>
              Play(s, b, busy, turns).1 == Some(if turns[0].alarm == CtxDone then Cancelled else busy)
  {
    var u := Settle(s, b.w, turns[0].others);
    SettleKeeps(s, b.w, turns[0].others);
    PlayOne(s, b, busy, turns);
    if b.w in u.parked {
      LookExactly(u, b, turns[0], busy);
    } else {
      ParkedEnds(s, u, b, busy, turns);
    }
  }

  lemma ParkedEnds(s: SS.World, u: SS.World, b: Bid, busy: Outcome, turns: seq<Turn>)
    requires |turns| >= 2 && u == Settle(s, b.w, turns[0].others) && SS.Inv(u) && b.w !in u.parked
    requires turns[1].preferAlarm && Alarmed(b, turns[1].alarm) && FreshId(u, turns[0].newId)
    ensures Play(s, b, busy, turns).1.Some?
  {
    var (v, r) := TakeTurn(u, b, turns[0], busy);
    TryExactly(u, b, turns[0], busy);
    TryIsFair(u, b, turns[0], busy);
    PlayOne(s, b, busy, turns);
    if r == None {
      SettleKeeps(v, b.w, turns[1].others);
      LookExactly(Settle(v, b.w, turns[1].others), b, turns[1], BusyAfter(u, b, turns[0], busy));
      PlayTwo(s, b, busy, turns);
    }
  }

  /** A waiter whose channel stays open ends as soon as an alarm rings, whatever is preferred. */
  lemma AlarmOnOpenChannel(s: SS.World, b: Bid, busy: Outcome, turns: seq<Turn>)
    requires SS.Inv(s) && turns != [] && Alarmed(b, turns[0].alarm) && b.w in s.parked
    requires var u := Settle(s, b.w, turns[0].others); b.w in u.parked && !SS.Awake(u, b.w)
    ensures Play(s, b, busy, turns).1 == Some(if turns[0].alarm == CtxDone then Cancelled else busy)
  {
    SettleKeeps(s, b.w, turns[0].others);
    LookExactly(Settle(s, b.w, turns[0].others), b, turns[0], busy);
    PlayOne(s, b, busy, turns);
  }
}
