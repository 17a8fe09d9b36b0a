/** The lock manager object. Each method is one critical section; `now` is the clock read inside it. */
module Session {
  import opened Bytes
  import SS = SessionState

  class Manager {
    const ttl: int
    var id: string
    var owner: string
    var startedAt: int
    var lastActivity: int
    var activeCalls: int
    var released: Option<nat>     // the channel of the current session, an index into closes
    var closes: seq<nat>          // every channel made, with how often it has been closed
    ghost var log: seq<SS.Turn>

    ghost function View(): SS.Manager
      reads this
    {
      SS.Manager(ttl, id, owner, startedAt, lastActivity, activeCalls, released, closes, log)
    }

    ghost predicate Valid()
      reads this
    {
      SS.ChannelsOK(View()) && SS.Alternates(log, id)
    }

    /** The session has been idle for more than a ttl. */
    ghost predicate Overdue(now: int)
      reads this
    {
      id != "" && activeCalls <= 0 && now > lastActivity + ttl
    }

    constructor (ttl: int)
      ensures Valid() && View() == SS.NewManager(ttl)
    {
      this.ttl := if ttl <= 0 then SS.DEFAULT_TTL else ttl;
      id, owner, startedAt, lastActivity, activeCalls := "", "", 0, 0, 0;
      released, closes, log := None, [], [];
    }

    /** Closing a channel; a second close would panic. */
    method CloseChannel(k: nat)
      requires k < |closes| && closes[k] == 0
      modifies `closes
      ensures closes == old(closes)[k := 1]
    {
      closes := closes[k := 1];
    }

    method Clear()
      requires Valid()
      modifies this
      ensures Valid() && View() == SS.Clear(old(View()))
    {
      SS.ClearOK(View());
      log := if id == "" then log else log + [SS.Released(id)];
      id, owner, activeCalls := "", "", 0;
      if released.Some? {
        CloseChannel(released.value);
        released := None;
      }
    }

    method ExpireIfIdle(now: int)
      requires Valid()
      modifies this
      ensures Valid() && View() == SS.ExpireIfIdle(old(View()), now)
    {
      if id == "" || activeCalls > 0 {
        return;
      }
      if now > lastActivity + ttl {
        Clear();
      }
    }

    /** One pass of the acquire loop: take a free lock, or say which channel to wait on. */
    method TryAcquire(now: int, owner: string, newId: string) returns (a: SS.Attempt)
      requires Valid() && newId != ""
      modifies this
      ensures Valid() && (View(), a) == SS.TryAcquire(old(View()), now, owner, newId)
      ensures old(id) == "" || old(Overdue(now)) ==>
                && a == SS.Got(SS.Session(newId, owner, now, now + ttl))
                && id == newId && this.owner == owner && startedAt == now && lastActivity == now && activeCalls == 0
      ensures old(id) != "" && !old(Overdue(now)) ==>
                View() == old(View()) && a == SS.Busy(old(released), old(this.owner), old(lastActivity) + ttl)
    {
      ExpireIfIdle(now);
      if id == "" {
        SS.BeginOK(View(), now, owner, newId);
        id := newId;
        this.owner := owner;
        startedAt, lastActivity, activeCalls := now, now, 0;
        released := Some(|closes|);
        closes := closes + [0];
        log := log + [SS.Acquired(newId)];
        return SS.Got(SS.Session(id, owner, startedAt, lastActivity + ttl));
      }
      a := SS.Busy(released, this.owner, lastActivity + ttl);
    }

    method Finish(id: string) returns (ok: bool)
      requires Valid()
      modifies this
      ensures Valid() && (View(), ok) == SS.Finish(old(View()), id)
    {
      if this.id == "" || this.id == id {
        if this.id == id {
          Clear();
        }
        return true;
      }
      ok := false;
    }

    method Refresh(now: int, id: string) returns (ok: bool)
      requires Valid()
      modifies this
      ensures Valid() && (View(), ok) == SS.Refresh(old(View()), now, id)
      ensures ok <==> id != "" && old(this.id) == id && !old(Overdue(now))
      ensures ok ==> View() == old(View()).(lastActivity := now)
    {
      ExpireIfIdle(now);
      if this.id == "" || this.id != id {
        return false;
      }
      lastActivity := now;
      ok := true;
    }

    method CallStart(now: int, id: string) returns (ok: bool)
      requires Valid()
      modifies this
      ensures Valid() && (View(), ok) == SS.CallStart(old(View()), now, id)
      ensures ok <==> id != "" && old(this.id) == id && !old(Overdue(now))
      ensures ok ==> View() == old(View()).(lastActivity := now, activeCalls := old(activeCalls) + 1)
    {
      ExpireIfIdle(now);
      if this.id == "" || this.id != id {
        return false;
      }
      lastActivity := now;
      activeCalls := activeCalls + 1;
      ok := true;
    }

    method CallEnd(now: int, id: string)
      requires Valid()
      modifies this
      ensures Valid() && View() == SS.CallEnd(old(View()), now, id)
    {
      if this.id == id && activeCalls > 0 {
        activeCalls := activeCalls - 1;
        lastActivity := now;
      }
    }

    method GetInfo(now: int) returns (info: SS.Info)
      requires Valid()
      modifies this
      ensures Valid() && View() == SS.ExpireIfIdle(old(View()), now) && info == SS.InfoOf(View())
    {
      ExpireIfIdle(now);
      if id == "" {
        return SS.NoSession;
      }
      info := SS.Session(id, owner, startedAt, lastActivity + ttl);
    }
  }
}
