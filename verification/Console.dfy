/** The console object, whose methods update the ring, the subscriber table and the channels in place. */
module SerialConsole {
  import opened Bytes
  import Scrollback
  import CS = ConsoleState

  /** The record kept for a registered reader. Its channel is `chans` at the same id. */
  datatype Subscriber = Subscriber(closed: bool)

  /**
   A console. The concrete fields are those of the source, with the channels it has made kept in a
   table because both the console and the readers refer to them. The ghost field `st` is the state
   of ConsoleState that they represent.
   */
  class Console {
    const qcap: nat
    var ring: Scrollback.Ring
    var subs: map<nat, Subscriber>
    var chans: map<nat, CS.Chan>
    var nextID: nat
    var closed: bool
    var closeErr: Option<CS.Error>
    var done: CS.Chan
    ghost var st: CS.Console

    /** The scrollback ring holds what was published since the last reset. */
    ghost predicate RingOK()
      reads this, ring, ring.buf
    {
      && ring.Valid() && ring.buf.Length == st.cap
      && st.base <= |st.chunks| && ring.writes == st.chunks[st.base..]
    }

    ghost predicate TableOK()
      reads this
    {
      && qcap == st.qcap && nextID == st.nextID
      && closed == st.closed && closeErr == st.closeErr && done == st.done
      && subs.Keys == st.subs && chans == CS.Chans(st)
      && (forall i :: i in subs ==> i in chans && !subs[i].closed && !st.all[i].closed)
    }

    ghost predicate Valid()
      reads this, ring, ring.buf
    {
      RingOK() && TableOK() && CS.Inv(st)
    }

    constructor (bufferBytes: int, qcap: nat)
      requires qcap >= 1
      ensures Valid() && fresh(ring) && fresh(ring.buf)
      ensures st == CS.InitConsole(if bufferBytes <= 0 then 0x10_0000 else bufferBytes, qcap)
    {
      var capacity: nat := if bufferBytes <= 0 then 0x10_0000 else bufferBytes;
      ring := new Scrollback.Ring(capacity);
      this.qcap := qcap;
      subs, chans, nextID, closed, closeErr, done := map[], map[], 0, false, None, CS.EMPTY_CHAN;
      st := CS.InitConsole(capacity, qcap);
    }

    /** Appends to the ring and offers the chunk to every registered subscriber, in any order. */
    method Publish(p: seq<byte>)
      requires Valid()
      modifies this, ring, ring.buf
      ensures Valid() && ring == old(ring) && ring.buf == old(ring.buf)
      ensures st == CS.Publish(old(st), p)
      ensures forall i :: i in old(subs) ==>
                i in old(chans) && i in chans && Sent(old(chans[i]), chans[i], p, i in subs)
    {
      CS.PublishInv(st, p);
      SentToAll(p);
      Log(p);
      Fan(p);
    }

    lemma SentToAll(p: seq<byte>)
      requires Valid()
      ensures var d := CS.Publish(st, p);
              forall i :: i in subs ==>
                i in chans && i in CS.Chans(d) && Sent(chans[i], CS.Chans(d)[i], p, i in d.subs)
    {
      forall i | i in subs
        ensures i in chans && i in CS.Chans(CS.Publish(st, p))
        ensures Sent(chans[i], CS.Chans(CS.Publish(st, p))[i], p, i in CS.Publish(st, p).subs)
      {
        CS.PublishExactly(st, p, i);
        assert CS.SubOK(st, i, st.all[i]);
      }
    }

    /** A reader's channel around a publish, and whether it is still registered: sent the chunk while fewer are pending
        than its queue holds, closed otherwise. */
    ghost predicate Sent(was: CS.Chan, now: CS.Chan, p: seq<byte>, registered: bool) {
      && was.Chan? && was.received <= |was.sent|
      && (|was.sent| - was.received < qcap ==> registered && now == CS.Chan(was.sent + [p], was.received, false))
      && (|was.sent| - was.received >= qcap ==> !registered && now == CS.Chan(was.sent, was.received, true))
    }

    method Log(p: seq<byte>)
      requires ring.Valid() && st.base <= |st.chunks| && ring.writes == st.chunks[st.base..]
      modifies ring, ring.buf
      ensures ring.Valid() && ring.buf == old(ring.buf) && ring.writes == (st.chunks + [p])[st.base..]
    {
      ring.Write(p);
    }

    method Fan(p: seq<byte>)
      requires TableOK()
      modifies `subs, `chans, `st
      ensures TableOK() && st == CS.Publish(old(st), p)
    {
      CS.PublishChans(st, p);
      OfferAll(p, CS.Chans(CS.Publish(st, p)), CS.Publish(st, p).subs);
      st := CS.Publish(st, p);
    }

    /**
     The loop of Publish: a non-blocking send, or the detach of a reader whose queue is full.
     `want` is what the channels should become and `kept` the readers that stay registered.
     */
    method OfferAll(p: seq<byte>, ghost want: map<nat, CS.Chan>, ghost kept: set<nat>)
      requires chans.Keys == want.Keys && kept <= subs.Keys <= chans.Keys
      requires forall i :: i in subs ==> !subs[i].closed
      requires forall i :: i in subs ==>
                 want[i] == CS.Offered(chans[i], p, qcap) && (i in kept <==> CS.HasRoom(chans[i], qcap))
      requires forall i :: i in chans && i !in subs ==> want[i] == chans[i]
      modifies `subs, `chans
      ensures subs.Keys == kept && chans == want
      ensures forall i :: i in subs ==> !subs[i].closed
    {
      var todo := subs.Keys;
      while todo != {}
        invariant todo <= old(subs.Keys) && chans.Keys == want.Keys
        invariant subs.Keys == kept + todo
        invariant forall i :: i in chans ==> chans[i] == if i in todo then old(chans)[i] else want[i]
        invariant forall i :: i in subs ==> !subs[i].closed
        decreases todo
      {
        var id := AnyOf(todo);
        todo := todo - {id};
        OfferTo(id, p);
      }
    }

    method OfferTo(id: nat, p: seq<byte>)
      requires id in subs && id in chans
      modifies `subs, `chans
      ensures old(subs[id].closed) ==> chans == old(chans) && subs == old(subs)
      ensures !old(subs[id].closed) ==>
                && chans == old(chans)[id := CS.Offered(old(chans[id]), p, qcap)]
                && subs == if CS.HasRoom(old(chans[id]), qcap) then old(subs) else old(subs) - {id}
    {
      var s := subs[id];
      if s.closed {
        return;
      }
      var ch := chans[id];
      if |ch.Queue()| < qcap {
        chans := chans[id := ch.Send(p)];
      } else {
        chans := chans[id := ch.Close()];
        subs := subs - {id};
      }
    }

    method CloseWithErr(err: CS.Error)
      requires Valid()
      modifies this
      ensures Valid() && ring == old(ring)
      ensures st == CS.CloseWithErr(old(st), err)
    {
      CS.CloseInv(st, err);
      if !closed {
        Finalize(err);
      }
    }

    method Finalize(err: CS.Error)
      requires TableOK() && !closed
      modifies `closed, `closeErr, `subs, `chans, `done, `st
      ensures TableOK() && st == CS.CloseWithErr(old(st), err)
    {
      CS.CloseChans(st, err);
      closed := true;
      closeErr := Some(if err == CS.Eof then CS.ErrClosed else err);
      CloseAll();
      done := done.Close();
      st := CS.CloseWithErr(st, err);
    }

    /** The loop of CloseWithErr: closes the channel of every registered reader and forgets it. */
    method CloseAll()
      requires subs.Keys <= chans.Keys && forall i :: i in subs ==> !subs[i].closed
      modifies `subs, `chans
      ensures subs == map[] && chans.Keys == old(chans.Keys)
      ensures forall i :: i in chans ==> chans[i] == if i in old(subs) then old(chans)[i].Close() else old(chans)[i]
    {
      while subs != map[]
        invariant subs.Keys <= old(subs.Keys) && chans.Keys == old(chans.Keys)
        invariant forall i :: i in subs ==> !subs[i].closed
        invariant forall i :: i in chans ==>
                    chans[i] == if i in old(subs) && i !in subs then old(chans)[i].Close() else old(chans)[i]
        decreases subs.Keys
      {
        assert subs.Keys != {};
        var id := AnyOf(subs.Keys);
        if !subs[id].closed {
          chans := chans[id := chans[id].Close()];
        }
        subs := subs - {id};
      }
    }

    /**
     Two critical sections around closing the transport. `meanwhile` is the error with which the read
     loop finalized between them, if it did; whoever comes first decides the recorded error. The result is
     that of closing the transport, on a console already closed as well.
     */
    method Close(meanwhile: Option<CS.Error>, transport: Option<CS.Error>) returns (err: Option<CS.Error>)
      requires Valid()
      modifies this
      ensures err == transport
      ensures Valid() && ring == old(ring)
      ensures st == CS.CloseWithErr(old(st), if meanwhile.Some? then meanwhile.value else CS.ErrClosed)
    {
      var already := closed;
      err := transport;
      if meanwhile.Some? {
        CloseWithErr(meanwhile.value);
      }
      if !already {
        CloseWithErr(CS.ErrClosed);
      }
    }

    /** Registers a live feed whose channel starts with the replay, and returns its id. */
    method Subscribe(replayBytes: int) returns (id: nat)
      requires Valid()
      modifies this
      ensures Valid() && ring == old(ring)
      ensures id == old(st).nextID && st == CS.Subscribe(old(st), replayBytes)
    {
      CS.SubscribeInv(st, replayBytes);
      var ch := NewChan(replayBytes);
      id := Register(ch, replayBytes);
    }

    method Register(ch: CS.Chan, ghost replayBytes: int) returns (id: nat)
      requires TableOK() && nextID !in subs && ch == CS.NewChan(CS.ReplayOf(st, replayBytes))
      modifies `subs, `chans, `nextID, `st
      ensures TableOK() && id == old(st).nextID && st == CS.Subscribe(old(st), replayBytes)
    {
      CS.SubscribeChans(st, replayBytes);
      id := nextID;
      nextID := nextID + 1;
      if closed {
        chans := chans[id := ch.Close()];
      } else {
        chans := chans[id := ch];
        subs := subs[id := Subscriber(false)];
      }
      st := CS.Subscribe(st, replayBytes);
    }

    method NewChan(replayBytes: int) returns (ch: CS.Chan)
      requires Valid()
      ensures ch == CS.NewChan(CS.ReplayOf(st, replayBytes))
    {
      ch := CS.EMPTY_CHAN;
      if replayBytes > 0 {
        var snap, _ := ring.Snapshot(replayBytes);
        if snap.Length > 0 {
          ch := ch.Send(snap[..]);
        }
      }
    }

    /** Subscription.Close: detaches a feed that is still registered. */
    method Unsubscribe(id: nat)
      requires Valid()
      modifies this
      ensures Valid() && ring == old(ring)
      ensures st == CS.Unsubscribe(old(st), id)
    {
      CS.UnsubscribeInv(st, id);
      Deregister(id);
    }

    method Deregister(id: nat)
      requires TableOK()
      modifies `subs, `chans, `st
      ensures TableOK() && st == CS.Unsubscribe(old(st), id)
    {
      CS.UnsubscribeChans(st, id);
      if id in subs && !subs[id].closed {
        chans := chans[id := chans[id].Close()];
        subs := subs - {id};
      }
      st := CS.Unsubscribe(st, id);
    }

    /** The reader's side: takes the next chunk if there is one; None with ended once the feed is over. */
    method Receive(id: nat) returns (chunk: Option<seq<byte>>, ended: bool)
      requires Valid() && id in chans
      modifies this
      ensures Valid() && ring == old(ring)
      ensures st == CS.Receive(old(st), id)
      ensures chunk == CS.Next(old(chans[id])) && (ended <==> CS.Ended(old(chans[id])))
    {
      CS.ReceiveInv(st, id);
      chunk, ended := Take(id);
    }

    method Take(id: nat) returns (chunk: Option<seq<byte>>, ended: bool)
      requires RingOK() && TableOK() && id in chans
      modifies `chans, `st
      ensures RingOK() && TableOK() && st == CS.Receive(old(st), id)
      ensures chunk == CS.Next(old(chans[id])) && (ended <==> CS.Ended(old(chans[id])))
    {
      CS.ReceiveChans(st, id);
      var ch := chans[id];
      chunk, ended := CS.Next(ch), CS.Ended(ch);
      chans := chans[id := ch.Receive()];
      st := CS.Receive(st, id);
    }

    /** Clears the scrollback; live feeds go on undisturbed. */
    method Reset()
      requires Valid()
      modifies this, ring
      ensures Valid() && ring == old(ring)
      ensures st == CS.Reset(old(st))
    {
      CS.ResetInv(st);
      ring.Reset();
      st := CS.Reset(st);
    }

    method Snapshot(maxBytes: int) returns (data: array<byte>, truncated: bool)
      requires Valid()
      ensures fresh(data) && data[..] == CS.Snapshot(st, maxBytes)
      ensures !truncated ==> data[..] == Flatten(st.chunks[st.base..])
    {
      data, truncated := ring.Snapshot(maxBytes);
    }

    method TotalWritten() returns (n: nat)
      requires Valid()
      ensures n == CS.TotalWritten(st)
    {
      n := ring.totalIn;
    }
  }
}
