/**
 One line written to the console and the wait for what ends its output: subscribe, write, then take chunks
 until the pattern is seen, the context is done or the feed ends. Others use the console in the meantime.
 */
module UBootExchange {
  import opened Bytes
  import opened Matching
  import opened Scanner
  import opened UBootExpect
  import CS = ConsoleState
  import PW = PatternWait
  import WL = WaitLoop
  import WS = WaitScrollback

  /** What cut the wait short; NotCut when nothing has, and only a match can have ended it. */
  datatype Ending = CtxDone | ConsoleClosed | NotCut

  /** The answer to one line: the chunks taken. */
  datatype Reply = WriteFails | Heard(chunks: seq<seq<byte>>, ending: Ending)

  /** What others do before the wait subscribes, between that and the write, before each of its selects, and
      before it closes its subscription. */
  datatype Talk = Talk(
    before: seq<CS.Event>, pause: seq<CS.Event>, written: bool, turns: seq<WL.Turn>, after: seq<CS.Event>)

  /** Nobody else receives from a subscription or closes it. */
  predicate Foreign(id: nat, e: CS.Event) {
    e != CS.EvReceive(id) && e != CS.EvUnsubscribe(id)
  }

  /** Others' events, those that would meddle with the subscription left out. */
  function Settle(c: CS.Console, id: nat, es: seq<CS.Event>): CS.Console
    decreases |es|
  {
    if es == [] then c else Settle(if Foreign(id, es[0]) then CS.Step(c, es[0]) else c, id, es[1..])
  }

  function ChanOf(c: CS.Console, id: nat): CS.Chan {
    if id in c.all then c.all[id].ch else CS.EMPTY_CHAN
  }

  /** The console when a wait has stopped, the chunks it took, and what cut it short. */
  datatype Hearing = Hearing(console: CS.Console, chunks: seq<seq<byte>>, ending: Ending)

  /** The select loop of send-and-expect. */
  function Listen(pick: Matcher<byte>, c: CS.Console, id: nat, cancelled: bool, acc: seq<byte>, turns: seq<WL.Turn>)
    : Hearing
    decreases |turns|
  {
    if turns == [] then Hearing(c, [], NotCut)
    else
      var d := Settle(c, id, turns[0].others);
      var done := cancelled || turns[0].cancel;
      match PW.Select(ChanOf(d, id), done, turns[0].preferCtx)
      case ByCtx => Hearing(d, [], CtxDone)
      case ByEnd => Hearing(d, [], ConsoleClosed)
      case Nothing => Listen(pick, d, id, done, acc, turns[1..])
      case ByChunk(chunk) =>
        if FindIndex(pick, acc + chunk).Some? then Hearing(CS.Receive(d, id), [chunk], NotCut)
        else Then(chunk, Listen(pick, CS.Receive(d, id), id, done, Trim(acc + chunk), turns[1..]))
  }

  /** One more chunk, taken first. */
  function Then(chunk: seq<byte>, h: Hearing): Hearing {
    h.(chunks := [chunk] + h.chunks)
  }

  /** The console when the line is about to be written: the wait has subscribed. */
  function Subscribed(c: CS.Console, t: Talk): CS.Console {
    Settle(CS.Subscribe(CS.Run(c, t.before), 0), Mine(c, t), t.pause)
  }

  /** The subscription of the wait. */
  function Mine(c: CS.Console, t: Talk): nat {
    CS.Run(c, t.before).nextID
  }

  function Wait(pick: Matcher<byte>, c: CS.Console, t: Talk): Hearing {
    Listen(pick, Subscribed(c, t), Mine(c, t), false, [], t.turns)
  }

  /** The wait has ended. */
  predicate Over(pick: Matcher<byte>, h: Hearing) {
    h.ending != NotCut || Expect(pick, [], h.chunks).1
  }

  /** Subscribe, write, wait and close the subscription, unless the wait goes on. */
  function Hear(pick: Matcher<byte>, c: CS.Console, t: Talk): (CS.Console, Reply) {
    if !t.written then (CS.Unsubscribe(Subscribed(c, t), Mine(c, t)), WriteFails)
    else
      var h := Wait(pick, c, t);
      (if Over(pick, h) then CS.Unsubscribe(Settle(h.console, Mine(c, t), t.after), Mine(c, t)) else h.console,
       Heard(h.chunks, h.ending))
  }

  // ---- What is heard is a stretch of the stream ------------------------------------------------

  /** How long the stream was when the wait subscribed, and when the line was written. */
  function Began(c: CS.Console, t: Talk): nat {
    PW.Len(CS.Run(c, t.before))
  }

  function WrittenAt(c: CS.Console, t: Talk): nat {
    PW.Len(Subscribed(c, t))
  }

  /** How many bytes the wait took. */
  function Taken(r: Reply): nat {
    if r.Heard? then |Flatten(r.chunks)| else 0
  }

  /** A subscription that begins at this position, of which this much has been taken. */
  ghost predicate Follows(c: CS.Console, id: nat, from: int, taken: seq<byte>) {
    && CS.Inv(c) && id in c.all && c.all[id].at <= |c.chunks|
    && CS.From(c, c.all[id]) == from && CS.Consumed(c.all[id]) == taken
  }

  lemma {:induction false} SettleFollows(c: CS.Console, id: nat, es: seq<CS.Event>, from: int, taken: seq<byte>)
    requires Follows(c, id, from, taken)
    ensures Follows(Settle(c, id, es), id, from, taken) && WS.Since(c, Settle(c, id, es))
    decreases |es|
  {
    if es != [] {
      if Foreign(id, es[0]) {
        PW.Undisturbed(c, es[0], id);
        WS.StepSince(c, es[0]);
        SettleFollows(CS.Step(c, es[0]), id, es[1..], from, taken);
        WS.SinceTransitive(c, CS.Step(c, es[0]), Settle(c, id, es));
      } else {
        SettleFollows(c, id, es[1..], from, taken);
      }
    }
  }

  lemma ReceiveFollows(c: CS.Console, id: nat, from: int, taken: seq<byte>)
    requires Follows(c, id, from, taken) && c.all[id].ch.Queue() != []
    ensures Follows(CS.Receive(c, id), id, from, taken + c.all[id].ch.Queue()[0]) && WS.Since(c, CS.Receive(c, id))
  {
    PW.TakesNext(c, id);
    WS.StepSince(c, CS.EvReceive(id));
  }

  lemma FlattenCons(taken: seq<byte>, chunk: seq<byte>, rest: seq<seq<byte>>)
    ensures taken + chunk + Flatten(rest) == taken + Flatten([chunk] + rest)
  {
    assert ([chunk] + rest)[1..] == rest;
  }

  /** The waits that take no chunk now. */
  lemma ListenIdle(pick: Matcher<byte>, c: CS.Console, id: nat, cancelled: bool, acc: seq<byte>, turns: seq<WL.Turn>)
    requires turns != []
    requires var d := Settle(c, id, turns[0].others);
             !PW.Select(ChanOf(d, id), cancelled || turns[0].cancel, turns[0].preferCtx).ByChunk?
    ensures var d := Settle(c, id, turns[0].others);
            var h := Listen(pick, c, id, cancelled, acc, turns);
            || (h.console == d && h.chunks == [])
            || h == Listen(pick, d, id, cancelled || turns[0].cancel, acc, turns[1..])
  {
  }

  /** What follows once one more chunk has been taken. */
  lemma ThenFollows(c: CS.Console, e: CS.Console, h: Hearing, chunk: seq<byte>, id: nat, from: int, taken: seq<byte>)
    requires WS.Since(c, e) && WS.Since(e, h.console) && Follows(h.console, id, from, taken + chunk + Flatten(h.chunks))
    ensures var g := Then(chunk, h);
            Follows(g.console, id, from, taken + Flatten(g.chunks)) && WS.Since(c, g.console)
  {
    FlattenCons(taken, chunk, h.chunks);
    WS.SinceTransitive(c, e, h.console);
  }

  lemma {:induction false} ListenFollows(pick: Matcher<byte>, c: CS.Console, id: nat, cancelled: bool, acc: seq<byte>,
                                         turns: seq<WL.Turn>, from: int, taken: seq<byte>)
    requires Follows(c, id, from, taken)
    ensures var h := Listen(pick, c, id, cancelled, acc, turns);
            Follows(h.console, id, from, taken + Flatten(h.chunks)) && WS.Since(c, h.console)
    decreases |turns|
  {
    assert taken + [] == taken;
    if turns != [] {
      var d := Settle(c, id, turns[0].others);
      var done := cancelled || turns[0].cancel;
      SettleFollows(c, id, turns[0].others, from, taken);
      var ready := PW.Select(ChanOf(d, id), done, turns[0].preferCtx);
      if ready.ByChunk? {
        var e := CS.Receive(d, id);
        ReceiveFollows(d, id, from, taken);
        WS.SinceTransitive(c, d, e);
        if FindIndex(pick, acc + ready.chunk).None? {
          ListenFollows(pick, e, id, done, Trim(acc + ready.chunk), turns[1..], from, taken + ready.chunk);
          var later := Listen(pick, e, id, done, Trim(acc + ready.chunk), turns[1..]);
          ThenFollows(c, e, later, ready.chunk, id, from, taken);
        } else {
          FlattenOne(ready.chunk);
        }
      } else {
        ListenIdle(pick, c, id, cancelled, acc, turns);
        ListenFollows(pick, d, id, done, acc, turns[1..], from, taken);
        WS.SinceTransitive(c, d, Listen(pick, c, id, cancelled, acc, turns).console);
      }
    }
  }

  /** A new subscription without replay follows the stream from its present end. */
  lemma SubscribeFollows(d: CS.Console)
    requires CS.Inv(d)
    ensures Follows(CS.Subscribe(d, 0), d.nextID, PW.Len(d), []) && WS.Since(d, CS.Subscribe(d, 0))
  {
    CS.SubscribeInv(d, 0);
    PW.NewBegins(d, 0);
    SubscribeIsLater(d);
  }

  lemma SubscribeIsLater(d: CS.Console)
    requires CS.Inv(d)
    ensures WS.Since(d, CS.Subscribe(d, 0))
  {
    WS.StepSince(d, CS.EvSubscribe(0));
  }

  lemma SubscribedFollows(c: CS.Console, t: Talk)
    requires CS.Inv(c)
    ensures Follows(Subscribed(c, t), Mine(c, t), Began(c, t), [])
    ensures WS.Since(c, CS.Run(c, t.before)) && WS.Since(CS.Run(c, t.before), Subscribed(c, t))
  {
    var d := CS.Run(c, t.before);
    WS.RunSince(c, t.before);
    SubscribeFollows(d);
    SettleFollows(CS.Subscribe(d, 0), Mine(c, t), t.pause, Began(c, t), []);
    WS.SinceTransitive(d, CS.Subscribe(d, 0), Subscribed(c, t));
  }

  lemma WaitFollows(pick: Matcher<byte>, c: CS.Console, t: Talk)
    requires CS.Inv(c)
    ensures var h := Wait(pick, c, t);
            Follows(h.console, Mine(c, t), Began(c, t), Flatten(h.chunks)) && WS.Since(Subscribed(c, t), h.console)
  {
    SubscribedFollows(c, t);
    ListenFollows(pick, Subscribed(c, t), Mine(c, t), false, [], t.turns, Began(c, t), []);
    assert [] + Flatten(Wait(pick, c, t).chunks) == Flatten(Wait(pick, c, t).chunks);
  }

  lemma UnsubscribeIsLater(c: CS.Console, id: nat)
    requires CS.Inv(c)
    ensures CS.Inv(CS.Unsubscribe(c, id)) && WS.Since(c, CS.Unsubscribe(c, id))
  {
    WS.StepSince(c, CS.EvUnsubscribe(id));
  }

  lemma ClosedSince(c: CS.Console, id: nat, es: seq<CS.Event>, from: int, taken: seq<byte>)
    requires Follows(c, id, from, taken)
    ensures var d := CS.Unsubscribe(Settle(c, id, es), id);
            CS.Inv(d) && WS.Since(c, d)
  {
    SettleFollows(c, id, es, from, taken);
    UnsubscribeIsLater(Settle(c, id, es), id);
    WS.SinceTransitive(c, Settle(c, id, es), CS.Unsubscribe(Settle(c, id, es), id));
  }

  /** Only time passes for the console in an exchange: subscribing, then writing, then waiting. */
  lemma HearSince(pick: Matcher<byte>, c: CS.Console, t: Talk)
    requires CS.Inv(c)
    ensures var d := Hear(pick, c, t).0;
            CS.Inv(d) && WS.Since(c, d) && WS.Since(Subscribed(c, t), d)
    ensures PW.Len(c) <= Began(c, t) <= WrittenAt(c, t) <= PW.Len(Hear(pick, c, t).0)
  {
    var s, d := Subscribed(c, t), Hear(pick, c, t).0;
    SubscribedFollows(c, t);
    if t.written {
      var h := Wait(pick, c, t);
      WaitFollows(pick, c, t);
      ClosedSince(h.console, Mine(c, t), t.after, Began(c, t), Flatten(h.chunks));
      WS.SinceTransitive(s, h.console, d);
    } else {
      ClosedSince(s, Mine(c, t), [], Began(c, t), []);
    }
    WS.SinceTransitive(c, CS.Run(c, t.before), s);
    WS.SinceTransitive(c, s, d);
  }

  /**
   What a wait takes is the stretch of the stream that begins where it subscribed, before its line was written:
   nothing the line causes the target to print can be missed at the front, and nothing in between.
   */
  lemma HeardIsStretch(pick: Matcher<byte>, c: CS.Console, t: Talk)
    requires CS.Inv(c)
    ensures var (d, r) := Hear(pick, c, t);
            && Began(c, t) <= WrittenAt(c, t) && Began(c, t) + Taken(r) <= PW.Len(d)
            && (r.Heard? ==> Flatten(r.chunks) == CS.Stream(d)[Began(c, t)..Began(c, t) + Taken(r)])
  {
    var d := Hear(pick, c, t).0;
    HearSince(pick, c, t);
    if t.written {
      var h := Wait(pick, c, t);
      WaitFollows(pick, c, t);
      CS.ConsumedStretch(h.console, Mine(c, t));
      ClosedSince(h.console, Mine(c, t), t.after, Began(c, t), Flatten(h.chunks));
      assert CS.Stream(h.console) <= CS.Stream(d);
    }
  }

  /** While its subscription is registered, a wait has taken or has queued everything published since it began. */
  lemma NothingMissed(pick: Matcher<byte>, c: CS.Console, t: Talk)
    requires CS.Inv(c)
    ensures var h := Wait(pick, c, t);
            && Began(c, t) <= PW.Len(h.console) && Mine(c, t) in h.console.all
            && (Mine(c, t) in h.console.subs ==>
                  Flatten(h.chunks) + CS.Queued(h.console.all[Mine(c, t)]) == CS.Stream(h.console)[Began(c, t)..])
  {
    WaitFollows(pick, c, t);
    CS.ContiguousSuffix(Wait(pick, c, t).console, Mine(c, t));
  }

  // ---- The match ends it ---------------------------------------------------------------------------

  /** A wait stops at the first match: the last chunk completes it. */
  lemma {:induction false} ListenStops(pick: Matcher<byte>, c: CS.Console, id: nat, cancelled: bool, acc: seq<byte>,
                                       turns: seq<WL.Turn>)
    ensures var h := Listen(pick, c, id, cancelled, acc, turns);
            Expect(pick, acc, h.chunks).1 <==> MatchedLast(pick, acc, h.chunks)
    ensures var h := Listen(pick, c, id, cancelled, acc, turns);
            Expect(pick, acc, h.chunks).1 ==> h.ending == NotCut
    decreases |turns|
  {
    if turns != [] {
      var d := Settle(c, id, turns[0].others);
      var done := cancelled || turns[0].cancel;
      match PW.Select(ChanOf(d, id), done, turns[0].preferCtx) {
        case Nothing => ListenStops(pick, d, id, done, acc, turns[1..]);
        case ByChunk(chunk) =>
          if FindIndex(pick, acc + chunk).None? {
            ListenStops(pick, CS.Receive(d, id), id, done, Trim(acc + chunk), turns[1..]);
            var h := Listen(pick, CS.Receive(d, id), id, done, Trim(acc + chunk), turns[1..]);
            assert ([chunk] + h.chunks)[1..] == h.chunks;
          }
        case _ =>
      }
    }
  }

  /** The pattern is seen in an exchange exactly when its last chunk is the first at which a rescan finds it. */
  lemma SeenAtLast(pick: Matcher<byte>, c: CS.Console, t: Talk)
    requires Fresh(pick, EXPECT_MATCH_WIDTH) && t.written
    ensures var r := Hear(pick, c, t).1;
            r.Heard? && (Expect(pick, [], r.chunks).1 <==> r.chunks != [] && FirstSeen(pick, r.chunks, |r.chunks| - 1))
  {
    var h := Wait(pick, c, t);
    ListenStops(pick, Subscribed(c, t), Mine(c, t), false, [], t.turns);
    MatchedLastIsFirstSeen(pick, h.chunks);
  }

  // ---- Any answer can be given ----------------------------------------------------------------------

  /** The turns in which these chunks are published, each taken at once. */
  function Uttered(chunks: seq<seq<byte>>): seq<WL.Turn> {
    seq(|chunks|, i requires 0 <= i < |chunks| => WL.Turn([CS.EvPublish(chunks[i])], false, false))
  }

  /** The exchange in which the line is written and these chunks are printed. */
  function Said(chunks: seq<seq<byte>>): Talk {
    Talk([], [], true, Uttered(chunks), [])
  }

  /** A registered subscription with nothing queued. */
  ghost predicate Ready(c: CS.Console, id: nat) {
    && c.qcap >= 1 && !c.closed && id in c.all && id in c.subs
    && !c.all[id].closed && c.all[id].ch.Chan? && !c.all[id].ch.closed
    && c.all[id].ch.received == |c.all[id].ch.sent|
  }

  lemma PublishedToOne(c: CS.Console, id: nat, chunk: seq<byte>)
    requires Ready(c, id)
    ensures var d := CS.Publish(c, chunk);
            && Settle(c, id, [CS.EvPublish(chunk)]) == d
            && ChanOf(d, id).Queue() == [chunk] && d.chunks == c.chunks + [chunk]
            && Ready(CS.Receive(d, id), id) && CS.Receive(d, id).chunks == c.chunks + [chunk]
  {
    assert [CS.EvPublish(chunk)][1..] == [];
    OneQueued(c.all[id].ch, chunk);
  }

  lemma OneQueued(ch: CS.Chan, chunk: seq<byte>)
    requires ch.Chan? && !ch.closed && ch.received == |ch.sent|
    ensures ch.Queue() == [] && ch.Send(chunk).Queue() == [chunk]
    ensures ch.Send(chunk).Receive() == CS.Chan(ch.sent + [chunk], ch.received + 1, false)
  {
  }

  lemma UtteredFirst(chunks: seq<seq<byte>>)
    requires chunks != []
    ensures Uttered(chunks) == [WL.Turn([CS.EvPublish(chunks[0])], false, false)] + Uttered(chunks[1..])
  {
  }

  lemma ListenTakes(pick: Matcher<byte>, c: CS.Console, id: nat, acc: seq<byte>, chunk: seq<byte>, rest: seq<WL.Turn>)
      returns (e: CS.Console)
    requires Ready(c, id)
    ensures Ready(e, id) && e.chunks == c.chunks + [chunk]
    ensures Listen(pick, c, id, false, acc, [WL.Turn([CS.EvPublish(chunk)], false, false)] + rest)
            == if FindIndex(pick, acc + chunk).Some? then Hearing(e, [chunk], NotCut)
               else Then(chunk, Listen(pick, e, id, false, Trim(acc + chunk), rest))
  {
    PublishedToOne(c, id, chunk);
    e := CS.Receive(CS.Publish(c, chunk), id);
    var t := WL.Turn([CS.EvPublish(chunk)], false, false);
    assert ([t] + rest)[1..] == rest && ([t] + rest)[0] == t;
  }

  lemma MatchedLastStep(pick: Matcher<byte>, acc: seq<byte>, chunk: seq<byte>, rest: seq<seq<byte>>)
    ensures MatchedLast(pick, acc, [chunk] + rest)
       <==> if FindIndex(pick, acc + chunk).Some? then rest == [] else MatchedLast(pick, Trim(acc + chunk), rest)
  {
    assert ([chunk] + rest)[1..] == rest;
  }

  /** The wait has taken all of these chunks, the subscription still open. */
  ghost predicate TookAll(c: CS.Console, id: nat, chunks: seq<seq<byte>>, h: Hearing) {
    h.chunks == chunks && h.ending == NotCut && Ready(h.console, id) && h.console.chunks == c.chunks + chunks
  }

  lemma TookOne(c: CS.Console, id: nat, chunk: seq<byte>, e: CS.Console)
    requires Ready(e, id) && e.chunks == c.chunks + [chunk]
    ensures TookAll(c, id, [chunk], Hearing(e, [chunk], NotCut))
  {
  }

  lemma TookMore(c: CS.Console, id: nat, chunk: seq<byte>, e: CS.Console, rest: seq<seq<byte>>, h: Hearing)
    requires e.chunks == c.chunks + [chunk] && TookAll(e, id, rest, h)
    ensures TookAll(c, id, [chunk] + rest, Then(chunk, h))
  {
  }

  lemma {:induction false} UtteredIsTaken(pick: Matcher<byte>, c: CS.Console, id: nat, acc: seq<byte>,
                                          chunks: seq<seq<byte>>)
    requires Ready(c, id) && MatchedLast(pick, acc, chunks)
    ensures TookAll(c, id, chunks, Listen(pick, c, id, false, acc, Uttered(chunks)))
    decreases |chunks|
  {
    var chunk, rest := chunks[0], chunks[1..];
    assert chunks == [chunk] + rest;
    UtteredFirst(chunks);
    MatchedLastStep(pick, acc, chunk, rest);
    var e := ListenTakes(pick, c, id, acc, chunk, Uttered(rest));
    if FindIndex(pick, acc + chunk).Some? {
      TookOne(c, id, chunk, e);
    } else {
      UtteredIsTaken(pick, e, id, Trim(acc + chunk), rest);
      TookMore(c, id, chunk, e, rest, Listen(pick, e, id, false, Trim(acc + chunk), Uttered(rest)));
    }
  }

  lemma ReadyAtFirst(c: CS.Console, chunks: seq<seq<byte>>)
    requires CS.Inv(c) && !c.closed
    ensures var t := Said(chunks);
            && Subscribed(c, t) == CS.Subscribe(c, 0) && Mine(c, t) == c.nextID
            && Ready(Subscribed(c, t), Mine(c, t)) && Subscribed(c, t).chunks == c.chunks
  {
  }

  lemma {:induction false} MatchedLastMatches(pick: Matcher<byte>, acc: seq<byte>, chunks: seq<seq<byte>>)
    requires MatchedLast(pick, acc, chunks)
    ensures Expect(pick, acc, chunks).1
    decreases |chunks|
  {
    if FindIndex(pick, acc + chunks[0]).None? {
      MatchedLastMatches(pick, Trim(acc + chunks[0]), chunks[1..]);
    }
  }

  lemma LeftOpen(c: CS.Console, id: nat)
    requires !c.closed
    ensures var d := CS.Unsubscribe(Settle(c, id, []), id);
            d.chunks == c.chunks && !d.closed
  {
  }

  /** On an open console every answer whose last chunk completes the first match can be the one that is heard. */
  lemma SaidIsHeard(pick: Matcher<byte>, c: CS.Console, chunks: seq<seq<byte>>)
    requires CS.Inv(c) && !c.closed && MatchedLast(pick, [], chunks)
    ensures var (d, r) := Hear(pick, c, Said(chunks));
            r == Heard(chunks, NotCut) && CS.Inv(d) && !d.closed && d.chunks == c.chunks + chunks
    ensures Began(c, Said(chunks)) == WrittenAt(c, Said(chunks)) == PW.Len(c)
  {
    var t := Said(chunks);
    ReadyAtFirst(c, chunks);
    UtteredIsTaken(pick, CS.Subscribe(c, 0), c.nextID, [], chunks);
    MatchedLastMatches(pick, [], chunks);
    LeftOpen(Wait(pick, c, t).console, c.nextID);
    HearSince(pick, c, t);
  }
}
