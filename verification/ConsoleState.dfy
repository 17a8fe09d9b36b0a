/**
 The console as a state machine over values: what every mutex-protected operation does, with the
 whole history of published output and of every subscription kept for stating properties.

 An execution is a list of events, one per critical section or channel receive, in any order.
 */
module ConsoleState {
  import opened Bytes

  datatype Error = Eof | ErrClosed | Transport(message: string)

  // ---- Buffered channels --------------------------------------------------------

  /** A buffered channel with everything ever sent on it. Misuse panics, as in Go. */
  datatype Chan = Chan(sent: seq<seq<byte>>, received: nat, closed: bool) | Panicked {
    /** Chunks sent and not yet received. */
    function Queue(): seq<seq<byte>> {
      if Panicked? || received > |sent| then [] else sent[received..]
    }

    function Send(chunk: seq<byte>): Chan {
      if Panicked? || closed then Panicked else this.(sent := sent + [chunk])
    }

    function Close(): Chan {
      if Panicked? || closed then Panicked else this.(closed := true)
    }

    /** A receive with nothing queued leaves the channel alone: it blocks, or sees the close. */
    function Receive(): Chan {
      if Queue() == [] then this else this.(received := received + 1)
    }
  }

  /** The chunk a receive would take. */
  function Next(ch: Chan): Option<seq<byte>> {
    if ch.Queue() == [] then None else Some(ch.Queue()[0])
  }

  /** A receive would report the channel closed: nothing queued and nothing to come. */
  predicate Ended(ch: Chan) {
    ch.Queue() == [] && ch.Chan? && ch.closed
  }

  const EMPTY_CHAN: Chan := Chan([], 0, false)

  // ---- State --------------------------------------------------------------------

  /** One subscription: its replay, how many chunks had been published when it was made, its
      channel, and the closed flag the console keeps beside the channel. */
  datatype Sub = Sub(replay: seq<byte>, at: nat, ch: Chan, closed: bool)

  datatype Console = Console(
    cap: nat,                    // ring capacity
    qcap: nat,                   // queue capacity of a subscription
    chunks: seq<seq<byte>>,      // every chunk ever published
    base: nat,                   // how many of them preceded the last Reset
    all: map<nat, Sub>,          // every subscription ever made, by id
    subs: set<nat>,              // the ids currently registered
    nextID: nat,
    closed: bool,
    closeErr: Option<Error>,
    done: Chan)

  /** Every byte ever published. */
  function Stream(c: Console): seq<byte> {
    Flatten(c.chunks)
  }

  /** The scrollback: the last cap bytes published since the last Reset. */
  function Ring(c: Console): seq<byte> {
    if c.base <= |c.chunks| then Last(Flatten(c.chunks[c.base..]), c.cap) else []
  }

  function TotalWritten(c: Console): nat {
    if c.base <= |c.chunks| then |Flatten(c.chunks[c.base..])| else 0
  }

  function Snapshot(c: Console, maxBytes: int): seq<byte> {
    if maxBytes > 0 then Last(Ring(c), maxBytes) else Ring(c)
  }

  function InitConsole(cap: nat, qcap: nat): Console {
    Console(cap, qcap, [], 0, map[], {}, 0, false, None, EMPTY_CHAN)
  }

  // ---- Operations ---------------------------------------------------------------

  predicate HasRoom(ch: Chan, qcap: nat) {
    |ch.Queue()| < qcap
  }

  /** A channel after a non-blocking send, or the close that detaches a reader whose queue is full. */
  function Offered(ch: Chan, p: seq<byte>, qcap: nat): Chan {
    if HasRoom(ch, qcap) then ch.Send(p) else ch.Close()
  }

  function Offer(s: Sub, p: seq<byte>, qcap: nat): Sub {
    if s.closed then s else s.(closed := !HasRoom(s.ch, qcap), ch := Offered(s.ch, p, qcap))
  }

  predicate Detaches(s: Sub, qcap: nat) {
    !s.closed && !HasRoom(s.ch, qcap)
  }

  function Publish(c: Console, p: seq<byte>): Console {
    c.(chunks := c.chunks + [p],
       all := map i | i in c.all :: if i in c.subs then Offer(c.all[i], p, c.qcap) else c.all[i],
       subs := set i | i in c.subs && !(i in c.all && Detaches(c.all[i], c.qcap)))
  }

  function CloseSub(s: Sub): Sub {
    if s.closed then s else s.(closed := true, ch := s.ch.Close())
  }

  function CloseWithErr(c: Console, err: Error): Console {
    if c.closed then c
    else
      c.(closed := true,
         closeErr := Some(if err == Eof then ErrClosed else err),
         all := map i | i in c.all :: if i in c.subs then CloseSub(c.all[i]) else c.all[i],
         subs := {},
         done := c.done.Close())
  }

  function ReplayOf(c: Console, replayBytes: int): seq<byte> {
    if replayBytes > 0 then Snapshot(c, replayBytes) else []
  }

  /** A channel that has been given its replay, if there is any. */
  function NewChan(replay: seq<byte>): Chan {
    if replay != [] then EMPTY_CHAN.Send(replay) else EMPTY_CHAN
  }

  function NewSub(c: Console, replayBytes: int): Sub {
    var ch := NewChan(ReplayOf(c, replayBytes));
    Sub(ReplayOf(c, replayBytes), |c.chunks|, if c.closed then ch.Close() else ch, c.closed)
  }

  function Subscribe(c: Console, replayBytes: int): Console {
    c.(all := c.all[c.nextID := NewSub(c, replayBytes)],
       subs := if c.closed then c.subs else c.subs + {c.nextID},
       nextID := c.nextID + 1)
  }

  function Unsubscribe(c: Console, id: nat): Console {
    if id in c.subs && id in c.all && !c.all[id].closed
    then c.(all := c.all[id := CloseSub(c.all[id])], subs := c.subs - {id})
    else c
  }

  function Receive(c: Console, id: nat): Console {
    if id in c.all then c.(all := c.all[id := c.all[id].(ch := c.all[id].ch.Receive())]) else c
  }

  function Reset(c: Console): Console {
    c.(base := |c.chunks|)
  }

  datatype Event =
    | EvPublish(p: seq<byte>)
    | EvClose(err: Error)
    | EvSubscribe(replayBytes: int)
    | EvUnsubscribe(id: nat)
    | EvReceive(id: nat)
    | EvReset

  function Step(c: Console, e: Event): Console {
    match e
    case EvPublish(p) => Publish(c, p)
    case EvClose(err) => CloseWithErr(c, err)
    case EvSubscribe(n) => Subscribe(c, n)
    case EvUnsubscribe(id) => Unsubscribe(c, id)
    case EvReceive(id) => Receive(c, id)
    case EvReset => Reset(c)
  }

  function Run(c: Console, es: seq<Event>): Console
    decreases es
  {
    if es == [] then c else Run(Step(c, es[0]), es[1..])
  }

  // ---- Invariant ----------------------------------------------------------------

  function Head(replay: seq<byte>): seq<seq<byte>> {
    if replay == [] then [] else [replay]
  }

  /** Where in the stream a subscription begins: its replay reaches back from the subscribe. */
  function Begins(chunks: seq<seq<byte>>, s: Sub): int
    requires s.at <= |chunks|
  {
    |Flatten(chunks[..s.at])| - |s.replay|
  }

  function From(c: Console, s: Sub): int
    requires s.at <= |c.chunks|
  {
    Begins(c.chunks, s)
  }

  /** What has been sent to a subscriber is its replay and then every chunk published since, none
      missing: all of them while it is registered, the first few once it is not. */
  ghost predicate SubOK(c: Console, i: nat, s: Sub) {
    && s.ch.Chan? && s.ch.received <= |s.ch.sent| && s.ch.closed == s.closed
    && (i in c.subs <==> !s.closed)
    && Placed(c.chunks, s.replay, s.at)
    && Gapless(c.chunks, s.replay, s.at, s.ch.sent)
    && (!s.closed ==> Complete(c.chunks, s.replay, s.at, s.ch.sent))
  }

  /** The replay is the end of what had been published when the subscription was made. */
  ghost predicate Placed(chunks: seq<seq<byte>>, replay: seq<byte>, at: nat) {
    at <= |chunks| && IsSuffix(replay, Flatten(chunks[..at]))
  }

  ghost predicate Gapless(chunks: seq<seq<byte>>, replay: seq<byte>, at: nat, sent: seq<seq<byte>>)
    requires at <= |chunks|
  {
    var h := |Head(replay)|;
    && h <= |sent| <= h + |chunks| - at
    && sent == Head(replay) + chunks[at..at + |sent| - h]
  }

  predicate Complete(chunks: seq<seq<byte>>, replay: seq<byte>, at: nat, sent: seq<seq<byte>>) {
    |sent| == |Head(replay)| + |chunks| - at
  }

  ghost predicate Inv(c: Console) {
    && c.cap >= 1 && c.qcap >= 1 && c.base <= |c.chunks|
    && c.subs <= c.all.Keys
    && (forall i :: i in c.all ==> i < c.nextID)
    && (forall i :: i in c.all ==> SubOK(c, i, c.all[i]))
    && (c.closed <==> c.closeErr.Some?) && c.done.Chan? && (c.closed <==> c.done.closed)
    && (c.closed ==> c.subs == {})
    && c.closeErr != Some(Eof)
  }

  lemma InitInv(cap: nat, qcap: nat)
    requires cap >= 1 && qcap >= 1
    ensures Inv(InitConsole(cap, qcap))
  {
  }

  /** One more chunk leaves a subscription where it was; a live one must be sent the chunk. */
  lemma Grows(chunks: seq<seq<byte>>, p: seq<byte>, replay: seq<byte>, at: nat, sent: seq<seq<byte>>)
    requires Placed(chunks, replay, at) && Gapless(chunks, replay, at, sent)
    ensures Placed(chunks + [p], replay, at) && Gapless(chunks + [p], replay, at, sent)
    ensures Complete(chunks, replay, at, sent) ==> Gapless(chunks + [p], replay, at, sent + [p])
  {
    var more, k := chunks + [p], at + |sent| - |Head(replay)|;
    assert more[..at] == chunks[..at];
    assert more[at..k] == chunks[at..k];
    if Complete(chunks, replay, at, sent) {
      assert more[at..] == chunks[at..] + [p];
    }
  }

  lemma SubGrows(c: Console, p: seq<byte>, i: nat)
    requires Inv(c) && i in c.all
    ensures SubOK(Publish(c, p), i, Publish(c, p).all[i])
  {
    var s := c.all[i];
    assert SubOK(c, i, s);
    Grows(c.chunks, p, s.replay, s.at, s.ch.sent);
  }

  lemma PublishInv(c: Console, p: seq<byte>)
    requires Inv(c)
    ensures Inv(Publish(c, p))
  {
    forall i | i in c.all
      ensures SubOK(Publish(c, p), i, Publish(c, p).all[i])
    {
      SubGrows(c, p, i);
    }
  }

  lemma CloseInv(c: Console, err: Error)
    requires Inv(c)
    ensures Inv(CloseWithErr(c, err))
  {
    var c' := CloseWithErr(c, err);
    forall i | i in c'.all
      ensures SubOK(c', i, c'.all[i])
    {
      assert SubOK(c, i, c.all[i]);
    }
  }

  /** What was published since some chunk is a tail of everything published. */
  lemma SinceIsTail(chunks: seq<seq<byte>>, k: nat)
    requires k <= |chunks|
    ensures IsSuffix(Flatten(chunks[k..]), Flatten(chunks))
  {
    FlattenSplit(chunks, k);
    AppendedIsSuffix(Flatten(chunks[..k]), Flatten(chunks[k..]));
  }

  lemma LastOfTail(r: seq<byte>, s: seq<byte>, n: int)
    requires IsSuffix(r, s)
    ensures IsSuffix(Last(r, n), s)
  {
    LastIsSuffix(r, n);
    SuffixTransitive(Last(r, n), r, s);
  }

  lemma RingIsTail(c: Console)
    requires c.base <= |c.chunks|
    ensures IsSuffix(Ring(c), Stream(c))
  {
    SinceIsTail(c.chunks, c.base);
    LastOfTail(Flatten(c.chunks[c.base..]), Stream(c), c.cap);
  }

  /** A snapshot is a tail of everything published. */
  lemma SnapshotIsTail(c: Console, n: int)
    requires c.base <= |c.chunks|
    ensures IsSuffix(Snapshot(c, n), Stream(c)) && IsSuffix(Ring(c), Stream(c))
  {
    RingIsTail(c);
    LastOfTail(Ring(c), Stream(c), n);
  }

  lemma NewGapless(chunks: seq<seq<byte>>, replay: seq<byte>)
    requires IsSuffix(replay, Flatten(chunks))
    ensures Placed(chunks, replay, |chunks|) && Gapless(chunks, replay, |chunks|, Head(replay))
    ensures Complete(chunks, replay, |chunks|, Head(replay))
  {
    assert chunks[..|chunks|] == chunks;
  }

  lemma ReplayIsTail(c: Console, n: int)
    requires c.base <= |c.chunks|
    ensures IsSuffix(ReplayOf(c, n), Stream(c))
  {
    SnapshotIsTail(c, n);
  }

  /** A new subscription starts out with its replay, whether the console is open or not. */
  lemma NewSubOK(c: Console, n: int)
    requires Inv(c)
    ensures SubOK(Subscribe(c, n), c.nextID, NewSub(c, n))
  {
    ReplayIsTail(c, n);
    NewGapless(c.chunks, ReplayOf(c, n));
    assert NewChan(ReplayOf(c, n)).sent == Head(ReplayOf(c, n));
  }

  lemma SubscribeInv(c: Console, n: int)
    requires Inv(c)
    ensures Inv(Subscribe(c, n))
  {
    var c' := Subscribe(c, n);
    NewSubOK(c, n);
    forall i | i in c'.all
      ensures SubOK(c', i, c'.all[i])
    {
      if i != c.nextID {
        assert SubOK(c, i, c.all[i]);
      }
    }
  }

  lemma UnsubscribeInv(c: Console, id: nat)
    requires Inv(c)
    ensures Inv(Unsubscribe(c, id))
  {
    var c' := Unsubscribe(c, id);
    forall i | i in c'.all
      ensures SubOK(c', i, c'.all[i])
    {
      assert SubOK(c, i, c.all[i]);
    }
  }

  lemma ReceiveInv(c: Console, id: nat)
    requires Inv(c)
    ensures Inv(Receive(c, id))
  {
    var c' := Receive(c, id);
    forall i | i in c'.all
      ensures SubOK(c', i, c'.all[i])
    {
      assert SubOK(c, i, c.all[i]);
    }
  }

  lemma ResetInv(c: Console)
    requires Inv(c)
    ensures Inv(Reset(c))
  {
    forall i | i in c.all
      ensures SubOK(Reset(c), i, c.all[i])
    {
      assert SubOK(c, i, c.all[i]);
    }
  }

  /** The channels of all subscriptions, by id. */
  function Chans(c: Console): map<nat, Chan> {
    map i | i in c.all :: c.all[i].ch
  }

  /** No registered subscriber is marked closed. */
  ghost predicate RegisteredOpen(c: Console) {
    forall i :: i in c.subs ==> i in c.all && !c.all[i].closed
  }

  lemma CloseChans(c: Console, err: Error)
    requires RegisteredOpen(c) && !c.closed
    ensures var was, want := Chans(c), Chans(CloseWithErr(c, err));
            && want.Keys == was.Keys
            && forall i :: i in was ==> want[i] == if i in c.subs then was[i].Close() else was[i]
  {
  }

  lemma SubscribeChans(c: Console, n: int)
    ensures Chans(Subscribe(c, n)) == Chans(c)[c.nextID := NewSub(c, n).ch]
  {
  }

  lemma UnsubscribeChans(c: Console, id: nat)
    requires RegisteredOpen(c)
    ensures Chans(Unsubscribe(c, id)) == if id in c.subs then Chans(c)[id := Chans(c)[id].Close()] else Chans(c)
    ensures Unsubscribe(c, id).subs == c.subs - {id}
  {
  }

  lemma ReceiveChans(c: Console, id: nat)
    requires id in c.all
    ensures Chans(Receive(c, id)) == Chans(c)[id := Chans(c)[id].Receive()]
  {
  }

  /** What publishing does to the channels and to the set of registered readers. */
  lemma PublishChans(c: Console, p: seq<byte>)
    requires RegisteredOpen(c)
    ensures var was, want := Chans(c), Chans(Publish(c, p));
            && want.Keys == was.Keys && Publish(c, p).subs <= c.subs <= was.Keys
            && (forall i :: i in c.subs ==>
                  want[i] == Offered(was[i], p, c.qcap) && (i in Publish(c, p).subs <==> HasRoom(was[i], c.qcap)))
            && (forall i :: i in was && i !in c.subs ==> want[i] == was[i])
  {
  }

  lemma StepInv(c: Console, e: Event)
    requires Inv(c)
    ensures Inv(Step(c, e))
  {
    match e
    case EvPublish(p) => PublishInv(c, p);
    case EvClose(err) => CloseInv(c, err);
    case EvSubscribe(n) => SubscribeInv(c, n);
    case EvUnsubscribe(id) => UnsubscribeInv(c, id);
    case EvReceive(id) => ReceiveInv(c, id);
    case EvReset => ResetInv(c);
  }

  /** Every reachable state satisfies the invariant, whatever the interleaving. */
  lemma {:induction false} RunInv(c: Console, es: seq<Event>)
    requires Inv(c)
    ensures Inv(Run(c, es))
    decreases es
  {
    if es != [] {
      StepInv(c, es[0]);
      RunInv(Step(c, es[0]), es[1..]);
    }
  }

  // ---- What a subscriber gets ---------------------------------------------------

  function Consumed(s: Sub): seq<byte> {
    if s.ch.Chan? && s.ch.received <= |s.ch.sent| then Flatten(s.ch.sent[..s.ch.received]) else []
  }

  function Queued(s: Sub): seq<byte> {
    Flatten(s.ch.Queue())
  }

  /** How many published chunks a subscription covers, counting those before it was made. */
  function Upto(s: Sub): int {
    if s.ch.Chan? then s.at + |s.ch.sent| - |Head(s.replay)| else 0
  }

  lemma FlattenHead(replay: seq<byte>)
    ensures Flatten(Head(replay)) == replay
  {
    if replay != [] {
      FlattenOne(replay);
    }
  }

  lemma GaplessBytes(chunks: seq<seq<byte>>, replay: seq<byte>, at: nat, sent: seq<seq<byte>>, r: nat)
    requires at <= |chunks| && Gapless(chunks, replay, at, sent) && r <= |sent|
    ensures Flatten(sent[..r]) + Flatten(sent[r..])
            == replay + Flatten(chunks[at..at + |sent| - |Head(replay)|])
  {
    FlattenSplit(sent, r);
    FlattenHead(replay);
    FlattenAppend(Head(replay), chunks[at..at + |sent| - |Head(replay)|]);
  }

  /** What the invariant says of one subscription's bytes. */
  ghost predicate Sound(chunks: seq<seq<byte>>, s: Sub) {
    && s.ch.Chan? && s.ch.received <= |s.ch.sent|
    && Placed(chunks, s.replay, s.at) && Gapless(chunks, s.replay, s.at, s.ch.sent)
  }

  lemma SubIsSound(c: Console, i: nat)
    requires Inv(c) && i in c.all
    ensures Sound(c.chunks, c.all[i]) && (i in c.subs ==> Upto(c.all[i]) == |c.chunks|)
  {
    assert SubOK(c, i, c.all[i]);
  }

  /** The stream bytes that a subscription covers. */
  function Covered(chunks: seq<seq<byte>>, s: Sub): seq<byte>
    requires s.at <= Upto(s) <= |chunks|
  {
    s.replay + Flatten(chunks[s.at..Upto(s)])
  }

  /** Received and queued bytes are the replay followed by the chunks the subscription covers. */
  lemma SentBytes(chunks: seq<seq<byte>>, s: Sub)
    requires Sound(chunks, s)
    ensures s.at <= Upto(s) <= |chunks| && Consumed(s) + Queued(s) == Covered(chunks, s)
  {
    GaplessBytes(chunks, s.replay, s.at, s.ch.sent, s.ch.received);
  }

  /** Cutting a text before a suffix of one of its beginnings. */
  lemma Pieces(whole: seq<byte>, upto: seq<byte>, pre: seq<byte>, replay: seq<byte>, mid: seq<byte>, rest: seq<byte>)
    requires IsSuffix(replay, pre) && upto == pre + mid && whole == upto + rest
    ensures var f := |pre| - |replay|;
            && f <= |whole| && upto == whole[..f] + (replay + mid) && whole[f..] == replay + mid + rest
  {
    var f := |pre| - |replay|;
    assert pre == pre[..f] + replay;
    assert whole[..f] == pre[..f];
    assert upto == pre[..f] + (replay + mid);
  }

  /** The stream before a subscription, up to where it has got, and beyond. */
  lemma StreamAround(chunks: seq<seq<byte>>, at: nat, k: nat, replay: seq<byte>)
    requires at <= k <= |chunks| && Placed(chunks, replay, at)
    ensures var f := |Flatten(chunks[..at])| - |replay|;
            var covered := replay + Flatten(chunks[at..k]);
            && 0 <= f <= |Flatten(chunks)|
            && Flatten(chunks[..k]) == Flatten(chunks)[..f] + covered
            && Flatten(chunks)[f..] == covered + Flatten(chunks[k..])
  {
    assert chunks[..k][..at] == chunks[..at] && chunks[..k][at..] == chunks[at..k];
    FlattenSplit(chunks[..k], at);
    FlattenSplit(chunks, k);
    Pieces(Flatten(chunks), Flatten(chunks[..k]), Flatten(chunks[..at]), replay, Flatten(chunks[at..k]),
           Flatten(chunks[k..]));
  }

  /**
   At any moment of any run, what a subscriber has consumed and what is queued for it are together
   one contiguous stretch of the stream that begins with its replay. The stretch ends where the
   stream ends while the subscriber is registered, and on a chunk boundary once it is not.
   */
  lemma ContiguousSuffix(c: Console, i: nat)
    requires Inv(c) && i in c.all
    ensures var s := c.all[i];
            && s.at <= Upto(s) <= |c.chunks| && 0 <= From(c, s) <= |Stream(c)|
            && (i in c.subs ==> Consumed(s) + Queued(s) == Stream(c)[From(c, s)..])
            && Consumed(s) + Queued(s) <= Stream(c)[From(c, s)..]
            && Stream(c)[..From(c, s)] + (Consumed(s) + Queued(s)) == Flatten(c.chunks[..Upto(s)])
  {
    SubIsSound(c, i);
    SoundStretch(c.chunks, c.all[i]);
  }

  lemma StartsTail(covered: seq<byte>, rest: seq<byte>)
    ensures covered <= covered + rest && (rest == [] ==> covered + rest == covered)
  {
  }

  lemma SoundStretch(chunks: seq<seq<byte>>, s: Sub)
    requires Sound(chunks, s)
    ensures s.at <= Upto(s) <= |chunks| && 0 <= Begins(chunks, s) <= |Flatten(chunks)|
    ensures var tail := Flatten(chunks)[Begins(chunks, s)..];
            && Consumed(s) + Queued(s) <= tail
            && (Upto(s) == |chunks| ==> Consumed(s) + Queued(s) == tail)
    ensures Flatten(chunks)[..Begins(chunks, s)] + (Consumed(s) + Queued(s)) == Flatten(chunks[..Upto(s)])
  {
    SentBytes(chunks, s);
    StreamAround(chunks, s.at, Upto(s), s.replay);
    StartsTail(Covered(chunks, s), Flatten(chunks[Upto(s)..]));
  }

  /** What has been received is the stretch of the stream that begins where the subscription does. */
  lemma ConsumedStretch(c: Console, i: nat)
    requires Inv(c) && i in c.all
    ensures var s := c.all[i];
            && s.at <= |c.chunks| && 0 <= From(c, s) && From(c, s) + |Consumed(s)| <= |Stream(c)|
            && Consumed(s) == Stream(c)[From(c, s)..From(c, s) + |Consumed(s)|]
  {
    SubIsSound(c, i);
    SoundConsumed(c.chunks, c.all[i]);
  }

  lemma SoundConsumed(chunks: seq<seq<byte>>, s: Sub)
    requires Sound(chunks, s)
    ensures var b := Begins(chunks, s);
            && 0 <= b && b + |Consumed(s)| <= |Flatten(chunks)|
            && Consumed(s) == Flatten(chunks)[b..b + |Consumed(s)|]
  {
    SoundStretch(chunks, s);
    PrefixIsStretch(Flatten(chunks), Begins(chunks, s), Consumed(s), Queued(s));
  }

  /** The same for every state of every run from the start. */
  lemma EverySubscriberGapless(cap: nat, qcap: nat, es: seq<Event>, i: nat)
    requires cap >= 1 && qcap >= 1
    requires i in Run(InitConsole(cap, qcap), es).all
    ensures var c := Run(InitConsole(cap, qcap), es);
            var s := c.all[i];
            && Inv(c) && 0 <= From(c, s) <= |Stream(c)|
            && Consumed(s) + Queued(s) <= Drop(Stream(c), From(c, s))
            && (i in c.subs ==> Consumed(s) + Queued(s) == Drop(Stream(c), From(c, s)))
  {
    InitInv(cap, qcap);
    RunInv(InitConsole(cap, qcap), es);
    ContiguousSuffix(Run(InitConsole(cap, qcap), es), i);
  }

  // ---- One subscriber's slowness is its own ---------------------------------------

  /** Events that can matter to subscription i: everything but what other subscribers do to theirs. */
  predicate Visible(i: nat, e: Event) {
    match e
    case EvReceive(j) => j == i
    case EvUnsubscribe(j) => j == i
    case _ => true
  }

  function Project(i: nat, es: seq<Event>): seq<Event> {
    if es == [] then [] else (if Visible(i, es[0]) then [es[0]] else []) + Project(i, es[1..])
  }

  /** Two consoles that subscription i cannot tell apart, now or later. */
  ghost predicate Agree(c: Console, d: Console, i: nat) {
    && c.cap == d.cap && c.qcap == d.qcap && c.chunks == d.chunks && c.base == d.base
    && c.nextID == d.nextID && c.closed == d.closed
    && (i in c.subs <==> i in d.subs)
    && (i in c.all <==> i in d.all)
    && (i in c.all ==> c.all[i] == d.all[i])
  }

  lemma AgreeStep(c: Console, d: Console, i: nat, e: Event)
    requires Agree(c, d, i)
    ensures Visible(i, e) ==> Agree(Step(c, e), Step(d, e), i)
    ensures !Visible(i, e) ==> Agree(Step(c, e), d, i)
  {
  }

  lemma {:induction false} AgreeRun(c: Console, d: Console, i: nat, es: seq<Event>)
    requires Agree(c, d, i)
    ensures Agree(Run(c, es), Run(d, Project(i, es)), i)
    decreases es
  {
    if es != [] {
      AgreeStep(c, d, i, es[0]);
      if Visible(i, es[0]) {
        assert Project(i, es)[1..] == Project(i, es[1..]);
        AgreeRun(Step(c, es[0]), Step(d, es[0]), i, es[1..]);
      } else {
        assert Project(i, es) == Project(i, es[1..]);
        AgreeRun(Step(c, es[0]), d, i, es[1..]);
      }
    }
  }

  /** However other subscribers receive, lag, are detached or leave, subscription i gets the same. */
  lemma SlownessIsPrivate(c: Console, i: nat, es: seq<Event>, fs: seq<Event>)
    requires Project(i, es) == Project(i, fs)
    ensures Agree(Run(c, es), Run(c, fs), i)
  {
    AgreeRun(c, c, i, es);
    AgreeRun(c, c, i, fs);
  }

  // ---- What one event does to a subscription --------------------------------------

  /** How many chunks have been sent and not yet received. */
  function Pending(s: Sub): int {
    if s.ch.Chan? then |s.ch.sent| - s.ch.received else 0
  }

  /** The channel of subscription i has these chunks on it, as many received as before, and is open or closed. */
  predicate Becomes(c: Console, d: Console, i: nat, sent: seq<seq<byte>>, open: bool) {
    && i in c.all && i in d.all && c.all[i].ch.Chan?
    && d.all[i] == c.all[i].(ch := Chan(sent, c.all[i].ch.received, !open), closed := !open)
    && (i in d.subs <==> open)
  }

  /**
   A published chunk goes to every registered reader with fewer chunks pending than its queue holds, which stays
   registered; one with a full queue is sent nothing, closed and forgotten; nobody else is touched.
   */
  lemma PublishExactly(c: Console, p: seq<byte>, i: nat)
    requires Inv(c) && i in c.all
    ensures var s, d := c.all[i], Publish(c, p);
            && s.ch.Chan? && d.chunks == c.chunks + [p]
            && (i in c.subs && Pending(s) < c.qcap ==> Becomes(c, d, i, s.ch.sent + [p], true))
            && (i in c.subs && Pending(s) >= c.qcap ==> Becomes(c, d, i, s.ch.sent, false))
            && (i !in c.subs ==> i !in d.subs && i in d.all && d.all[i] == s)
  {
    RecordFacts(c, i);
    PublishAt(c, p, i);
    if i in c.subs {
      OfferExactly(c.all[i], p, c.qcap);
    }
  }

  lemma RecordFacts(c: Console, i: nat)
    requires Inv(c) && i in c.all
    ensures var s := c.all[i];
            && s.ch.Chan? && s.ch.received <= |s.ch.sent| && s.ch.closed == s.closed && (i in c.subs <==> !s.closed)
  {
    assert SubOK(c, i, c.all[i]);
  }

  lemma PublishAt(c: Console, p: seq<byte>, i: nat)
    requires i in c.all
    ensures var d := Publish(c, p);
            && d.chunks == c.chunks + [p] && i in d.all
            && d.all[i] == (if i in c.subs then Offer(c.all[i], p, c.qcap) else c.all[i])
            && (i in d.subs <==> i in c.subs && !Detaches(c.all[i], c.qcap))
  {
  }

  lemma OfferExactly(s: Sub, p: seq<byte>, qcap: nat)
    requires s.ch.Chan? && s.ch.received <= |s.ch.sent| && !s.closed && !s.ch.closed
    ensures Pending(s) < qcap ==>
              Offer(s, p, qcap) == s.(ch := Chan(s.ch.sent + [p], s.ch.received, false)) && !Detaches(s, qcap)
    ensures Pending(s) >= qcap ==>
              Offer(s, p, qcap) == s.(ch := Chan(s.ch.sent, s.ch.received, true), closed := true) && Detaches(s, qcap)
  {
  }

  /** Closing the console closes every registered reader's channel, whatever is pending on it, and forgets them all. */
  lemma CloseExactly(c: Console, err: Error, i: nat)
    requires Inv(c) && i in c.all
    ensures var s, d := c.all[i], CloseWithErr(c, err);
            && d.closed && d.subs == {} && d.chunks == c.chunks
            && (i in c.subs ==> Becomes(c, d, i, s.ch.sent, false))
            && (i !in c.subs ==> i in d.all && d.all[i] == s)
  {
    assert SubOK(c, i, c.all[i]);
  }

  /** Closing a subscription closes its channel and forgets it if it is registered; nobody else is touched. */
  lemma UnsubscribeExactly(c: Console, id: nat, i: nat)
    requires Inv(c) && i in c.all
    ensures var s, d := c.all[i], Unsubscribe(c, id);
            && id !in d.subs && d.chunks == c.chunks
            && (i == id && i in c.subs ==> Becomes(c, d, i, s.ch.sent, false))
            && (i != id || i !in c.subs ==> i in d.all && d.all[i] == s && (i in d.subs <==> i in c.subs))
  {
    assert SubOK(c, i, c.all[i]);
  }

  /** What a subscription made now is given to begin with: that much of the end of the scrollback, in one chunk. */
  lemma SubscribeExactly(c: Console, n: int, i: nat)
    requires Inv(c)
    ensures var d := Subscribe(c, n);
            && c.nextID !in c.all && c.nextID in d.all && d.chunks == c.chunks
            && (c.nextID in d.subs <==> !c.closed)
            && (n <= 0 || Ring(c) == [] ==> d.all[c.nextID].ch == Chan([], 0, c.closed))
            && (n > 0 && Ring(c) != [] ==>
                  d.all[c.nextID].ch == Chan([Ring(c)[Max(0, |Ring(c)| - n)..]], 0, c.closed))
            && (i in c.all ==> i in d.all && d.all[i] == c.all[i] && (i in d.subs <==> i in c.subs))
  {
    if n > 0 && Ring(c) != [] {
      var last := Last(Ring(c), n);
      assert last == Ring(c)[Max(0, |Ring(c)| - n)..];
      assert EMPTY_CHAN.Send(last).sent == [] + [last] == [last];
    }
  }

  /** The error that the first close leaves behind; the end of the stream counts as closed. */
  function FirstError(es: seq<Event>): Option<Error>
    decreases |es|
  {
    if es == [] then None
    else if es[0].EvClose? then Some(if es[0].err.Eof? then ErrClosed else es[0].err)
    else FirstError(es[1..])
  }

  lemma CloseErrStep(c: Console, e: Event)
    ensures (Step(c, e).closed, Step(c, e).closeErr)
            == if e.EvClose? && !c.closed then (true, FirstError([e])) else (c.closed, c.closeErr)
  {
  }

  /** The console is closed once somebody has closed it, and its error is that of whoever came first. */
  lemma {:induction false} FirstCloseWins(c: Console, es: seq<Event>)
    requires c.closed <==> c.closeErr.Some?
    ensures var d := Run(c, es);
            && (d.closed <==> d.closeErr.Some?)
            && d.closeErr == if c.closed then c.closeErr else FirstError(es)
    decreases es
  {
    if es != [] {
      CloseErrStep(c, es[0]);
      FirstCloseWins(Step(c, es[0]), es[1..]);
    }
  }

  // ---- Channel discipline ---------------------------------------------------------

  /** No channel is ever closed twice or sent on after its close, and the three marks of a stopped
      console coincide and leave no subscriber registered. */
  lemma ChannelDiscipline(cap: nat, qcap: nat, es: seq<Event>)
    requires cap >= 1 && qcap >= 1
    ensures var c := Run(InitConsole(cap, qcap), es);
            && c.done.Chan? && (forall i :: i in c.all ==> c.all[i].ch.Chan?)
            && (c.closed <==> c.closeErr.Some?) && (c.closed <==> c.done.closed)
            && (c.closed ==> c.subs == {} && forall i :: i in c.all ==> c.all[i].ch.closed)
  {
    InitInv(cap, qcap);
    RunInv(InitConsole(cap, qcap), es);
    var c := Run(InitConsole(cap, qcap), es);
    forall i | i in c.all
      ensures c.all[i].ch.Chan? && (c.closed ==> c.all[i].ch.closed)
    {
      assert SubOK(c, i, c.all[i]);
    }
  }

  lemma DetachedStays(c: Console, i: nat, e: Event)
    requires Inv(c) && i in c.all && i !in c.subs
    ensures var d := Step(c, e);
            i in d.all && i !in d.subs && d.all[i].ch.Chan? && d.all[i].ch.sent == c.all[i].ch.sent
  {
    DetachedFacts(c, i);
    DetachedStep(c, i, e);
  }

  lemma DetachedFacts(c: Console, i: nat)
    requires Inv(c) && i in c.all && i !in c.subs
    ensures i < c.nextID && c.all[i].ch.Chan? && c.all[i].closed
  {
    assert SubOK(c, i, c.all[i]);
  }

  lemma DetachedStep(c: Console, i: nat, e: Event)
    requires i in c.all && i !in c.subs && i < c.nextID && c.all[i].ch.Chan? && c.all[i].closed
    ensures var d := Step(c, e);
            i in d.all && i !in d.subs && d.all[i].ch.Chan? && d.all[i].ch.sent == c.all[i].ch.sent
  {
  }

  /** A detached subscription is final: nothing is added to it and it is never registered again. */
  lemma {:induction false} DetachedIsFinal(c: Console, i: nat, es: seq<Event>)
    requires Inv(c) && i in c.all && i !in c.subs
    ensures var d := Run(c, es);
            Inv(d) && i in d.all && i !in d.subs && d.all[i].ch.Chan? && d.all[i].ch.sent == c.all[i].ch.sent
    decreases es
  {
    if es == [] {
      assert SubOK(c, i, c.all[i]);
    } else {
      StepInv(c, es[0]);
      DetachedStays(c, i, es[0]);
      DetachedIsFinal(Step(c, es[0]), i, es[1..]);
    }
  }
}
