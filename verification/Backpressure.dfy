/** Backpressure: what the wire carries of what the outbound queue took. */
module Backpressure {
  import opened Wrappers
  import opened Gateway

  function WithoutPings(frames: seq<Frame>): seq<Frame> {
    if frames == [] then []
    else
      var front, last := frames[..|frames| - 1], frames[|frames| - 1];
      WithoutPings(front) + (if last.Ping? then [] else [last])
  }

  /** The bus frames among these. */
  function BusFrames(frames: seq<Frame>): seq<Frame> {
    if frames == [] then []
    else
      var front, last := frames[..|frames| - 1], frames[|frames| - 1];
      BusFrames(front) + (if last.Live? || last.Replayed? then [last] else [])
  }

  /** How many accepted frames the writer has taken. */
  function Taken(c: Conn): int {
    |c.accepted| - |c.outbound|
  }

  ghost predicate QueueInv(c: Conn) {
    && |c.outbound| <= SEND_QUEUE
    && 0 <= Taken(c)
    && c.outbound == c.accepted[Taken(c)..]
    && Ping !in c.accepted
    && (c.refused.Some? ==>
          && c.closeCode.Some?
          && c.refused.value <= |c.accepted|
          && BusFrames(c.accepted[..c.refused.value]) <= c.offered)
    && (c.refused.None? ==> BusFrames(c.accepted) == c.offered)
  }

  ghost predicate WireInv(g: Gate) {
    var c := g.conn;
    && QueueInv(c)
    && match g.writer
       case Waiting =>
         && WithoutPings(g.wire) == c.accepted[..Taken(c)]
         && (c.refused.Some? ==> Taken(c) + SEND_QUEUE <= c.refused.value)
       case Sending(f) =>
         && WithoutPings(g.wire + [f]) == c.accepted[..Taken(c)]
         && (c.refused.Some? ==> Taken(c) + SEND_QUEUE <= c.refused.value + 1)
       case WriterDone =>
         && WithoutPings(g.wire) <= c.accepted[..Taken(c)]
         && (c.refused.Some? ==> Taken(c) + SEND_QUEUE <= c.refused.value + 1)
  }

  lemma WithoutPingsSnoc(frames: seq<Frame>, f: Frame)
    ensures WithoutPings(frames + [f]) == WithoutPings(frames) + if f.Ping? then [] else [f]
  {
    assert (frames + [f])[..|frames|] == frames;
  }

  lemma BusFramesSnoc(frames: seq<Frame>, f: Frame)
    ensures BusFrames(frames + [f]) == BusFrames(frames) + if f.Live? || f.Replayed? then [f] else []
  {
    assert (frames + [f])[..|frames|] == frames;
  }

  /** Everything a task does to the connection, short of taking a frame off the queue,
      leaves the taken part alone and only adds to what follows it. */
  ghost predicate Grows(c: Conn, c': Conn) {
    && QueueInv(c')
    && Taken(c') == Taken(c)
    && c.accepted <= c'.accepted
    && (c.closeCode.Some? ==> c'.closeCode == c.closeCode)
    && (c.refused.Some? ==> c'.refused == c.refused)
    && (c.refused.None? && c'.refused.Some? ==> c'.refused.value == Taken(c) + SEND_QUEUE)
  }

  lemma OfferGrows(c: Conn, f: Frame)
    requires QueueInv(c) && !f.Ping? && !f.Live? && !f.Replayed?
    ensures Grows(c, Offer(c, f))
  {
    BusFramesSnoc(c.accepted, f);
    assert (c.accepted + [f])[Taken(c)..] == c.outbound + [f];
    if c.refused.Some? {
      assert (c.accepted + [f])[..c.refused.value] == c.accepted[..c.refused.value];
    }
  }

  lemma OfferBusGrows(c: Conn, f: Frame)
    requires QueueInv(c) && (f.Live? || f.Replayed?)
    ensures Grows(c, OfferBus(c, f))
  {
    BusFramesSnoc(c.accepted, f);
    assert c.accepted[..|c.accepted|] == c.accepted;
    assert (c.accepted + [f])[Taken(c)..] == c.outbound + [f];
    if c.refused.Some? {
      assert (c.accepted + [f])[..c.refused.value] == c.accepted[..c.refused.value];
    }
  }

  lemma {:induction false} OfferReplayGrows(c: Conn, channel: string, missed: seq<nat>)
    requires QueueInv(c)
    ensures Grows(c, OfferReplay(c, channel, missed))
    decreases |missed|
  {
    if missed != [] {
      OfferBusGrows(c, Replayed(channel, missed[0]));
      OfferReplayGrows(OfferBus(c, Replayed(channel, missed[0])), channel, missed[1..]);
    }
  }

  lemma {:induction false} RefusalsGrow(c: Conn, verdicts: seq<Option<string>>)
    requires QueueInv(c)
    ensures Grows(c, Refusals(c, verdicts))
    ensures Refusals(c, verdicts).subscribed == c.subscribed
    ensures Refusals(c, verdicts).commands == c.commands
    decreases |verdicts|
  {
    if verdicts != [] {
      OfferGrows(c, Error("forbidden_channel"));
      RefusalsGrow(if verdicts[0].None? then Offer(c, Error("forbidden_channel")) else c, verdicts[1..]);
    }
  }

  lemma GrowingKeepsWire(g: Gate, g': Gate)
    requires WireInv(g) && Grows(g.conn, g'.conn)
    requires g'.wire == g.wire && g'.writer == g.writer
    ensures WireInv(g')
  {
    assert g'.conn.accepted[..Taken(g.conn)] == g.conn.accepted[..Taken(g.conn)];
  }

  lemma WriterKeepsWire(g: Gate, e: Event, parse: string -> Option<string>)
    requires WireInv(g) && Enabled(g, e, parse)
    requires e.WriterTake? || e.WriterIdle? || e.WriterSent? || e.WriterFails?
    ensures WireInv(Step(g, e, parse))
  {
    var c := g.conn;
    match e
    case WriterTake =>
      var f := c.outbound[0];
      assert f == c.accepted[Taken(c)];
      assert c.accepted[..Taken(c) + 1] == c.accepted[..Taken(c)] + [f];
      WithoutPingsSnoc(g.wire, f);
    case WriterIdle(_) => WithoutPingsSnoc(g.wire, Ping);
    case WriterSent =>
    case WriterFails => WithoutPingsSnoc(g.wire, g.writer.frame);
  }

  lemma PumpGrows(g: Gate, e: Event, parse: string -> Option<string>)
    requires QueueInv(g.conn) && Enabled(g, e, parse)
    ensures Grows(g.conn, StepPump(g, e, parse).conn)
  {
    var c := g.conn;
    match e
    case PumpReplay(answer) =>
      if answer.Refetch? {
        OfferGrows(c, Resync(g.pump.left[0]));
      } else {
        OfferReplayGrows(c, g.pump.left[0], answer.missed);
      }
    case PumpLive(channel, n) => OfferBusGrows(c, Live(channel, n));
    case PumpAck => OfferGrows(c, Subscribed(g.pump.names));
    case PumpUnack => OfferGrows(c, Unsubscribed(g.pump.names));
    case _ =>
  }

  lemma ReaderGrows(g: Gate, e: Event, parse: string -> Option<string>)
    requires QueueInv(g.conn) && Enabled(g, e, parse)
    ensures Grows(g.conn, StepReader(g, e, parse).conn)
  {
    var c := g.conn;
    match e
    case ReaderRefuse(code) => OfferGrows(c, Error(code));
    case ReaderFlood => OfferGrows(c, Error("rate_limited"));
    case ReaderSubscribe(_, _, _) => OfferGrows(c, Error("forbidden_channel"));
    case ReaderVerdicts(verdicts) => RefusalsGrow(c, verdicts);
    case _ =>
  }

  /** Any step adds to what was accepted, and only the first refusal of a bus frame counts: it
      comes when the queue is full. */
  lemma StepGrows(g: Gate, e: Event, parse: string -> Option<string>)
    requires WireInv(g) && Enabled(g, e, parse)
    ensures var c, c' := g.conn, Step(g, e, parse).conn;
      && c.accepted <= c'.accepted
      && (c.refused.Some? ==> c'.refused == c.refused)
      && (c.refused.None? && c'.refused.Some? ==> |c.accepted| <= c'.refused.value <= |c'.accepted|)
  {
    StepKeepsWire(g, e, parse);
    if !(e.WriterTake? || e.WriterIdle? || e.WriterSent? || e.WriterFails?) {
      PumpGrows(g, e, parse);
      ReaderGrows(g, e, parse);
    }
  }

  lemma StepKeepsWire(g: Gate, e: Event, parse: string -> Option<string>)
    requires WireInv(g) && Enabled(g, e, parse)
    ensures WireInv(Step(g, e, parse))
  {
    if e.WriterTake? || e.WriterIdle? || e.WriterSent? || e.WriterFails? {
      WriterKeepsWire(g, e, parse);
    } else {
      PumpGrows(g, e, parse);
      ReaderGrows(g, e, parse);
      GrowingKeepsWire(g, Step(g, e, parse));
    }
  }

  lemma {:induction false} RunKeepsWire(g: Gate, es: seq<Event>, parse: string -> Option<string>)
    requires WireInv(g) && IsRun(g, es, parse)
    ensures WireInv(Final(g, es, parse))
    decreases |es|
  {
    if es != [] {
      StepKeepsWire(g, es[0], parse);
      RunKeepsWire(Step(g, es[0], parse), es[1..], parse);
    }
  }

  lemma OpenWire(implicit: seq<string>)
    ensures WireInv(Open(implicit))
  {
    BusFramesSnoc([], Hello);
    assert [] + [Hello] == [Hello];
  }

  lemma ReachedWire(implicit: seq<string>, es: seq<Event>, parse: string -> Option<string>, g: Gate)
    requires Reaches(implicit, es, parse, g)
    ensures WireInv(g)
  {
    OpenWire(implicit);
    RunKeepsWire(Open(implicit), es, parse);
  }

  lemma {:induction false} BusFramesPrefix(frames: seq<Frame>, k: nat)
    requires k <= |frames|
    ensures BusFrames(frames[..k]) <= BusFrames(frames)
  {
    if k < |frames| {
      BusFramesPrefix(frames[..|frames| - 1], k);
      assert frames[..|frames| - 1][..k] == frames[..k];
    } else {
      assert frames[..k] == frames;
    }
  }

  lemma {:induction false} BusFramesSkipPings(frames: seq<Frame>)
    ensures BusFrames(WithoutPings(frames)) == BusFrames(frames)
  {
    if frames != [] {
      var front, last := frames[..|frames| - 1], frames[|frames| - 1];
      BusFramesSkipPings(front);
      if last.Ping? {
        assert WithoutPings(frames) == WithoutPings(front);
      } else {
        BusFramesSnoc(WithoutPings(front), last);
      }
    }
  }

  /** Backpressure never tears the stream. In every interleaving the wire, pings apart,
      is a beginning of what the queue accepted; and once a bus frame has been refused,
      it is a beginning of what had been accepted before that. */
  lemma WireIsAPrefix(implicit: seq<string>, es: seq<Event>, parse: string -> Option<string>, g: Gate)
    requires Reaches(implicit, es, parse, g)
    ensures WithoutPings(g.wire) <= g.conn.accepted
    ensures g.conn.refused.Some? ==>
        && g.conn.closeCode.Some?
        && g.conn.refused.value <= |g.conn.accepted|
        && WithoutPings(g.wire) <= g.conn.accepted[..g.conn.refused.value]
  {
    ReachedWire(implicit, es, parse, g);
    WireIsWithin(g);
  }

  lemma WireIsWithin(g: Gate)
    requires WireInv(g)
    ensures WithoutPings(g.wire) <= g.conn.accepted
    ensures g.conn.refused.Some? ==> WithoutPings(g.wire) <= g.conn.accepted[..g.conn.refused.value]
  {
    if g.writer.Sending? {
      WithoutPingsSnoc(g.wire, g.writer.frame);
    }
  }

  /** So the bus frames a client receives are a beginning of those its pump took off
      the bus: never a later one without all the earlier ones. */
  lemma BusFramesArriveInOrder(implicit: seq<string>, es: seq<Event>, parse: string -> Option<string>, g: Gate)
    requires Reaches(implicit, es, parse, g)
    ensures BusFrames(g.wire) <= g.conn.offered
  {
    ReachedWire(implicit, es, parse, g);
    WireIsAPrefix(implicit, es, parse, g);
    var c := g.conn;
    var sent := WithoutPings(g.wire);
    var bound := if c.refused.Some? then c.accepted[..c.refused.value] else c.accepted;
    assert sent == bound[..|sent|];
    BusFramesPrefix(bound, |sent|);
    BusFramesSkipPings(g.wire);
  }
}
