/** One WebSocket connection: the pump, the writer and the reader, which share a bounded
    outbound queue, an unbounded command queue and the set of subscribed channels.

    A step is what one task does between two awaits; any enabled step may run next. Being
    cancelled is not modelled: a cancelled task merely takes no further step. */
module Gateway {
  import opened Wrappers
  import Windows

  const SEND_QUEUE: nat := 64
  const MAX_CHANNELS: nat := 20
  const INBOUND_FRAMES: nat := 240
  const INBOUND_WINDOW: real := 10.0

  const CLOSE_TOO_SLOW: nat := 1013
  const CLOSE_POLICY: nat := 1008
  const CLOSE_BUS_DOWN: nat := 1011

  /** `Live` and `Replayed` are the two ways one bus frame reaches the queue. */
  datatype Frame =
    | Hello
    | Ping
    | Live(channel: string, seqNo: nat)
    | Replayed(channel: string, seqNo: nat)
    | Resync(channel: string)
    | Subscribed(names: seq<string>)
    | Unsubscribed(names: seq<string>)
    | Error(code: string)

  datatype Command =
    | Subscribe(names: seq<string>, since: nat)
    | Unsubscribe(names: seq<string>)

  /** What the three tasks share. `accepted` is every frame the queue ever took,
      `offered` every bus frame the pump ever offered it, and `refused` how many frames
      had been accepted when one of those was first turned away. */
  datatype Conn = Conn(subscribed: set<string>, outbound: seq<Frame>, commands: seq<Command>,
                       closeCode: Option<nat>,
                       accepted: seq<Frame>, offered: seq<Frame>, refused: Option<nat>)

  // ---------------------------------------------------------------- shared state, by value

  function Offer(c: Conn, f: Frame): Conn {
    if |c.outbound| < SEND_QUEUE then c.(outbound := c.outbound + [f], accepted := c.accepted + [f]) else c
  }

  function Stop(c: Conn, code: nat): Conn {
    if c.closeCode.None? then c.(closeCode := Some(code)) else c
  }

  /** A bus frame: recorded as offered, and a refusal closes the connection. */
  function OfferBus(c: Conn, f: Frame): Conn {
    var c1 := c.(offered := c.offered + [f]);
    if |c.outbound| < SEND_QUEUE then Offer(c1, f)
    else Stop(if c.refused.None? then c1.(refused := Some(|c.accepted|)) else c1, CLOSE_TOO_SLOW)
  }

  /** The replay loop: it gives up at the first refusal. */
  function OfferReplay(c: Conn, channel: string, missed: seq<nat>): Conn
    decreases |missed|
  {
    if missed == [] then c
    else if |c.outbound| < SEND_QUEUE then
      OfferReplay(OfferBus(c, Replayed(channel, missed[0])), channel, missed[1..])
    else OfferBus(c, Replayed(channel, missed[0]))
  }

  /** What `replay` came back with; a raised exception and an incomplete answer are
      both answered with a resync. */
  datatype Answer = Refetch | Complete(missed: seq<nat>)

  function ReplayInto(c: Conn, channel: string, answer: Answer): Conn {
    match answer
    case Refetch => Offer(c, Resync(channel))
    case Complete(missed) => OfferReplay(c, channel, missed)
  }

  function AsSet(names: seq<string>): set<string> {
    set n | n in names
  }

  function Canonical(parse: string -> Option<string>, name: string): string {
    match parse(name) case Some(c) => c case None => name
  }

  /** The requested channels that are already subscribed. */
  function Held(parse: string -> Option<string>, names: seq<string>, subscribed: set<string>): set<string> {
    set n | n in names && parse(n).Some? && parse(n).value in subscribed :: parse(n).value
  }

  /** The rest, which need authorizing. */
  function Wanted(parse: string -> Option<string>, names: seq<string>, held: set<string>): seq<string> {
    if names == [] then []
    else (if Canonical(parse, names[0]) in held then [] else [names[0]]) + Wanted(parse, names[1..], held)
  }

  /** The channels allowed by the verdicts, `None` being a refusal. */
  function Allowed(verdicts: seq<Option<string>>): seq<string> {
    if verdicts == [] then []
    else (if verdicts[0].Some? then [verdicts[0].value] else []) + Allowed(verdicts[1..])
  }

  function Refusals(c: Conn, verdicts: seq<Option<string>>): Conn
    decreases |verdicts|
  {
    if verdicts == [] then c
    else Refusals(if verdicts[0].None? then Offer(c, Error("forbidden_channel")) else c, verdicts[1..])
  }

  function Commit(c: Conn, order: seq<string>, verdicts: seq<Option<string>>, since: nat): Conn {
    var c1 := Refusals(c, verdicts);
    c1.(subscribed := c1.subscribed + AsSet(Allowed(verdicts)),
        commands := c1.commands + [Subscribe(order + Allowed(verdicts), since)])
  }

  /** The requested channels that were subscribed, each once, in request order. */
  function Dropped(parse: string -> Option<string>, names: seq<string>, subscribed: set<string>): seq<string>
    decreases |names|
  {
    if names == [] then []
    else
      var n := Canonical(parse, names[0]);
      if n in subscribed then [n] + Dropped(parse, names[1..], subscribed - {n})
      else Dropped(parse, names[1..], subscribed)
  }

  function Leave(c: Conn, parse: string -> Option<string>, names: seq<string>): Conn {
    var dropped := Dropped(parse, names, c.subscribed);
    c.(subscribed := c.subscribed - AsSet(dropped), commands := c.commands + [Unsubscribe(dropped)])
  }

  // ---------------------------------------------------------------- the objects

  class Connection {
    var subscribed: set<string>
    var outbound: seq<Frame>
    var commands: seq<Command>
    var closeCode: Option<nat>
    var windowStarted: real
    var framesInWindow: nat
    ghost var accepted: seq<Frame>
    ghost var offered: seq<Frame>
    ghost var refused: Option<nat>

    ghost function View(): Conn
      reads this
    {
      Conn(subscribed, outbound, commands, closeCode, accepted, offered, refused)
    }

    constructor (implicit: seq<string>, now: real)
      ensures View() == Opened(implicit)
      ensures windowStarted == now && framesInWindow == 0
    {
      subscribed, outbound := AsSet(implicit), [Hello];
      commands, closeCode := [Subscribe(implicit, 0)], None;
      windowStarted, framesInWindow := now, 0;
      accepted, offered, refused := [Hello], [], None;
    }

    method PutNowait(frame: Frame) returns (ok: bool)
      modifies this`outbound, this`accepted
      ensures View() == Offer(old(View()), frame)
      ensures ok == (|old(outbound)| < SEND_QUEUE)
    {
      ok := |outbound| < SEND_QUEUE;
      if ok {
        outbound, accepted := outbound + [frame], accepted + [frame];
      }
    }

    method Close(code: nat)
      modifies this`closeCode
      ensures View() == Stop(old(View()), code)
    {
      if closeCode.None? {
        closeCode := Some(code);
      }
    }

    /** A live frame off the bus: refused for a dropped channel, and the pump must
        return when this says so. */
    method Deliver(channel: string, n: nat) returns (go: bool)
      modifies this`outbound, this`accepted, this`offered, this`refused, this`closeCode
      ensures View() == if channel in old(subscribed) then OfferBus(old(View()), Live(channel, n)) else old(View())
      ensures go == (channel in old(subscribed) ==> |old(outbound)| < SEND_QUEUE)
    {
      if channel !in subscribed {
        return true;
      }
      offered := offered + [Live(channel, n)];
      go := PutNowait(Live(channel, n));
      if !go {
        refused := if refused.None? then Some(|accepted|) else refused;
        Close(CLOSE_TOO_SLOW);
      }
    }

    method DeliverReplay(channel: string, answer: Answer)
      modifies this`outbound, this`accepted, this`offered, this`refused, this`closeCode
      ensures View() == ReplayInto(old(View()), channel, answer)
    {
      if answer.Refetch? {
        var _ := PutNowait(Resync(channel));
        return;
      }
      var i := 0;
      while i < |answer.missed|
        invariant 0 <= i <= |answer.missed|
        invariant OfferReplay(View(), channel, answer.missed[i..])
               == OfferReplay(old(View()), channel, answer.missed)
      {
        assert answer.missed[i..][1..] == answer.missed[i + 1..];
        offered := offered + [Replayed(channel, answer.missed[i])];
        var ok := PutNowait(Replayed(channel, answer.missed[i]));
        if !ok {
          refused := if refused.None? then Some(|accepted|) else refused;
          Close(CLOSE_TOO_SLOW);
          return;
        }
        i := i + 1;
      }
      assert answer.missed[i..] == [];
    }

    /** The reader's half of a subscribe once the verdicts are in. */
    method CommitVerdicts(order: seq<string>, verdicts: seq<Option<string>>, since: nat)
      modifies this`subscribed, this`outbound, this`accepted, this`commands
      ensures View() == Commit(old(View()), order, verdicts, since)
    {
      var names := order;
      var i := 0;
      while i < |verdicts|
        invariant 0 <= i <= |verdicts|
        invariant subscribed + AsSet(Allowed(verdicts[i..])) == old(subscribed) + AsSet(Allowed(verdicts))
        invariant names + Allowed(verdicts[i..]) == order + Allowed(verdicts)
        invariant Refusals(View().(subscribed := old(subscribed)), verdicts[i..])
               == Refusals(old(View()), verdicts)
        invariant commands == old(commands)
      {
        assert verdicts[i..][1..] == verdicts[i + 1..];
        match verdicts[i] {
          case None =>
            var _ := PutNowait(Error("forbidden_channel"));
          case Some(channel) =>
            AsSetConcat([channel], Allowed(verdicts[i + 1..]));
            subscribed := subscribed + {channel};
            names := names + [channel];
        }
        i := i + 1;
      }
      assert verdicts[i..] == [] && AsSet(Allowed(verdicts[i..])) == {};
      assert names == order + Allowed(verdicts);
      assert subscribed == old(subscribed) + AsSet(Allowed(verdicts));
      commands := commands + [Subscribe(names, since)];
    }

    method LeaveChannels(parse: string -> Option<string>, names: seq<string>)
      modifies this`subscribed, this`commands
      ensures View() == Leave(old(View()), parse, names)
    {
      var dropped := [];
      var i := 0;
      while i < |names|
        invariant 0 <= i <= |names|
        invariant subscribed == old(subscribed) - AsSet(dropped)
        invariant commands == old(commands)
        invariant dropped + Dropped(parse, names[i..], subscribed) == Dropped(parse, names, old(subscribed))
      {
        assert names[i..][1..] == names[i + 1..];
        var n := Canonical(parse, names[i]);
        if n in subscribed {
          AsSetConcat(dropped, [n]);
          subscribed := subscribed - {n};
          dropped := dropped + [n];
        }
        i := i + 1;
      }
      assert names[i..] == [] && dropped == Dropped(parse, names, old(subscribed));
      commands := commands + [Unsubscribe(dropped)];
    }

    method WithinBudget(now: real) returns (ok: bool)
      modifies this`windowStarted, this`framesInWindow
      ensures Windows.Meter(windowStarted, framesInWindow)
           == Windows.Arrive(old(Windows.Meter(windowStarted, framesInWindow)), now, 10.0)
      ensures ok == (framesInWindow <= 240)
    {
      if now - windowStarted >= INBOUND_WINDOW {
        windowStarted, framesInWindow := now, 0;
      }
      framesInWindow := framesInWindow + 1;
      ok := framesInWindow <= INBOUND_FRAMES;
    }
  }

  /** The channels Redis has been asked for on this connection. */
  class Subscription {
    var channels: set<string>
    /** The SUBSCRIBE and UNSUBSCRIBE commands actually sent. */
    ghost var sent: seq<Command>

    method Add(channel: string)
      modifies this
      ensures channels == old(channels) + {channel}
      ensures sent == old(sent) + if channel in old(channels) then [] else [Subscribe([channel], 0)]
    {
      if channel in channels {
        return;
      }
      sent := sent + [Subscribe([channel], 0)];
      channels := channels + {channel};
    }

    method Drop(channel: string)
      modifies this
      ensures channels == old(channels) - {channel}
      ensures sent == old(sent) + if channel in old(channels) then [Unsubscribe([channel])] else []
    {
      if channel !in channels {
        return;
      }
      sent := sent + [Unsubscribe([channel])];
      channels := channels - {channel};
    }
  }

  lemma AsSetConcat(a: seq<string>, b: seq<string>)
    ensures AsSet(a + b) == AsSet(a) + AsSet(b)
  {
  }

  function Opened(implicit: seq<string>): Conn {
    Conn(AsSet(implicit), [Hello], [Subscribe(implicit, 0)], None, [Hello], [], None)
  }

  // ---------------------------------------------------------------- the three tasks

  /** Where the pump is suspended. */
  datatype Pump =
    | Polling
    | Adding(todo: seq<string>, names: seq<string>, since: nat)
    | Replaying(left: seq<string>, names: seq<string>, since: nat)
    | Acking(names: seq<string>)
    | Dropping(todo: seq<string>, names: seq<string>)
    | Unacking(names: seq<string>)
    | PumpDone

  datatype Writer = Waiting | Sending(frame: Frame) | WriterDone

  /** The reader is suspended on the socket, or on the authorization of a subscribe. */
  datatype Reader =
    | Reading
    | Authorizing(order: seq<string>, wanted: seq<string>, since: nat)
    | ReaderDone

  /** `feed` is what the pump has asked Redis for; `wire` is what the client was sent. */
  datatype Gate = Gate(conn: Conn, feed: set<string>, pump: Pump, writer: Writer, reader: Reader,
                       wire: seq<Frame>)

  datatype Event =
    | PumpTake
    | PumpAdd
    | PumpReplay(answer: Answer)
    | PumpAck
    | PumpDrop
    | PumpUnack
    | PumpLive(channel: string, seqNo: nat)
    | PumpLost
    | PumpCrash
    | WriterTake
    | WriterIdle(reap: bool)
    | WriterSent
    | WriterFails
    | ReaderRefuse(code: string)
    | ReaderFlood
    | ReaderSubscribe(names: seq<string>, order: seq<string>, since: nat)
    | ReaderVerdicts(verdicts: seq<Option<string>>)
    | ReaderUnsubscribe(names: seq<string>)
    | ReaderBusDown
    | ReaderGone

  /** After the last SUBSCRIBE: replay if the client gave a point, then acknowledge. */
  function AfterAdds(todo: seq<string>, names: seq<string>, since: nat): Pump {
    if todo != [] then Adding(todo, names, since)
    else AfterReplays(if since > 0 then names else [], names, since)
  }

  function AfterReplays(left: seq<string>, names: seq<string>, since: nat): Pump {
    if left != [] then Replaying(left, names, since) else Acking(names)
  }

  function AfterDrops(todo: seq<string>, names: seq<string>): Pump {
    if todo != [] then Dropping(todo, names) else Unacking(names)
  }

  function Taking(command: Command): Pump {
    match command
    case Subscribe(names, since) => AfterAdds(names, names, since)
    case Unsubscribe(names) => AfterDrops(names, names)
  }

  predicate Enabled(g: Gate, e: Event, parse: string -> Option<string>) {
    match e
    case PumpTake => g.pump.Polling? && g.conn.commands != []
    case PumpAdd => g.pump.Adding? && g.pump.todo != []
    case PumpReplay(_) => g.pump.Replaying? && g.pump.left != []
    case PumpAck => g.pump.Acking?
    case PumpDrop => g.pump.Dropping? && g.pump.todo != []
    case PumpUnack => g.pump.Unacking?
    case PumpLive(_, _) => g.pump.Polling?
    case PumpLost => g.pump.Polling?
    case PumpCrash => !g.pump.PumpDone?
    case WriterTake => g.writer.Waiting? && g.conn.outbound != []
    case WriterIdle(_) => g.writer.Waiting?
    case WriterSent => g.writer.Sending?
    case WriterFails => g.writer.Sending?
    case ReaderSubscribe(names, order, _) =>
      g.reader.Reading? && AsSet(order) == Held(parse, names, g.conn.subscribed)
    case ReaderVerdicts(verdicts) => g.reader.Authorizing? && |verdicts| == |g.reader.wanted|
    case _ => g.reader.Reading?
  }

  function StepPump(g: Gate, e: Event, parse: string -> Option<string>): Gate
    requires Enabled(g, e, parse)
  {
    match e
    case PumpTake =>
      g.(conn := g.conn.(commands := g.conn.commands[1..]), pump := Taking(g.conn.commands[0]))
    case PumpAdd =>
      g.(feed := g.feed + {g.pump.todo[0]}, pump := AfterAdds(g.pump.todo[1..], g.pump.names, g.pump.since))
    case PumpReplay(answer) =>
      g.(conn := ReplayInto(g.conn, g.pump.left[0], answer),
         pump := AfterReplays(g.pump.left[1..], g.pump.names, g.pump.since))
    case PumpAck => g.(conn := Offer(g.conn, Subscribed(g.pump.names)), pump := Polling)
    case PumpDrop =>
      g.(feed := g.feed - {g.pump.todo[0]}, pump := AfterDrops(g.pump.todo[1..], g.pump.names))
    case PumpUnack => g.(conn := Offer(g.conn, Unsubscribed(g.pump.names)), pump := Polling)
    case PumpLive(channel, n) =>
      if channel !in g.conn.subscribed then g
      else
        g.(conn := OfferBus(g.conn, Live(channel, n)),
           pump := if |g.conn.outbound| < SEND_QUEUE then Polling else PumpDone)
    case PumpLost => g.(conn := Stop(g.conn, CLOSE_BUS_DOWN), pump := PumpDone)
    case PumpCrash => g.(pump := PumpDone)
    case _ => g
  }

  function StepWriter(g: Gate, e: Event, parse: string -> Option<string>): Gate
    requires Enabled(g, e, parse)
  {
    match e
    case WriterTake =>
      g.(conn := g.conn.(outbound := g.conn.outbound[1..]), writer := Sending(g.conn.outbound[0]))
    case WriterIdle(reap) =>
      if reap then g.(conn := Stop(g.conn, CLOSE_POLICY), writer := WriterDone) else g.(writer := Sending(Ping))
    case WriterSent =>
      g.(wire := g.wire + [g.writer.frame],
         writer := if g.conn.closeCode.Some? then WriterDone else Waiting)
    case WriterFails => g.(conn := Stop(g.conn, CLOSE_TOO_SLOW), writer := WriterDone)
    case _ => g
  }

  function StepReader(g: Gate, e: Event, parse: string -> Option<string>): Gate
    requires Enabled(g, e, parse)
  {
    match e
    case ReaderRefuse(code) => g.(conn := Offer(g.conn, Error(code)))
    case ReaderFlood =>
      g.(conn := Stop(Offer(g.conn, Error("rate_limited")), CLOSE_POLICY), reader := ReaderDone)
    case ReaderSubscribe(names, order, since) =>
      var wanted := Wanted(parse, names, Held(parse, names, g.conn.subscribed));
      if |g.conn.subscribed| + |wanted| > MAX_CHANNELS then g.(conn := Offer(g.conn, Error("forbidden_channel")))
      else g.(reader := Authorizing(order, wanted, since))
    case ReaderVerdicts(verdicts) =>
      g.(conn := Commit(g.conn, g.reader.order, verdicts, g.reader.since), reader := Reading)
    case ReaderUnsubscribe(names) => g.(conn := Leave(g.conn, parse, names))
    case ReaderBusDown => g.(conn := Stop(g.conn, CLOSE_BUS_DOWN))
    case ReaderGone => g.(reader := ReaderDone)
    case _ => g
  }

  function Step(g: Gate, e: Event, parse: string -> Option<string>): Gate
    requires Enabled(g, e, parse)
  {
    match e
    case PumpTake | PumpAdd | PumpReplay(_) | PumpAck | PumpDrop | PumpUnack
       | PumpLive(_, _) | PumpLost | PumpCrash => StepPump(g, e, parse)
    case WriterTake | WriterIdle(_) | WriterSent | WriterFails => StepWriter(g, e, parse)
    case _ => StepReader(g, e, parse)
  }

  function Open(implicit: seq<string>): Gate {
    Gate(Opened(implicit), {}, Polling, Waiting, Reading, [])
  }

  predicate IsRun(g: Gate, es: seq<Event>, parse: string -> Option<string>)
    decreases |es|
  {
    es == [] || (Enabled(g, es[0], parse) && IsRun(Step(g, es[0], parse), es[1..], parse))
  }

  function Final(g: Gate, es: seq<Event>, parse: string -> Option<string>): Gate
    requires IsRun(g, es, parse)
    decreases |es|
  {
    if es == [] then g else Final(Step(g, es[0], parse), es[1..], parse)
  }

  /** Some run of the three tasks, from a connection with these channels, ends here. */
  ghost predicate Reaches(implicit: seq<string>, es: seq<Event>, parse: string -> Option<string>, g: Gate) {
    |AsSet(implicit)| <= MAX_CHANNELS && IsRun(Open(implicit), es, parse) && Final(Open(implicit), es, parse) == g
  }
}
