/** What one subscribe does, from the client's frame to the acknowledgement: which channels it
    names to the pump, which it leaves out, and when it is refused altogether. */
module Subscribing {
  import opened Wrappers
  import opened Gateway
  import opened Subscriptions
  import GatewayGaps

  // ---------------------------------------------------------------- the channels of a request

  /** A name of the request stands for this channel, and the connection holds it. */
  predicate Holds(parse: string -> Option<string>, names: seq<string>, subscribed: set<string>, channel: string) {
    channel in subscribed && exists n :: n in names && parse(n) == Some(channel)
  }

  lemma {:induction false} AllowedAre(verdicts: seq<Option<string>>, channel: string)
    ensures channel in Allowed(verdicts) <==> Some(channel) in verdicts
  {
    if verdicts != [] {
      AllowedAre(verdicts[1..], channel);
      assert verdicts == [verdicts[0]] + verdicts[1..];
    }
  }

  lemma {:induction false} WantedAre(parse: string -> Option<string>, names: seq<string>, held: set<string>, n: string)
    ensures n in Wanted(parse, names, held) <==>
            n in names && (if parse(n).Some? then parse(n).value else n) !in held
    ensures |Wanted(parse, names, held)| <= |names|
  {
    if names != [] {
      WantedAre(parse, names[1..], held, n);
      assert names == [names[0]] + names[1..];
    }
  }

  /** The refused channels of a request are each answered with an error while the queue has room,
      and nothing else is. */
  lemma {:induction false} RefusalsAreAnswered(c: Conn, verdicts: seq<Option<string>>)
    requires |c.outbound| <= SEND_QUEUE
    ensures var d, n := Refusals(c, verdicts), |c.accepted|;
      && d == c.(outbound := d.outbound, accepted := d.accepted) && c.accepted <= d.accepted
      && |d.outbound| - |c.outbound| == |d.accepted| - n
         == (if RefusedIn(verdicts) <= SEND_QUEUE - |c.outbound| then RefusedIn(verdicts)
             else SEND_QUEUE - |c.outbound|)
      && forall i :: n <= i < |d.accepted| ==> d.accepted[i] == Error("forbidden_channel")
    decreases |verdicts|
  {
    if verdicts != [] {
      var c1 := if verdicts[0].None? then Offer(c, Error("forbidden_channel")) else c;
      RefusalsAreAnswered(c1, verdicts[1..]);
    }
  }

  function RefusedIn(verdicts: seq<Option<string>>): nat {
    if verdicts == [] then 0 else (if verdicts[0].None? then 1 else 0) + RefusedIn(verdicts[1..])
  }

  // ---------------------------------------------------------------- the limit

  /** A subscribe is turned away exactly when the channels held and those it asks for beside them
      are more than twenty; otherwise the reader goes on to authorize what is not held. */
  lemma RefusedAboveTwenty(g: Gate, names: seq<string>, order: seq<string>, since: nat, parse: string -> Option<string>)
    requires Enabled(g, ReaderSubscribe(names, order, since), parse)
    ensures var h := Step(g, ReaderSubscribe(names, order, since), parse);
      var wanted := Wanted(parse, names, Held(parse, names, g.conn.subscribed));
      && (h.reader.Authorizing? <==> |g.conn.subscribed| + |wanted| <= 20)
      && (h.reader.Authorizing? ==> h == g.(reader := Authorizing(order, wanted, since)))
      && (!h.reader.Authorizing? ==> h == g.(conn := Offer(g.conn, Error("forbidden_channel"))))
    ensures forall n :: n in Wanted(parse, names, Held(parse, names, g.conn.subscribed)) <==>
              n in names && !Holds(parse, names, g.conn.subscribed, if parse(n).Some? then parse(n).value else n)
    ensures forall channel :: channel in order <==> Holds(parse, names, g.conn.subscribed, channel)
  {
    var held := Held(parse, names, g.conn.subscribed);
    forall channel ensures channel in held <==> Holds(parse, names, g.conn.subscribed, channel) {
    }
    forall n ensures n in Wanted(parse, names, held) <==>
        n in names && !Holds(parse, names, g.conn.subscribed, if parse(n).Some? then parse(n).value else n)
    {
      WantedAre(parse, names, held, n);
    }
    forall channel ensures channel in order <==> Holds(parse, names, g.conn.subscribed, channel) {
      assert channel in order <==> channel in AsSet(order);
    }
  }

  // ---------------------------------------------------------------- the command

  predicate Undecided(es: seq<Event>) {
    forall i :: 0 <= i < |es| ==> !es[i].ReaderVerdicts?
  }

  /** While the reader waits for its verdicts, it and the set of channels stay as they are. */
  lemma {:induction false} ReaderWaits(g: Gate, es: seq<Event>, parse: string -> Option<string>)
    requires g.reader.Authorizing? && IsRun(g, es, parse) && Undecided(es)
    ensures Final(g, es, parse).reader == g.reader && Final(g, es, parse).conn.subscribed == g.conn.subscribed
    decreases |es|
  {
    if es != [] {
      WaitsOne(g, es[0], parse);
      assert forall i :: 0 <= i < |es[1..]| ==> es[1..][i] == es[i + 1];
      ReaderWaits(Step(g, es[0], parse), es[1..], parse);
    }
  }

  lemma WaitsOne(g: Gate, e: Event, parse: string -> Option<string>)
    requires g.reader.Authorizing? && Enabled(g, e, parse) && !e.ReaderVerdicts?
    ensures Step(g, e, parse).reader == g.reader && Step(g, e, parse).conn.subscribed == g.conn.subscribed
  {
    if e.PumpReplay? && e.answer.Complete? {
      OfferReplayKeepsChannels(g.conn, g.pump.left[0], e.answer.missed);
    }
  }

  /** The channels a subscribe is to name: those of the request that the connection holds, and
      those allowed now. */
  predicate Meant(parse: string -> Option<string>, names: seq<string>, subscribed: set<string>,
                  verdicts: seq<Option<string>>, channel: string) {
    Holds(parse, names, subscribed, channel) || Some(channel) in verdicts
  }

  /** One subscribe is queued, after all that was, with the point the client gave and exactly these
      channels, and exactly the allowed ones are new to the connection. */
  ghost predicate Commits(parse: string -> Option<string>, names: seq<string>, since: nat, b: Gate,
                          verdicts: seq<Option<string>>, h: Gate) {
    var before, after := b.conn.commands, h.conn.commands;
    && |after| == |before| + 1 && before <= after
    && after[|before|].Subscribe? && after[|before|].since == since
    && (forall channel :: channel in after[|before|].names <==>
          Meant(parse, names, b.conn.subscribed, verdicts, channel))
    && (forall channel :: channel in h.conn.subscribed <==>
          channel in b.conn.subscribed || Some(channel) in verdicts)
    && h.pump == b.pump
  }

  /** What the verdicts make of a request, whatever the other tasks do while the reader waits for
      them. */
  lemma SubscribeNamesItsChannels(g: Gate, names: seq<string>, order: seq<string>, since: nat, es: seq<Event>,
                                  verdicts: seq<Option<string>>, parse: string -> Option<string>)
    requires Enabled(g, ReaderSubscribe(names, order, since), parse)
    requires var a := Step(g, ReaderSubscribe(names, order, since), parse);
      && a.reader.Authorizing? && IsRun(a, es, parse) && Undecided(es)
      && Enabled(Final(a, es, parse), ReaderVerdicts(verdicts), parse)
    ensures var b := Final(Step(g, ReaderSubscribe(names, order, since), parse), es, parse);
      Commits(parse, names, since, b, verdicts, Step(b, ReaderVerdicts(verdicts), parse))
  {
    var a := Step(g, ReaderSubscribe(names, order, since), parse);
    var b := Final(a, es, parse);
    RefusedAboveTwenty(g, names, order, since, parse);
    ReaderWaits(a, es, parse);
    VerdictsCommit(b, names, verdicts, parse);
  }

  lemma VerdictsCommit(b: Gate, names: seq<string>, verdicts: seq<Option<string>>, parse: string -> Option<string>)
    requires Enabled(b, ReaderVerdicts(verdicts), parse)
    requires forall channel :: channel in b.reader.order <==> Holds(parse, names, b.conn.subscribed, channel)
    ensures Commits(parse, names, b.reader.since, b, verdicts, Step(b, ReaderVerdicts(verdicts), parse))
  {
    RefusalsKeepChannels(b.conn, verdicts);
    forall channel ensures channel in Allowed(verdicts) <==> Some(channel) in verdicts {
      AllowedAre(verdicts, channel);
    }
    var h := Step(b, ReaderVerdicts(verdicts), parse);
    assert h.conn.subscribed == b.conn.subscribed + AsSet(Allowed(verdicts));
  }

  /** So a resuming client is owed a replay of every channel it named and may have, those it held
      already included. */
  lemma SubscribeOwesReplays(g: Gate, names: seq<string>, order: seq<string>, since: nat, es: seq<Event>,
                             verdicts: seq<Option<string>>, parse: string -> Option<string>, channel: string)
    requires Enabled(g, ReaderSubscribe(names, order, since), parse) && since > 0
    requires var a := Step(g, ReaderSubscribe(names, order, since), parse);
      && a.reader.Authorizing? && IsRun(a, es, parse) && Undecided(es)
      && Enabled(Final(a, es, parse), ReaderVerdicts(verdicts), parse)
    requires Meant(parse, names, g.conn.subscribed, verdicts, channel)
    ensures var b := Final(Step(g, ReaderSubscribe(names, order, since), parse), es, parse);
      var h := Step(b, ReaderVerdicts(verdicts), parse);
      b.pump.PumpDone? || GatewayGaps.Owed(h, channel)
  {
    var a := Step(g, ReaderSubscribe(names, order, since), parse);
    var b := Final(a, es, parse);
    SubscribeNamesItsChannels(g, names, order, since, es, verdicts, parse);
    ReaderWaits(a, es, parse);
    var n := |b.conn.commands|;
    assert GatewayGaps.OwedByCommand(Step(b, ReaderVerdicts(verdicts), parse).conn.commands[n], channel);
  }

  // ---------------------------------------------------------------- the acknowledgement

  /** What the pump is in the middle of has reached Redis as far as it has come. */
  ghost predicate Reached(g: Gate) {
    match g.pump
    case Adding(todo, names, _) => AsSet(names) <= g.feed + AsSet(todo)
    case Replaying(_, names, _) => AsSet(names) <= g.feed
    case Acking(names) => AsSet(names) <= g.feed
    case Dropping(todo, names) => AsSet(names) * g.feed <= AsSet(todo)
    case Unacking(names) => AsSet(names) !! g.feed
    case _ => true
  }

  lemma StepReaches(g: Gate, e: Event, parse: string -> Option<string>)
    requires Reached(g) && Enabled(g, e, parse)
    ensures Reached(Step(g, e, parse))
  {
    match e
    case PumpAdd =>
      AsSetConcat([g.pump.todo[0]], g.pump.todo[1..]);
      assert g.pump.todo == [g.pump.todo[0]] + g.pump.todo[1..];
    case PumpDrop =>
      var rest, left := g.pump.todo[1..], g.feed - {g.pump.todo[0]};
      AsSetConcat([g.pump.todo[0]], rest);
      assert g.pump.todo == [g.pump.todo[0]] + rest;
      forall n | n in AsSet(g.pump.names) && n in left ensures n in AsSet(rest) {
        assert n in AsSet(g.pump.names) * g.feed;
      }
    case _ =>
  }

  lemma {:induction false} RunReaches(g: Gate, es: seq<Event>, parse: string -> Option<string>)
    requires Reached(g) && IsRun(g, es, parse)
    ensures Reached(Final(g, es, parse))
    decreases |es|
  {
    if es != [] {
      StepReaches(g, es[0], parse);
      RunReaches(Step(g, es[0], parse), es[1..], parse);
    }
  }

  /** In every run a subscribe is acknowledged only once Redis has been asked for all of its
      channels, and an unsubscribe only once it has been told to drop them. */
  lemma AcknowledgedIsDone(implicit: seq<string>, es: seq<Event>, parse: string -> Option<string>, g: Gate)
    requires Reaches(implicit, es, parse, g)
    ensures Enabled(g, PumpAck, parse) ==>
              && (forall n :: n in g.pump.names ==> n in g.feed)
              && Step(g, PumpAck, parse).conn == Offer(g.conn, Subscribed(g.pump.names))
    ensures Enabled(g, PumpUnack, parse) ==>
              && (forall n :: n in g.pump.names ==> n !in g.feed)
              && Step(g, PumpUnack, parse).conn == Offer(g.conn, Unsubscribed(g.pump.names))
  {
    RunReaches(Open(implicit), es, parse);
    assert g.pump.Acking? ==> forall n :: n in g.pump.names ==> n in AsSet(g.pump.names);
    assert g.pump.Unacking? ==> forall n :: n in g.pump.names ==> n in AsSet(g.pump.names);
  }

  // ---------------------------------------------------------------- closing

  lemma {:induction false} RefusalsKeepCode(c: Conn, verdicts: seq<Option<string>>)
    ensures Refusals(c, verdicts).closeCode == c.closeCode
    decreases |verdicts|
  {
    if verdicts != [] {
      RefusalsKeepCode(if verdicts[0].None? then Offer(c, Error("forbidden_channel")) else c, verdicts[1..]);
    }
  }

  lemma {:induction false} ReplayKeepsCode(c: Conn, channel: string, missed: seq<nat>)
    requires |c.outbound| <= SEND_QUEUE
    ensures c.closeCode.Some? ==> OfferReplay(c, channel, missed).closeCode == c.closeCode
    ensures c.closeCode.None? ==>
              OfferReplay(c, channel, missed).closeCode
              == if |missed| <= SEND_QUEUE - |c.outbound| then None else Some(1013)
    decreases |missed|
  {
    if missed != [] && |c.outbound| < SEND_QUEUE {
      ReplayKeepsCode(OfferBus(c, Replayed(channel, missed[0])), channel, missed[1..]);
    }
  }

  /** Why a step closes the connection, if it does: a client too slow for a bus frame or for the
      writer, a flood or silence, or a bus that is gone. */
  function Cause(g: Gate, e: Event): Option<nat> {
    var room := SEND_QUEUE - |g.conn.outbound|;
    match e
    case PumpReplay(Complete(missed)) => if |missed| > room then Some(1013) else None
    case PumpLive(channel, _) => if channel in g.conn.subscribed && room <= 0 then Some(1013) else None
    case WriterFails => Some(1013)
    case WriterIdle(reap) => if reap then Some(1008) else None
    case ReaderFlood => Some(1008)
    case PumpLost => Some(1011)
    case ReaderBusDown => Some(1011)
    case _ => None
  }

  /** A close code is set when there is a cause, and the first one stays. */
  lemma FirstCauseStays(g: Gate, e: Event, parse: string -> Option<string>)
    requires Enabled(g, e, parse) && |g.conn.outbound| <= SEND_QUEUE
    ensures Step(g, e, parse).conn.closeCode == if g.conn.closeCode.Some? then g.conn.closeCode else Cause(g, e)
  {
    match e
    case PumpReplay(answer) =>
      if answer.Complete? {
        ReplayKeepsCode(g.conn, g.pump.left[0], answer.missed);
      }
    case ReaderVerdicts(verdicts) => RefusalsKeepCode(g.conn, verdicts);
    case _ =>
  }

  /** The pump ends with a live frame that finds no room, a lost bus or a failure, and not with a
      replay cut short; the writer with a reaped or failed connection, or having sent its frame once
      a close code is set; the reader with a flood or the client gone. Nothing ends another task. */
  lemma TasksEnd(g: Gate, e: Event, parse: string -> Option<string>)
    requires Enabled(g, e, parse)
    ensures var h := Step(g, e, parse);
      && (h.pump.PumpDone? <==>
            || g.pump.PumpDone? || e.PumpLost? || e.PumpCrash?
            || (e.PumpLive? && e.channel in g.conn.subscribed && |g.conn.outbound| >= 64))
      && (h.writer.WriterDone? <==>
            || g.writer.WriterDone? || e.WriterFails? || (e.WriterIdle? && e.reap)
            || (e.WriterSent? && g.conn.closeCode.Some?))
      && (h.reader.ReaderDone? <==> g.reader.ReaderDone? || e.ReaderFlood? || e.ReaderGone?)
  {
  }
}
