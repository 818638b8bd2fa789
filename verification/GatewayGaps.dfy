/** What the gateway does not guarantee: exactly when a resync is told and when a dropped
    channel is still replayed, with a run of each going wrong. */
module GatewayGaps {
  import opened Wrappers
  import opened Gateway
  import opened Backpressure
  import opened Subscriptions

  predicate Moves(g: Gate, e: Event, parse: string -> Option<string>, g': Gate) {
    Enabled(g, e, parse) && Step(g, e, parse) == g'
  }

  lemma {:induction false} TraceIsRun(gates: seq<Gate>, es: seq<Event>, parse: string -> Option<string>)
    requires |gates| == |es| + 1
    requires forall i :: 0 <= i < |es| ==> Moves(gates[i], es[i], parse, gates[i + 1])
    ensures IsRun(gates[0], es, parse) && Final(gates[0], es, parse) == gates[|es|]
    decreases |es|
  {
    if es != [] {
      assert Moves(gates[0], es[0], parse, gates[1]);
      TraceIsRun(gates[1..], es[1..], parse);
    }
  }

  lemma {:induction false} RunConcat(g: Gate, es: seq<Event>, fs: seq<Event>, parse: string -> Option<string>)
    requires IsRun(g, es, parse) && IsRun(Final(g, es, parse), fs, parse)
    ensures IsRun(g, es + fs, parse)
    ensures Final(g, es + fs, parse) == Final(Final(g, es, parse), fs, parse)
    decreases |es|
  {
    if es == [] {
      assert es + fs == fs;
    } else {
      assert (es + fs)[1..] == es[1..] + fs;
      RunConcat(Step(g, es[0], parse), es[1..], fs, parse);
    }
  }

  // ---------------------------------------------------------------- a resync is told or it is not

  /** The queue has only grown, and by none of these frames. */
  ghost predicate GrowsWithout(c: Conn, c': Conn, bad: Frame -> bool) {
    && c.accepted <= c'.accepted
    && forall i :: |c.accepted| <= i < |c'.accepted| ==> !bad(c'.accepted[i])
  }

  lemma GrowsOn(c: Conn, c1: Conn, c2: Conn, bad: Frame -> bool)
    requires GrowsWithout(c, c1, bad) && GrowsWithout(c1, c2, bad)
    ensures GrowsWithout(c, c2, bad)
  {
    assert forall i :: |c.accepted| <= i < |c1.accepted| ==> c2.accepted[i] == c1.accepted[i];
  }

  lemma {:induction false} ReplayGrowsWithout(c: Conn, channel: string, missed: seq<nat>, bad: Frame -> bool)
    requires forall n :: !bad(Replayed(channel, n))
    ensures GrowsWithout(c, OfferReplay(c, channel, missed), bad)
    decreases |missed|
  {
    if missed != [] && |c.outbound| < SEND_QUEUE {
      var c1 := OfferBus(c, Replayed(channel, missed[0]));
      ReplayGrowsWithout(c1, channel, missed[1..], bad);
      GrowsOn(c, c1, OfferReplay(c, channel, missed), bad);
    }
  }

  lemma {:induction false} RefusalsGrowWithout(c: Conn, verdicts: seq<Option<string>>, bad: Frame -> bool)
    requires !bad(Error("forbidden_channel"))
    ensures GrowsWithout(c, Refusals(c, verdicts), bad)
    decreases |verdicts|
  {
    if verdicts != [] {
      var c1 := if verdicts[0].None? then Offer(c, Error("forbidden_channel")) else c;
      RefusalsGrowWithout(c1, verdicts[1..], bad);
      GrowsOn(c, c1, Refusals(c, verdicts), bad);
    }
  }

  /** Frames the pump alone brings: a resync and replayed frames from the answer to a replay,
      live ones from a poll. */
  ghost predicate FromPump(bad: Frame -> bool) {
    forall f :: bad(f) ==> f.Replayed? || f.Resync? || f.Live?
  }

  lemma StepGrowsWithout(g: Gate, e: Event, parse: string -> Option<string>, bad: Frame -> bool)
    requires Enabled(g, e, parse) && FromPump(bad)
    requires e.PumpReplay? && e.answer.Refetch? ==> !bad(Resync(g.pump.left[0]))
    requires e.PumpReplay? && e.answer.Complete? ==> forall n :: !bad(Replayed(g.pump.left[0], n))
    requires e.PumpLive? ==> !bad(Live(e.channel, e.seqNo))
    ensures GrowsWithout(g.conn, Step(g, e, parse).conn, bad)
  {
    match e
    case PumpReplay(answer) =>
      if answer.Complete? {
        ReplayGrowsWithout(g.conn, g.pump.left[0], answer.missed, bad);
      }
    case ReaderVerdicts(verdicts) => RefusalsGrowWithout(g.conn, verdicts, bad);
    case _ =>
  }

  lemma {:induction false} RunAccepts(g: Gate, es: seq<Event>, parse: string -> Option<string>)
    requires IsRun(g, es, parse)
    ensures g.conn.accepted <= Final(g, es, parse).conn.accepted
    decreases |es|
  {
    if es != [] {
      StepGrowsWithout(g, es[0], parse, _ => false);
      RunAccepts(Step(g, es[0], parse), es[1..], parse);
    }
  }

  /** Along this run the channel gets no further answer to refetch. */
  predicate NoRefetch(g: Gate, es: seq<Event>, parse: string -> Option<string>, channel: string)
    requires IsRun(g, es, parse)
    decreases |es|
  {
    es == [] ||
    (&& !(es[0] == PumpReplay(Refetch) && g.pump.left[0] == channel)
     && NoRefetch(Step(g, es[0], parse), es[1..], parse, channel))
  }

  function IsResync(channel: string): Frame -> bool {
    (f: Frame) => f == Resync(channel)
  }

  lemma {:induction false} NoRefetchNoResync(g: Gate, es: seq<Event>, parse: string -> Option<string>, channel: string)
    requires IsRun(g, es, parse) && NoRefetch(g, es, parse, channel)
    ensures GrowsWithout(g.conn, Final(g, es, parse).conn, IsResync(channel))
    decreases |es|
  {
    if es != [] {
      StepGrowsWithout(g, es[0], parse, IsResync(channel));
      NoRefetchNoResync(Step(g, es[0], parse), es[1..], parse, channel);
      GrowsOn(g.conn, Step(g, es[0], parse).conn, Final(g, es, parse).conn, IsResync(channel));
    }
  }

  /** The pump is about to handle the answer to the channel's replay. */
  predicate Answering(g: Gate, channel: string) {
    g.pump.Replaying? && g.pump.left != [] && g.pump.left[0] == channel
  }

  /** Over every continuation of every state: when a replay is answered "refetch", the resync
      is the next frame the queue takes, ahead of every later frame of the channel, if and only
      if the queue had room when the answer was handled; without room the client is never told,
      unless another replay is answered so. */
  lemma ResyncToldExactly(g: Gate, channel: string, es: seq<Event>, parse: string -> Option<string>)
    requires Answering(g, channel) && IsRun(Step(g, PumpReplay(Refetch), parse), es, parse)
    ensures var told, n, room := Step(g, PumpReplay(Refetch), parse), |g.conn.accepted|, |g.conn.outbound| < SEND_QUEUE;
      var later := Final(told, es, parse).conn.accepted;
      && g.conn.accepted <= later
      && (told.conn.accepted == g.conn.accepted + [Resync(channel)] <==> room)
      && (room ==> n < |later| && later[n] == Resync(channel))
      && (!room && NoRefetch(told, es, parse, channel) ==> forall i :: n <= i < |later| ==> later[i] != Resync(channel))
  {
    var told := Step(g, PumpReplay(Refetch), parse);
    RunAccepts(told, es, parse);
    if NoRefetch(told, es, parse, channel) {
      NoRefetchNoResync(told, es, parse, channel);
    }
  }

  /** So it is on the wire: with room the resync is what the client is sent next of all the
      queue takes, and without room it is not sent. */
  lemma ResyncSentExactly(implicit: seq<string>, before: seq<Event>, g: Gate, channel: string, es: seq<Event>,
                          parse: string -> Option<string>)
    requires Reaches(implicit, before, parse, g)
    requires Answering(g, channel) && IsRun(Step(g, PumpReplay(Refetch), parse), es, parse)
    ensures var told, n := Step(g, PumpReplay(Refetch), parse), |g.conn.accepted|;
      var sent := WithoutPings(Final(told, es, parse).wire);
      && (|g.conn.outbound| < SEND_QUEUE && n < |sent| ==> sent[n] == Resync(channel))
      && (|g.conn.outbound| >= SEND_QUEUE && NoRefetch(told, es, parse, channel) ==>
            forall i :: n <= i < |sent| ==> sent[i] != Resync(channel))
  {
    var step := [PumpReplay(Refetch)];
    var told := Step(g, PumpReplay(Refetch), parse);
    ResyncToldExactly(g, channel, es, parse);
    assert step[1..] == [] && IsRun(g, step, parse) && Final(g, step, parse) == told;
    RunConcat(g, step, es, parse);
    RunConcat(Open(implicit), before, step + es, parse);
    WireIsAPrefix(implicit, before + (step + es), parse, Final(told, es, parse));
  }

  // ---------------------------------------------------------------- a dropped channel is replayed or it is not

  /** A replay of the channel is still to come from what the pump is doing. */
  predicate OwedByPump(pump: Pump, channel: string) {
    match pump
    case Adding(_, names, since) => since > 0 && channel in names
    case Replaying(left, _, _) => channel in left
    case _ => false
  }

  predicate OwedByCommand(command: Command, channel: string) {
    command.Subscribe? && command.since > 0 && channel in command.names
  }

  /** The channel is named by the command the pump is in the middle of, its replay not yet
      answered, or by a queued subscribe that gave a point to resume from. */
  predicate Owed(g: Gate, channel: string) {
    && !g.pump.PumpDone?
    && (|| OwedByPump(g.pump, channel)
        || exists i :: 0 <= i < |g.conn.commands| && OwedByCommand(g.conn.commands[i], channel))
  }

  function IsReplay(channel: string): Frame -> bool {
    (f: Frame) => f.Replayed? && f.channel == channel
  }

  ghost predicate Left(g: Gate, channel: string) {
    channel !in g.conn.subscribed && (g.reader.Authorizing? ==> channel !in g.reader.order)
  }

  lemma StepStaysLeft(g: Gate, e: Event, parse: string -> Option<string>, channel: string)
    requires Left(g, channel) && Enabled(g, e, parse) && !(e.ReaderVerdicts? && channel in Allowed(e.verdicts))
    ensures Left(Step(g, e, parse), channel)
  {
    match e
    case PumpReplay(answer) =>
      if answer.Complete? {
        OfferReplayKeepsChannels(g.conn, g.pump.left[0], answer.missed);
      }
    case ReaderVerdicts(verdicts) => RefusalsKeepChannels(g.conn, verdicts);
    case ReaderSubscribe(names, order, _) =>
      assert channel in order ==> channel in AsSet(order);
    case _ =>
  }

  lemma StepOwesNoMore(g: Gate, e: Event, parse: string -> Option<string>, channel: string)
    requires Left(g, channel) && !Owed(g, channel)
    requires Enabled(g, e, parse) && !(e.ReaderVerdicts? && channel in Allowed(e.verdicts))
    ensures !Owed(Step(g, e, parse), channel)
  {
    var h := Step(g, e, parse);
    match e
    case PumpTake =>
      assert !OwedByCommand(g.conn.commands[0], channel);
      assert forall i :: 0 <= i < |h.conn.commands| ==> h.conn.commands[i] == g.conn.commands[i + 1];
    case PumpReplay(answer) =>
      if answer.Complete? {
        OfferReplayKeepsChannels(g.conn, g.pump.left[0], answer.missed);
      }
    case ReaderVerdicts(verdicts) =>
      RefusalsKeepChannels(g.conn, verdicts);
      var n := |g.conn.commands|;
      assert forall i :: 0 <= i < n ==> h.conn.commands[i] == g.conn.commands[i];
      assert h.conn.commands[n] == Subscribe(g.reader.order + Allowed(verdicts), g.reader.since);
    case ReaderUnsubscribe(names) =>
      assert forall i :: 0 <= i < |g.conn.commands| ==> h.conn.commands[i] == g.conn.commands[i];
    case _ =>
  }

  lemma {:induction false} NotOwedNotReplayed(g: Gate, es: seq<Event>, parse: string -> Option<string>, channel: string)
    requires Left(g, channel) && !Owed(g, channel) && IsRun(g, es, parse) && !Rejoins(es, channel)
    ensures GrowsWithout(g.conn, Final(g, es, parse).conn, IsReplay(channel))
    decreases |es|
  {
    if es != [] {
      StepStaysLeft(g, es[0], parse, channel);
      StepOwesNoMore(g, es[0], parse, channel);
      StepGrowsWithout(g, es[0], parse, IsReplay(channel));
      NotOwedNotReplayed(Step(g, es[0], parse), es[1..], parse, channel);
      GrowsOn(g.conn, Step(g, es[0], parse).conn, Final(g, es, parse).conn, IsReplay(channel));
    }
  }

  /** The pump has something left of what it is doing. */
  predicate Shaped(g: Gate) {
    match g.pump
    case Adding(todo, _, _) => todo != []
    case Replaying(left, _, _) => left != []
    case Dropping(todo, _) => todo != []
    case _ => true
  }

  lemma {:induction false} RunStaysShaped(g: Gate, es: seq<Event>, parse: string -> Option<string>)
    requires Shaped(g) && IsRun(g, es, parse)
    ensures Shaped(Final(g, es, parse))
    decreases |es|
  {
    if es != [] {
      RunStaysShaped(Step(g, es[0], parse), es[1..], parse);
    }
  }

  /** The connection is open: nothing has closed it and its writer is at work. */
  predicate IsOpen(g: Gate) {
    g.conn.closeCode.None? && !g.writer.WriterDone?
  }

  /** Only the pump and the writer take steps. */
  predicate ReaderRests(es: seq<Event>) {
    forall i :: 0 <= i < |es| ==> !es[i].ReaderVerdicts?
  }

  lemma {:induction false} RestsWithoutRejoining(es: seq<Event>, channel: string)
    requires ReaderRests(es)
    ensures !Rejoins(es, channel)
  {
    if es != [] {
      RestsWithoutRejoining(es[1..], channel);
    }
  }

  lemma OneStep(g: Gate, e: Event, es: seq<Event>, parse: string -> Option<string>)
    requires Enabled(g, e, parse) && IsRun(Step(g, e, parse), es, parse)
    ensures IsRun(g, [e] + es, parse) && Final(g, [e] + es, parse) == Final(Step(g, e, parse), es, parse)
  {
    assert ([e] + es)[1..] == es;
  }

  /** An open connection's writer can empty the queue. */
  lemma {:induction false} Drains(g: Gate, parse: string -> Option<string>) returns (es: seq<Event>)
    requires IsOpen(g)
    ensures IsRun(g, es, parse) && ReaderRests(es)
    ensures var h := Final(g, es, parse); h.conn == g.conn.(outbound := []) && h.pump == g.pump && IsOpen(h)
    decreases |g.conn.outbound|, if g.writer.Sending? then 1 else 0
  {
    es := [];
    if g.writer.Sending? {
      var rest := Drains(Step(g, WriterSent, parse), parse);
      OneStep(g, WriterSent, rest, parse);
      es := [WriterSent] + rest;
    } else if g.conn.outbound != [] {
      var rest := Drains(Step(g, WriterTake, parse), parse);
      OneStep(g, WriterTake, rest, parse);
      es := [WriterTake] + rest;
    }
  }

  /** How far the pump is from being done with its command. */
  function Stage(pump: Pump): nat {
    match pump
    case Adding(todo, names, _) => 2 + |names| + |todo|
    case Replaying(left, _, _) => 1 + |left|
    case Dropping(todo, _) => 1 + |todo|
    case Acking(_) => 1
    case Unacking(_) => 1
    case _ => 0
  }

  /** The step by which a pump that owes a replay comes nearer to it. */
  function Nearer(g: Gate): Event {
    match g.pump
    case Polling => PumpTake
    case Adding(_, _, _) => PumpAdd
    case Replaying(_, _, _) => PumpReplay(Complete([]))
    case Dropping(_, _) => PumpDrop
    case Acking(_) => PumpAck
    case _ => PumpUnack
  }

  lemma NearerKeepsOwing(g: Gate, channel: string, parse: string -> Option<string>)
    requires Shaped(g) && IsOpen(g) && Owed(g, channel) && !Answering(g, channel)
    ensures Enabled(g, Nearer(g), parse)
    ensures var h := Step(g, Nearer(g), parse); Shaped(h) && IsOpen(h) && Owed(h, channel)
    ensures var h := Step(g, Nearer(g), parse);
      |h.conn.commands| < |g.conn.commands| || (h.conn.commands == g.conn.commands && Stage(h.pump) < Stage(g.pump))
  {
    var h := Step(g, Nearer(g), parse);
    if !OwedByPump(g.pump, channel) {
      var i :| 0 <= i < |g.conn.commands| && OwedByCommand(g.conn.commands[i], channel);
      if g.pump.Polling? && i > 0 {
        assert h.conn.commands[i - 1] == g.conn.commands[i];
      }
    }
  }

  lemma AnsweringIsReplayed(g: Gate, channel: string, n: nat, parse: string -> Option<string>)
    returns (es: seq<Event>)
    requires IsOpen(g) && Answering(g, channel)
    ensures IsRun(g, es, parse) && ReaderRests(es)
    ensures var accepted := Final(g, es, parse).conn.accepted;
      g.conn.accepted < accepted && accepted[|accepted| - 1] == Replayed(channel, n)
  {
    var drained := Drains(g, parse);
    var h := Final(g, drained, parse);
    var last := [PumpReplay(Complete([n]))];
    assert OfferReplay(h.conn, channel, [n]) == OfferBus(h.conn, Replayed(channel, n));
    OneStep(h, last[0], [], parse);
    assert last + [] == last;
    RunConcat(g, drained, last, parse);
    es := drained + last;
  }

  /** While a replay is owed, an open connection can come to accept it. */
  lemma {:induction false} OwedCanBeReplayed(g: Gate, channel: string, n: nat, parse: string -> Option<string>)
    returns (es: seq<Event>)
    requires Shaped(g) && IsOpen(g) && Owed(g, channel)
    ensures IsRun(g, es, parse) && ReaderRests(es)
    ensures var accepted := Final(g, es, parse).conn.accepted;
      g.conn.accepted < accepted && accepted[|accepted| - 1] == Replayed(channel, n)
    decreases |g.conn.commands|, Stage(g.pump)
  {
    if Answering(g, channel) {
      es := AnsweringIsReplayed(g, channel, n, parse);
    } else {
      NearerKeepsOwing(g, channel, parse);
      StepGrowsWithout(g, Nearer(g), parse, _ => false);
      var rest := OwedCanBeReplayed(Step(g, Nearer(g), parse), channel, n, parse);
      OneStep(g, Nearer(g), rest, parse);
      es := [Nearer(g)] + rest;
    }
  }

  ghost predicate Replays(g: Gate, es: seq<Event>, parse: string -> Option<string>, channel: string) {
    && IsRun(g, es, parse) && !Rejoins(es, channel)
    && !GrowsWithout(g.conn, Final(g, es, parse).conn, IsReplay(channel))
  }

  /** A channel the client has dropped and not joined again can still be replayed to it, over
      an open connection, if and only if its replay is owed. */
  lemma ReplayedAfterDropExactly(implicit: seq<string>, before: seq<Event>, g: Gate, channel: string,
                                 parse: string -> Option<string>)
    requires Reaches(implicit, before, parse, g) && channel !in g.conn.subscribed && IsOpen(g)
    ensures (exists es :: Replays(g, es, parse, channel)) <==> Owed(g, channel)
  {
    ReachedLeft(implicit, before, g, channel, parse);
    if Owed(g, channel) {
      RunStaysShaped(Open(implicit), before, parse);
      var es := OwedCanBeReplayed(g, channel, 0, parse);
      RestsWithoutRejoining(es, channel);
      assert Replays(g, es, parse, channel);
    } else {
      forall es | IsRun(g, es, parse) && !Rejoins(es, channel) ensures !Replays(g, es, parse, channel) {
        NotOwedNotReplayed(g, es, parse, channel);
      }
    }
  }

  lemma ReachedLeft(implicit: seq<string>, before: seq<Event>, g: Gate, channel: string,
                    parse: string -> Option<string>)
    requires Reaches(implicit, before, parse, g) && channel !in g.conn.subscribed
    ensures Left(g, channel)
  {
    ReachedChannels(implicit, before, parse, g);
    assert g.reader.Authorizing? ==> (channel in AsSet(g.reader.order) <==> channel in g.reader.order);
  }

  // ---------------------------------------------------------------- a run of each

  const GREET: seq<Event> := [PumpTake, PumpAck]
  const JOIN: seq<Event> := [ReaderSubscribe(["c"], [], 5), ReaderVerdicts([Some("c")]), PumpTake, PumpAdd]
  const RESUME: seq<Event> := GREET + JOIN

  const GREETED: Conn := Conn({}, [Hello, Subscribed([])], [], None, [Hello, Subscribed([])], [], None)

  /** The connection and the pump of a client resuming one channel from frame 5, brought
      up to the point where its replay is awaited. */
  const RESUMING: Gate :=
    Gate(GREETED.(subscribed := {"c"}), {"c"}, Replaying(["c"], ["c"], 5), Waiting, Reading, [])

  const IDLE: Gate := Gate(GREETED, {}, Polling, Waiting, Reading, [])
  const JOINED: Conn := GREETED.(subscribed := {"c"}, commands := [Subscribe(["c"], 5)])

  lemma AsksForOne(parse: string -> Option<string>)
    requires parse("c") == Some("c")
    ensures Moves(IDLE, ReaderSubscribe(["c"], [], 5), parse, IDLE.(reader := Authorizing([], ["c"], 5)))
  {
    assert Canonical(parse, "c") == "c";
    assert Held(parse, ["c"], {}) == {} == AsSet([]);
    assert Wanted(parse, ["c"], {}) == ["c"];
    assert |IDLE.conn.subscribed| == 0;
  }

  lemma JoinsOne(parse: string -> Option<string>)
    ensures Moves(IDLE.(reader := Authorizing([], ["c"], 5)), ReaderVerdicts([Some("c")]), parse,
                  IDLE.(conn := JOINED))
  {
    assert Allowed([Some("c")]) == ["c"];
    assert Refusals(GREETED, [Some("c")]) == GREETED;
    assert {} + AsSet(["c"]) == {"c"};
    assert [] + ["c"] == ["c"];
  }

  lemma GreetsFirst(parse: string -> Option<string>)
    ensures IsRun(Open([]), GREET, parse) && Final(Open([]), GREET, parse) == IDLE
  {
    var start := Open([]);
    TraceIsRun([start, start.(conn := start.conn.(commands := []), pump := Acking([])), IDLE], GREET, parse);
  }

  lemma ResumeAwaitsReplay(parse: string -> Option<string>)
    requires parse("c") == Some("c")
    ensures IsRun(Open([]), RESUME, parse) && Final(Open([]), RESUME, parse) == RESUMING
  {
    var gates := [
      IDLE,
      IDLE.(reader := Authorizing([], ["c"], 5)),
      IDLE.(conn := JOINED),
      RESUMING.(feed := {}, pump := Adding(["c"], ["c"], 5)),
      RESUMING];
    GreetsFirst(parse);
    AsksForOne(parse);
    JoinsOne(parse);
    TraceIsRun(gates, JOIN, parse);
    RunConcat(Open([]), GREET, JOIN, parse);
  }

  lemma {:induction false} ErrorsFillTheQueue(g: Gate, k: nat, parse: string -> Option<string>) returns (es: seq<Event>)
    requires g.reader.Reading? && |g.conn.outbound| + k <= SEND_QUEUE
    ensures IsRun(g, es, parse)
    ensures var g' := Final(g, es, parse);
      && g' == g.(conn := g'.conn)
      && g'.conn == g.conn.(outbound := g'.conn.outbound, accepted := g'.conn.accepted)
      && |g'.conn.outbound| == |g.conn.outbound| + k
      && (forall f :: f in g'.conn.accepted ==> f in g.conn.accepted || f.Error?)
    decreases k
  {
    es := [];
    if k > 0 {
      var g1 := Step(g, ReaderRefuse("bad_frame"), parse);
      var rest := ErrorsFillTheQueue(g1, k - 1, parse);
      es := [ReaderRefuse("bad_frame")] + rest;
      assert es[1..] == rest;
    }
  }

  function RefusedTail(n: nat): seq<Event> {
    [PumpReplay(Refetch), PumpAck, WriterTake, PumpLive("c", n)]
  }

  lemma FullQueueRefusesResync(full: Gate, n: nat, parse: string -> Option<string>)
    requires full == RESUMING.(conn := full.conn) && |full.conn.outbound| == SEND_QUEUE
    requires full.conn.subscribed == {"c"} && full.conn.closeCode.None? && full.conn.refused.None?
    ensures IsRun(full, RefusedTail(n), parse)
    ensures var c := Final(full, RefusedTail(n), parse).conn;
      c.closeCode.None? && c.refused.None? && c.accepted == full.conn.accepted + [Live("c", n)]
  {
    var acking := full.(pump := Acking(["c"]));
    var polling := full.(pump := Polling);
    var taken := Step(polling, WriterTake, parse);
    TraceIsRun([full, acking, polling, taken, Step(taken, PumpLive("c", n), parse)], RefusedTail(n), parse);
  }

  /** The queue is full when the replay answers "refetch": the resync is refused and
      nothing records it, the connection stays open, and the next live frame is taken. */
  lemma RefusedResyncGoesUnnoticed(parse: string -> Option<string>, n: nat) returns (es: seq<Event>)
    requires parse("c") == Some("c")
    ensures IsRun(Open([]), es, parse)
    ensures var c := Final(Open([]), es, parse).conn;
      && c.closeCode.None? && c.refused.None?
      && Resync("c") !in c.accepted
      && c.accepted != [] && c.accepted[|c.accepted| - 1] == Live("c", n)
  {
    ResumeAwaitsReplay(parse);
    var fill := ErrorsFillTheQueue(RESUMING, SEND_QUEUE - 2, parse);
    FullQueueRefusesResync(Final(RESUMING, fill, parse), n, parse);
    RunConcat(RESUMING, fill, RefusedTail(n), parse);
    RunConcat(Open([]), RESUME, fill + RefusedTail(n), parse);
    es := RESUME + (fill + RefusedTail(n));
  }

  lemma DroppedWhileReplaying(n: nat, parse: string -> Option<string>)
    requires parse("c") == Some("c")
    ensures var es := [ReaderUnsubscribe(["c"]), PumpReplay(Complete([n]))];
      && IsRun(RESUMING, es, parse)
      && Final(RESUMING, es, parse).conn.subscribed == {}
      && Final(RESUMING, es, parse).conn.accepted == GREETED.accepted + [Replayed("c", n)]
  {
    var left := Step(RESUMING, ReaderUnsubscribe(["c"]), parse);
    assert Canonical(parse, "c") == "c";
    assert Dropped(parse, ["c"], {"c"}) == ["c"];
    assert OfferReplay(left.conn, "c", [n]) == OfferBus(left.conn, Replayed("c", n));
    TraceIsRun([RESUMING, left, Step(left, PumpReplay(Complete([n])), parse)],
               [ReaderUnsubscribe(["c"]), PumpReplay(Complete([n]))], parse);
  }

  /** A replay still reaches the queue after its channel has been dropped: the filter on
      `subscribed` covers live frames only. */
  lemma ReplayIgnoresAnUnsubscribe(parse: string -> Option<string>, n: nat) returns (es: seq<Event>)
    requires parse("c") == Some("c")
    ensures IsRun(Open([]), es, parse)
    ensures var c := Final(Open([]), es, parse).conn;
      && "c" !in c.subscribed
      && c.accepted != [] && c.accepted[|c.accepted| - 1] == Replayed("c", n)
  {
    ResumeAwaitsReplay(parse);
    DroppedWhileReplaying(n, parse);
    var tail := [ReaderUnsubscribe(["c"]), PumpReplay(Complete([n]))];
    RunConcat(Open([]), RESUME, tail, parse);
    es := RESUME + tail;
  }
}
