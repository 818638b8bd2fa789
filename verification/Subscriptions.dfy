/** Which channels a connection is subscribed to, and what the pump still owes Redis. */
module Subscriptions {
  import opened Wrappers
  import opened Gateway

  function Apply(feed: set<string>, command: Command): set<string> {
    match command
    case Subscribe(names, _) => feed + AsSet(names)
    case Unsubscribe(names) => feed - AsSet(names)
  }

  /** The channels Redis will have been asked for once these commands have run. */
  function Fold(feed: set<string>, commands: seq<Command>): set<string>
    decreases |commands|
  {
    if commands == [] then feed else Fold(Apply(feed, commands[0]), commands[1..])
  }

  /** The feed once the command the pump is in the middle of is finished. */
  function Settled(feed: set<string>, pump: Pump): set<string> {
    match pump
    case Adding(todo, _, _) => feed + AsSet(todo)
    case Dropping(todo, _) => feed - AsSet(todo)
    case _ => feed
  }

  ghost predicate ChannelsInv(g: Gate) {
    && (!g.pump.PumpDone? ==> Fold(Settled(g.feed, g.pump), g.conn.commands) == g.conn.subscribed)
    && |g.conn.subscribed| <= MAX_CHANNELS
    && (g.reader.Authorizing? ==>
          && AsSet(g.reader.order) <= g.conn.subscribed
          && |g.conn.subscribed| + |g.reader.wanted| <= MAX_CHANNELS)
  }

  lemma {:induction false} FoldSnoc(feed: set<string>, commands: seq<Command>, last: Command)
    ensures Fold(feed, commands + [last]) == Apply(Fold(feed, commands), last)
    decreases |commands|
  {
    if commands == [] {
      assert commands + [last] == [last];
    } else {
      assert (commands + [last])[1..] == commands[1..] + [last];
      FoldSnoc(Apply(feed, commands[0]), commands[1..], last);
    }
  }

  lemma {:induction false} AllowedIsShort(verdicts: seq<Option<string>>)
    ensures |Allowed(verdicts)| <= |verdicts|
  {
    if verdicts != [] {
      AllowedIsShort(verdicts[1..]);
    }
  }

  lemma {:induction false} AsSetIsSmall(names: seq<string>)
    ensures |AsSet(names)| <= |names|
  {
    if names != [] {
      AsSetIsSmall(names[1..]);
      AsSetConcat([names[0]], names[1..]);
      assert names == [names[0]] + names[1..];
      assert AsSet([names[0]]) == {names[0]};
    }
  }

  lemma {:induction false} OfferReplayKeepsChannels(c: Conn, channel: string, missed: seq<nat>)
    ensures OfferReplay(c, channel, missed).subscribed == c.subscribed
    ensures OfferReplay(c, channel, missed).commands == c.commands
    decreases |missed|
  {
    if missed != [] {
      OfferReplayKeepsChannels(OfferBus(c, Replayed(channel, missed[0])), channel, missed[1..]);
    }
  }

  lemma {:induction false} RefusalsKeepChannels(c: Conn, verdicts: seq<Option<string>>)
    ensures Refusals(c, verdicts).subscribed == c.subscribed
    ensures Refusals(c, verdicts).commands == c.commands
    decreases |verdicts|
  {
    if verdicts != [] {
      RefusalsKeepChannels(if verdicts[0].None? then Offer(c, Error("forbidden_channel")) else c, verdicts[1..]);
    }
  }

  lemma TakeSettles(feed: set<string>, command: Command)
    ensures Settled(feed, Taking(command)) == Apply(feed, command)
  {
  }

  lemma AddSettles(feed: set<string>, todo: seq<string>, names: seq<string>, since: nat)
    requires todo != []
    ensures Settled(feed + {todo[0]}, AfterAdds(todo[1..], names, since)) == feed + AsSet(todo)
  {
    AsSetConcat([todo[0]], todo[1..]);
    assert todo == [todo[0]] + todo[1..];
  }

  lemma DropSettles(feed: set<string>, todo: seq<string>, names: seq<string>)
    requires todo != []
    ensures Settled(feed - {todo[0]}, AfterDrops(todo[1..], names)) == feed - AsSet(todo)
  {
    AsSetConcat([todo[0]], todo[1..]);
    assert todo == [todo[0]] + todo[1..];
  }

  lemma PumpKeepsChannels(g: Gate, e: Event, parse: string -> Option<string>)
    requires ChannelsInv(g) && Enabled(g, e, parse)
    requires !e.ReaderVerdicts? && !e.ReaderUnsubscribe?
    ensures StepPump(g, e, parse).conn.subscribed == g.conn.subscribed
    ensures ChannelsInv(StepPump(g, e, parse))
  {
    match e
    case PumpTake => TakeSettles(g.feed, g.conn.commands[0]);
    case PumpAdd => AddSettles(g.feed, g.pump.todo, g.pump.names, g.pump.since);
    case PumpDrop => DropSettles(g.feed, g.pump.todo, g.pump.names);
    case PumpReplay(answer) =>
      if answer.Complete? {
        OfferReplayKeepsChannels(g.conn, g.pump.left[0], answer.missed);
      }
    case _ =>
  }

  lemma VerdictsKeepChannels(g: Gate, verdicts: seq<Option<string>>, parse: string -> Option<string>)
    requires ChannelsInv(g) && Enabled(g, ReaderVerdicts(verdicts), parse)
    ensures ChannelsInv(Step(g, ReaderVerdicts(verdicts), parse))
  {
    var c, order, allowed := g.conn, g.reader.order, Allowed(verdicts);
    var last := Subscribe(order + allowed, g.reader.since);
    RefusalsKeepChannels(c, verdicts);
    AsSetConcat(order, allowed);
    FoldSnoc(Settled(g.feed, g.pump), c.commands, last);
    AllowedIsShort(verdicts);
    AsSetIsSmall(allowed);
  }

  lemma LeavingKeepsChannels(g: Gate, names: seq<string>, parse: string -> Option<string>)
    requires ChannelsInv(g) && g.reader.Reading?
    ensures ChannelsInv(Step(g, ReaderUnsubscribe(names), parse))
  {
    var c := g.conn;
    var last := Unsubscribe(Dropped(parse, names, c.subscribed));
    FoldSnoc(Settled(g.feed, g.pump), c.commands, last);
  }

  lemma StepKeepsChannels(g: Gate, e: Event, parse: string -> Option<string>)
    requires ChannelsInv(g) && Enabled(g, e, parse)
    ensures ChannelsInv(Step(g, e, parse))
  {
    match e
    case ReaderVerdicts(verdicts) => VerdictsKeepChannels(g, verdicts, parse);
    case ReaderUnsubscribe(names) => LeavingKeepsChannels(g, names, parse);
    case _ => PumpKeepsChannels(g, e, parse);
  }

  lemma {:induction false} RunKeepsChannels(g: Gate, es: seq<Event>, parse: string -> Option<string>)
    requires ChannelsInv(g) && IsRun(g, es, parse)
    ensures ChannelsInv(Final(g, es, parse))
    decreases |es|
  {
    if es != [] {
      StepKeepsChannels(g, es[0], parse);
      RunKeepsChannels(Step(g, es[0], parse), es[1..], parse);
    }
  }

  lemma ReachedChannels(implicit: seq<string>, es: seq<Event>, parse: string -> Option<string>, g: Gate)
    requires Reaches(implicit, es, parse, g)
    ensures ChannelsInv(g)
  {
    var start := Open(implicit);
    assert Fold({}, start.conn.commands) == Fold(Apply({}, start.conn.commands[0]), []);
    assert {} + AsSet(implicit) == AsSet(implicit);
    RunKeepsChannels(start, es, parse);
  }

  /** The connection holds at most the permitted number of channels, and unless the pump
      has died the commands still to run bring Redis to exactly that set. */
  lemma SubscriptionsAgree(implicit: seq<string>, es: seq<Event>, parse: string -> Option<string>, g: Gate)
    requires Reaches(implicit, es, parse, g)
    ensures |g.conn.subscribed| <= MAX_CHANNELS
    ensures !g.pump.PumpDone? ==> Fold(Settled(g.feed, g.pump), g.conn.commands) == g.conn.subscribed
    ensures g.pump.Polling? && g.conn.commands == [] ==> g.feed == g.conn.subscribed
  {
    ReachedChannels(implicit, es, parse, g);
  }

  /** The frames of a channel that were accepted live. */
  function LiveOf(frames: seq<Frame>, channel: string): seq<Frame> {
    if frames == [] then []
    else
      var front, last := frames[..|frames| - 1], frames[|frames| - 1];
      LiveOf(front, channel) + (if last.Live? && last.channel == channel then [last] else [])
  }

  predicate Rejoins(es: seq<Event>, channel: string)
    decreases |es|
  {
    es != []
    && ((es[0].ReaderVerdicts? && channel in Allowed(es[0].verdicts)) || Rejoins(es[1..], channel))
  }

  lemma LiveOfSnoc(frames: seq<Frame>, f: Frame, channel: string)
    ensures LiveOf(frames + [f], channel)
         == LiveOf(frames, channel) + if f.Live? && f.channel == channel then [f] else []
  {
    assert (frames + [f])[..|frames|] == frames;
  }

  lemma OfferIsSilent(c: Conn, f: Frame, channel: string)
    requires !(f.Live? && f.channel == channel)
    ensures LiveOf(Offer(c, f).accepted, channel) == LiveOf(c.accepted, channel)
    ensures LiveOf(OfferBus(c, f).accepted, channel) == LiveOf(c.accepted, channel)
  {
    LiveOfSnoc(c.accepted, f, channel);
  }

  lemma {:induction false} ReplayIsSilent(c: Conn, channel: string, missed: seq<nat>, other: string)
    ensures LiveOf(OfferReplay(c, channel, missed).accepted, other) == LiveOf(c.accepted, other)
    decreases |missed|
  {
    if missed != [] {
      OfferIsSilent(c, Replayed(channel, missed[0]), other);
      ReplayIsSilent(OfferBus(c, Replayed(channel, missed[0])), channel, missed[1..], other);
    }
  }

  lemma {:induction false} RefusalsAreSilent(c: Conn, verdicts: seq<Option<string>>, other: string)
    ensures LiveOf(Refusals(c, verdicts).accepted, other) == LiveOf(c.accepted, other)
    ensures Refusals(c, verdicts).subscribed == c.subscribed
    decreases |verdicts|
  {
    if verdicts != [] {
      OfferIsSilent(c, Error("forbidden_channel"), other);
      RefusalsAreSilent(if verdicts[0].None? then Offer(c, Error("forbidden_channel")) else c, verdicts[1..], other);
    }
  }

  lemma AnswerIsSilent(c: Conn, channel: string, answer: Answer, other: string)
    ensures ReplayInto(c, channel, answer).subscribed == c.subscribed
    ensures LiveOf(ReplayInto(c, channel, answer).accepted, other) == LiveOf(c.accepted, other)
  {
    if answer.Complete? {
      OfferReplayKeepsChannels(c, channel, answer.missed);
      ReplayIsSilent(c, channel, answer.missed, other);
    } else {
      OfferIsSilent(c, Resync(channel), other);
    }
  }

  lemma PumpIsSilent(g: Gate, e: Event, parse: string -> Option<string>, channel: string)
    requires Enabled(g, e, parse) && channel !in g.conn.subscribed
    ensures StepPump(g, e, parse).conn.subscribed == g.conn.subscribed
    ensures LiveOf(StepPump(g, e, parse).conn.accepted, channel) == LiveOf(g.conn.accepted, channel)
  {
    var c := g.conn;
    match e
    case PumpReplay(answer) => AnswerIsSilent(c, g.pump.left[0], answer, channel);
    case PumpLive(other, n) =>
      if other != channel {
        OfferIsSilent(c, Live(other, n), channel);
      }
    case PumpAck => OfferIsSilent(c, Subscribed(g.pump.names), channel);
    case PumpUnack => OfferIsSilent(c, Unsubscribed(g.pump.names), channel);
    case _ =>
  }

  lemma ReaderIsSilent(g: Gate, e: Event, parse: string -> Option<string>, channel: string)
    requires Enabled(g, e, parse) && channel !in g.conn.subscribed
    requires !(e.ReaderVerdicts? && channel in Allowed(e.verdicts))
    ensures channel !in StepReader(g, e, parse).conn.subscribed
    ensures LiveOf(StepReader(g, e, parse).conn.accepted, channel) == LiveOf(g.conn.accepted, channel)
  {
    var c := g.conn;
    match e
    case ReaderRefuse(code) => OfferIsSilent(c, Error(code), channel);
    case ReaderFlood => OfferIsSilent(c, Error("rate_limited"), channel);
    case ReaderSubscribe(_, _, _) => OfferIsSilent(c, Error("forbidden_channel"), channel);
    case ReaderVerdicts(verdicts) => RefusalsAreSilent(c, verdicts, channel);
    case _ =>
  }

  ghost predicate Silent(g: Gate, g': Gate, channel: string) {
    channel !in g'.conn.subscribed && LiveOf(g'.conn.accepted, channel) == LiveOf(g.conn.accepted, channel)
  }

  lemma StepIsSilent(g: Gate, e: Event, parse: string -> Option<string>, channel: string)
    requires Enabled(g, e, parse) && channel !in g.conn.subscribed
    requires !(e.ReaderVerdicts? && channel in Allowed(e.verdicts))
    ensures Silent(g, Step(g, e, parse), channel)
  {
    PumpIsSilent(g, e, parse, channel);
    ReaderIsSilent(g, e, parse, channel);
  }

  /** From the moment the reader drops a channel no live frame of it is accepted, however
      long Redis goes on delivering, until a subscribe to it is authorized again. */
  lemma {:induction false} DroppedChannelIsSilent(g: Gate, es: seq<Event>, parse: string -> Option<string>,
                                                  channel: string)
    requires IsRun(g, es, parse)
    requires channel !in g.conn.subscribed && !Rejoins(es, channel)
    ensures Silent(g, Final(g, es, parse), channel)
    decreases |es|
  {
    if es != [] {
      StepIsSilent(g, es[0], parse, channel);
      DroppedChannelIsSilent(Step(g, es[0], parse), es[1..], parse, channel);
    }
  }

  /** What an unsubscribe removes: the requested channels that were subscribed. */
  lemma {:induction false} DroppedIsTheIntersection(parse: string -> Option<string>, names: seq<string>,
                                                    subscribed: set<string>)
    ensures AsSet(Dropped(parse, names, subscribed))
         == subscribed * (set n | n in names :: Canonical(parse, n))
    decreases |names|
  {
    if names != [] {
      var n := Canonical(parse, names[0]);
      var rest := subscribed - {n};
      assert names == [names[0]] + names[1..];
      if n in subscribed {
        DroppedIsTheIntersection(parse, names[1..], rest);
        AsSetConcat([n], Dropped(parse, names[1..], rest));
      } else {
        DroppedIsTheIntersection(parse, names[1..], subscribed);
      }
    }
  }
}
