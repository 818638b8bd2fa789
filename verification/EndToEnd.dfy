/** The bus and the gateway together, for one channel of one connection: the pump's SUBSCRIBE,
    LRANGE and GET are the bus's, and what it polls is what the bus delivered. */
module EndToEnd {
  import opened Wrappers
  import Bus
  import opened Gateway
  import opened Backpressure
  import opened Subscriptions
  import GatewayGaps

  // ---------------------------------------------------------------- the joint machine

  /** `taken` is how many of the frames that pub/sub delivered the pump has polled. `left` are
      frames delivered for earlier subscriptions, which the pump polls first, `drained` how many
      of them it has polled, and `leftLife` the counter's life when the oldest of those
      subscriptions was made. A session begins where the pump subscribes the channel or reads its
      log: `mark` is how many frames the queue had accepted by then, and `kept` says that the
      reader has not dropped the channel since. When a replay is answered "refetch", `answered`
      is how many frames had been accepted and `told` whether there was room for the resync. */
  datatype Joint = Joint(bus: Bus.Sys, gate: Gate, left: seq<Bus.Frame>, drained: nat, leftLife: nat, taken: nat,
                         mark: nat, kept: bool, answered: nat, told: bool)

  /** Publishers and time, the steps of the gateway that do not concern the channel's bus
      traffic, and those that do. */
  datatype Event =
    | Publishing(step: Bus.Event)
    | Elsewhere(other: Gateway.Event)
    | Add
    | Range
    | Answer
    | Raise
    | Poll
    | Drop

  /** The gateway's step concerns the channel's subscription, replay or live frames. */
  predicate Concerns(g: Gate, e: Gateway.Event, channel: string, parse: string -> Option<string>)
    requires Gateway.Enabled(g, e, parse)
  {
    match e
    case PumpAdd => g.pump.todo[0] == channel
    case PumpDrop => g.pump.todo[0] == channel
    case PumpReplay(_) => g.pump.left[0] == channel
    case PumpLive(name, _) => name == channel
    case _ => false
  }

  predicate Enabled(j: Joint, e: Event, channel: string, parse: string -> Option<string>) {
    var g, c := j.gate, j.bus.client;
    match e
    case Publishing(b) => (b.Tick? || b.Incr? || b.Touch? || b.Exec? || b.Crash?) && Bus.Enabled(j.bus, b)
    case Elsewhere(b) => Gateway.Enabled(g, b, parse) && !Concerns(g, b, channel, parse)
    case Add => g.pump.Adding? && g.pump.todo != [] && g.pump.todo[0] == channel
    case Range => GatewayGaps.Answering(g, channel) && !c.Away? && !c.Ranged? && j.taken <= |c.live|
    case Answer => GatewayGaps.Answering(g, channel) && c.Ranged?
    case Raise => GatewayGaps.Answering(g, channel) && !c.Away? && j.taken <= |c.live|
    case Poll => g.pump.Polling? && (j.drained < |j.left| || (!c.Away? && j.taken < |c.live|))
    case Drop =>
      && g.pump.Dropping? && g.pump.todo != [] && g.pump.todo[0] == channel
      && (!c.Away? ==> j.taken <= |c.live|)
  }

  /** What is still to be polled of earlier subscriptions. */
  function Unpolled(j: Joint): seq<Bus.Frame> {
    if j.drained <= |j.left| then j.left[j.drained..] else []
  }

  /** The next frame that the pump polls. */
  function Next(j: Joint): Bus.Frame
    requires j.drained < |j.left| || (!j.bus.client.Away? && j.taken < |j.bus.client.live|)
  {
    if j.drained < |j.left| then j.left[j.drained] else j.bus.client.live[j.taken]
  }

  /** A session begins here, on a bus where the client has just begun to listen. */
  function Begun(j: Joint, bus: Bus.Sys, channel: string): Joint {
    j.(bus := bus, left := Unpolled(j), drained := 0, taken := 0,
       mark := |j.gate.conn.accepted|, kept := channel in j.gate.conn.subscribed)
  }

  /** The client resumes from the point its subscribe gave, with the frames not yet polled. */
  function Resuming(j: Joint): Bus.Event
    requires j.gate.pump.Replaying?
  {
    Bus.Resume(j.gate.pump.since, j.taken)
  }

  function Numbers(frames: seq<Bus.Frame>): (r: seq<nat>)
    ensures |r| == |frames| && forall i :: 0 <= i < |frames| ==> r[i] == frames[i].seqNo
  {
    seq(|frames|, i requires 0 <= i < |frames| => frames[i].seqNo)
  }

  /** What `replay` came back with. */
  function AnswerOf(c: Bus.Client): Gateway.Answer
    requires c.Resumed?
  {
    if c.complete then Complete(Numbers(c.missed)) else Refetch
  }

  function Answered(j: Joint, bus: Bus.Sys, parse: string -> Option<string>): Joint
    requires bus.client.Resumed? && Gateway.Enabled(j.gate, PumpReplay(AnswerOf(bus.client)), parse)
  {
    j.(bus := bus, gate := Gateway.Step(j.gate, PumpReplay(AnswerOf(bus.client)), parse),
       answered := |j.gate.conn.accepted|, told := |j.gate.conn.outbound| < SEND_QUEUE)
  }

  function Step(j: Joint, e: Event, channel: string, parse: string -> Option<string>): Joint
    requires Enabled(j, e, channel, parse)
  {
    match e
    case Publishing(b) => j.(bus := Bus.Step(j.bus, b))
    case Elsewhere(b) =>
      var g := Gateway.Step(j.gate, b, parse);
      j.(gate := g, kept := j.kept && channel in g.conn.subscribed)
    case Add =>
      var added := j.(gate := Gateway.Step(j.gate, PumpAdd, parse));
      if !j.bus.client.Away? then added
      else Begun(added, Bus.Step(j.bus, Bus.Subscribe(j.gate.pump.since)), channel)
    case Range => Begun(j, Bus.Step(Bus.Step(j.bus, Resuming(j)), Bus.Lrange), channel)
    case Answer => Answered(j, Bus.Step(j.bus, Bus.GetCounter), parse)
    case Raise =>
      if j.bus.client.Ranged? then Answered(j, Bus.Step(j.bus, Bus.ReplayRaises), parse)
      else
        var begun := Begun(j, Bus.Step(j.bus, Resuming(j)), channel);
        Answered(begun, Bus.Step(begun.bus, Bus.ReplayRaises), parse)
    case Poll =>
      var polled := j.(gate := Gateway.Step(j.gate, PumpLive(channel, Next(j).seqNo), parse));
      if j.drained < |j.left| then polled.(drained := j.drained + 1) else polled.(taken := j.taken + 1)
    case Drop =>
      var dropped := j.(gate := Gateway.Step(j.gate, PumpDrop, parse));
      if j.bus.client.Away? then dropped else Left(dropped)
  }

  /** UNSUBSCRIBE: what pub/sub has delivered stays to be polled. */
  function Left(j: Joint): Joint
    requires !j.bus.client.Away? && j.taken <= |j.bus.client.live|
  {
    j.(bus := Bus.Step(j.bus, Bus.Unsubscribe), left := Unpolled(j) + j.bus.client.live[j.taken..], drained := 0,
       leftLife := if Unpolled(j) == [] then j.bus.client.life else j.leftLife, taken := 0)
  }

  /** What the bus's environment owes, for the bus steps that this one takes. */
  ghost predicate Sound(j: Joint, e: Event, channel: string, parse: string -> Option<string>)
    requires Enabled(j, e, channel, parse)
  {
    match e
    case Publishing(b) => Bus.Sound(j.bus, b)
    case Answer => Bus.Sound(j.bus, Bus.GetCounter)
    case _ => true
  }

  function Open(implicit: seq<string>): Joint {
    Joint(Bus.Start, Gateway.Open(implicit), [], 0, 0, 0, 0, false, 0, false)
  }

  ghost predicate IsRun(j: Joint, es: seq<Event>, channel: string, parse: string -> Option<string>)
    decreases |es|
  {
    es == [] ||
    (&& Enabled(j, es[0], channel, parse) && Sound(j, es[0], channel, parse)
     && IsRun(Step(j, es[0], channel, parse), es[1..], channel, parse))
  }

  ghost function Final(j: Joint, es: seq<Event>, channel: string, parse: string -> Option<string>): Joint
    requires IsRun(j, es, channel, parse)
    decreases |es|
  {
    if es == [] then j else Final(Step(j, es[0], channel, parse), es[1..], channel, parse)
  }

  ghost predicate Reaches(implicit: seq<string>, es: seq<Event>, channel: string, parse: string -> Option<string>,
                          j: Joint) {
    IsRun(Open(implicit), es, channel, parse) && Final(Open(implicit), es, channel, parse) == j
  }

  /** Every SUBSCRIBE and UNSUBSCRIBE of the pump is a step of this machine, whichever channel it is
      for, and those for the channel are the bus's as well. */
  lemma PumpStepsAreCovered(j: Joint, channel: string, parse: string -> Option<string>)
    requires !j.bus.client.Away? ==> j.taken <= |j.bus.client.live|
    ensures Gateway.Enabled(j.gate, PumpAdd, parse) ==>
              var e := if j.gate.pump.todo[0] == channel then Add else Elsewhere(PumpAdd);
              && Enabled(j, e, channel, parse)
              && Step(j, e, channel, parse).gate == Gateway.Step(j.gate, PumpAdd, parse)
              && (e.Add? ==> !Step(j, e, channel, parse).bus.client.Away?)
    ensures Gateway.Enabled(j.gate, PumpDrop, parse) ==>
              var e := if j.gate.pump.todo[0] == channel then Drop else Elsewhere(PumpDrop);
              && Enabled(j, e, channel, parse)
              && Step(j, e, channel, parse).gate == Gateway.Step(j.gate, PumpDrop, parse)
              && (e.Drop? ==> Step(j, e, channel, parse).bus.client.Away?)
  {
  }

  // ---------------------------------------------------------------- numbers on the way

  predicate Numbered(f: Gateway.Frame, channel: string) {
    (f.Live? || f.Replayed?) && f.channel == channel
  }

  /** The numbers of the bus frames of a channel, live or replayed. */
  function NumbersOn(frames: seq<Gateway.Frame>, channel: string): seq<nat> {
    if frames == [] then []
    else
      var front, last := frames[..|frames| - 1], frames[|frames| - 1];
      NumbersOn(front, channel) + (if Numbered(last, channel) then [last.seqNo] else [])
  }

  lemma {:induction false} NumbersAppend(a: seq<Gateway.Frame>, b: seq<Gateway.Frame>, channel: string)
    ensures NumbersOn(a + b, channel) == NumbersOn(a, channel) + NumbersOn(b, channel)
    decreases |b|
  {
    if b == [] {
      assert a + b == a;
    } else {
      var front, last := b[..|b| - 1], b[|b| - 1];
      NumbersAppend(a, front, channel);
      assert (a + b)[..|a + b| - 1] == a + front && (a + b)[|a + b| - 1] == last;
    }
  }

  lemma {:induction false} NoNumbers(frames: seq<Gateway.Frame>, channel: string)
    requires forall i :: 0 <= i < |frames| ==> !Numbered(frames[i], channel)
    ensures NumbersOn(frames, channel) == []
  {
    if frames != [] {
      NoNumbers(frames[..|frames| - 1], channel);
    }
  }

  lemma OneNumber(f: Gateway.Frame, channel: string)
    ensures NumbersOn([f], channel) == if Numbered(f, channel) then [f.seqNo] else []
  {
    assert [f][..0] == [] && NumbersOn([], channel) == [];
  }

  /** How much of what the queue took counts: up to the first bus frame it turned away. */
  function Upto(c: Conn): nat {
    if c.refused.Some? && c.refused.value <= |c.accepted| then c.refused.value else |c.accepted|
  }

  /** The channel's numbers the queue took in this session. */
  function Part(c: Conn, mark: nat, channel: string): seq<nat> {
    if mark <= Upto(c) then NumbersOn(c.accepted[mark..Upto(c)], channel) else []
  }

  /** What a complete replay gave the session. */
  function Replay(c: Bus.Client): seq<Bus.Frame> {
    if c.Resumed? && c.complete then c.missed else []
  }

  /** All that the bus has for the session: the replay, what earlier subscriptions had left, and
      what has come live. */
  function Stream(j: Joint): seq<Bus.Frame>
    requires !j.bus.client.Away?
  {
    Replay(j.bus.client) + j.left + j.bus.client.live
  }

  ghost predicate InOrder(j: Joint)
    requires !j.bus.client.Away?
  {
    j.drained <= |j.left| && j.taken <= |j.bus.client.live| && (j.drained < |j.left| ==> j.taken == 0)
  }

  /** How much of it the pump has come by. */
  function Shown(j: Joint): seq<Bus.Frame>
    requires !j.bus.client.Away? && j.drained <= |j.left| && j.taken <= |j.bus.client.live|
  {
    Replay(j.bus.client) + j.left[..j.drained] + j.bus.client.live[..j.taken]
  }

  // ---------------------------------------------------------------- the invariant

  /** What the queue took in this session is what the bus offered, up to a refusal. */
  ghost predicate Passes(j: Joint, channel: string)
    requires !j.bus.client.Away? && InOrder(j)
  {
    var part, shown := Part(j.gate.conn, j.mark, channel), Numbers(Shown(j));
    if j.gate.conn.refused.None? then part == shown else part <= shown
  }

  /** The resync of an answer to refetch is in its place. */
  ghost predicate Told(j: Joint, channel: string) {
    var accepted := j.gate.conn.accepted;
    && j.mark <= j.answered <= |accepted|
    && NumbersOn(accepted[j.mark..j.answered], channel) == []
    && (j.told ==> j.answered < |accepted| && accepted[j.answered] == Resync(channel))
  }

  ghost predicate SessionInv(j: Joint, channel: string)
    requires !j.bus.client.Away?
  {
    var c := j.bus.client;
    && InOrder(j) && j.mark <= |j.gate.conn.accepted|
    && (j.kept ==> channel in j.gate.conn.subscribed && Passes(j, channel))
    && (c.Ranged? ==>
          && (GatewayGaps.Answering(j.gate, channel) || j.gate.pump.PumpDone?)
          && j.drained == j.taken == 0 && NumbersOn(j.gate.conn.accepted[j.mark..], channel) == [])
    && (c.Resumed? && !c.complete ==> Told(j, channel))
  }

  /** Frames of the counter's life, in order, published before the session began. */
  ghost predicate LeftInv(j: Joint) {
    var c := j.bus.client;
    && j.drained <= |j.left|
    && (j.left != [] ==> j.leftLife <= if c.Away? then j.bus.life else c.life)
    && (j.left != [] && j.leftLife == j.bus.life ==>
          && (!c.Away? ==> c.base <= |j.bus.published|)
          && IsFrom(j.left, if c.Away? then j.bus.published else j.bus.published[..c.base]))
  }

  ghost predicate IsFrom(left: seq<Bus.Frame>, frames: seq<Bus.Frame>) {
    Bus.Increasing(left) && forall f :: f in left ==> f in frames
  }

  ghost predicate Inv(j: Joint, channel: string) {
    && Bus.Inv(j.bus) && WireInv(j.gate) && LeftInv(j)
    && (!j.bus.client.Away? ==> SessionInv(j, channel))
  }

  function IsNumbered(channel: string): Gateway.Frame -> bool {
    (f: Gateway.Frame) => Numbered(f, channel)
  }

  /** The queue took nothing of the channel. */
  ghost predicate Quiet(c: Conn, c': Conn, channel: string) {
    && GatewayGaps.GrowsWithout(c, c', IsNumbered(channel))
    && (c.refused.Some? ==> c'.refused == c.refused)
    && (c.refused.None? && c'.refused.Some? ==> |c.accepted| <= c'.refused.value <= |c'.accepted|)
  }

  lemma QuietTail(c: Conn, c': Conn, channel: string, mark: nat, upto: nat)
    requires GatewayGaps.GrowsWithout(c, c', IsNumbered(channel)) && mark <= |c.accepted| <= upto <= |c'.accepted|
    ensures NumbersOn(c'.accepted[mark..upto], channel) == NumbersOn(c.accepted[mark..], channel)
  {
    var tail := c'.accepted[|c.accepted|..upto];
    assert c'.accepted[mark..upto] == c.accepted[mark..] + tail;
    NumbersAppend(c.accepted[mark..], tail, channel);
    NoNumbers(tail, channel);
  }

  lemma QuietKeepsPart(c: Conn, c': Conn, channel: string, mark: nat)
    requires Quiet(c, c', channel) && mark <= |c.accepted|
    requires c.refused.Some? ==> c.refused.value <= |c.accepted|
    ensures Part(c', mark, channel) == Part(c, mark, channel)
  {
    if c.refused.None? {
      QuietTail(c, c', channel, mark, Upto(c'));
      assert c.accepted[mark..|c.accepted|] == c.accepted[mark..];
    } else if c.refused.value <= |c.accepted| && mark <= Upto(c) {
      assert c'.accepted[mark..Upto(c)] == c.accepted[mark..Upto(c)];
    }
  }

  /** A step that is not the channel's, or that brings none of its frames. */
  lemma GateIsQuiet(g: Gate, e: Gateway.Event, channel: string, parse: string -> Option<string>)
    requires WireInv(g) && Gateway.Enabled(g, e, parse)
    requires Concerns(g, e, channel, parse) ==> e.PumpAdd? || e.PumpDrop? || e == PumpReplay(Refetch)
    ensures WireInv(Gateway.Step(g, e, parse)) && Quiet(g.conn, Gateway.Step(g, e, parse).conn, channel)
  {
    StepKeepsWire(g, e, parse);
    StepGrows(g, e, parse);
    GatewayGaps.StepGrowsWithout(g, e, parse, IsNumbered(channel));
  }

  lemma QuietKeepsPasses(j: Joint, j': Joint, channel: string)
    requires !j.bus.client.Away? && InOrder(j) && Passes(j, channel)
    requires j' == j.(gate := j'.gate, kept := j'.kept, answered := j'.answered, told := j'.told)
    requires Quiet(j.gate.conn, j'.gate.conn, channel) && j.mark <= |j.gate.conn.accepted|
    requires j.gate.conn.refused.Some? ==> j.gate.conn.refused.value <= |j.gate.conn.accepted|
    ensures Passes(j', channel)
  {
    QuietKeepsPart(j.gate.conn, j'.gate.conn, channel, j.mark);
  }

  lemma ToldStays(j: Joint, j': Joint, channel: string)
    requires Told(j, channel) && j.gate.conn.accepted <= j'.gate.conn.accepted
    requires j'.mark == j.mark && j'.answered == j.answered && j'.told == j.told
    ensures Told(j', channel)
  {
    assert j'.gate.conn.accepted[j.mark..j.answered] == j.gate.conn.accepted[j.mark..j.answered];
  }

  lemma AnsweringStays(g: Gate, e: Gateway.Event, channel: string, parse: string -> Option<string>)
    requires Gateway.Enabled(g, e, parse) && !Concerns(g, e, channel, parse)
    requires GatewayGaps.Answering(g, channel) || g.pump.PumpDone?
    ensures var h := Gateway.Step(g, e, parse); GatewayGaps.Answering(h, channel) || h.pump.PumpDone?
  {
  }

  lemma QuietStaysEmpty(c: Conn, c': Conn, channel: string, mark: nat)
    requires Quiet(c, c', channel) && mark <= |c.accepted| && NumbersOn(c.accepted[mark..], channel) == []
    ensures NumbersOn(c'.accepted[mark..], channel) == []
  {
    QuietTail(c, c', channel, mark, |c'.accepted|);
    assert c'.accepted[mark..|c'.accepted|] == c'.accepted[mark..];
  }

  lemma ElsewhereKeeps(j: Joint, e: Gateway.Event, channel: string, parse: string -> Option<string>)
    requires Inv(j, channel) && Enabled(j, Elsewhere(e), channel, parse)
    ensures Inv(Step(j, Elsewhere(e), channel, parse), channel)
  {
    var j' := Step(j, Elsewhere(e), channel, parse);
    GateIsQuiet(j.gate, e, channel, parse);
    if !j.bus.client.Away? {
      if j'.kept {
        QuietKeepsPasses(j, j', channel);
      }
      if j.bus.client.Ranged? {
        AnsweringStays(j.gate, e, channel, parse);
        QuietStaysEmpty(j.gate.conn, j'.gate.conn, channel, j.mark);
      }
      if j.bus.client.Resumed? && !j.bus.client.complete {
        ToldStays(j, j', channel);
      }
    }
  }

  lemma PublishingKeeps(j: Joint, e: Bus.Event, channel: string, parse: string -> Option<string>)
    requires Inv(j, channel) && Enabled(j, Publishing(e), channel, parse) && Bus.Sound(j.bus, e)
    ensures Inv(Step(j, Publishing(e), channel, parse), channel)
  {
    var j' := Step(j, Publishing(e), channel, parse);
    Bus.StepKeepsInv(j.bus, e);
    var c, c' := j.bus.client, j'.bus.client;
    PublishingKeepsLeft(j, e);
    if !c.Away? {
      assert c'.live[..j.taken] == c.live[..j.taken];
      assert Shown(j') == Shown(j);
    }
  }

  lemma PublishingKeepsLeft(j: Joint, e: Bus.Event)
    requires Bus.Inv(j.bus) && LeftInv(j)
    requires (e.Tick? || e.Incr? || e.Touch? || e.Exec? || e.Crash?) && Bus.Enabled(j.bus, e)
    ensures LeftInv(j.(bus := Bus.Step(j.bus, e)))
  {
    var c, published, published' := j.bus.client, j.bus.published, Bus.Step(j.bus, e).published;
    if !c.Away? && e.Exec? && c.base <= |published| {
      assert published'[..c.base] == published[..c.base];
    }
  }

  /** A session has just begun. */
  lemma BeginningPasses(j: Joint, bus: Bus.Sys, channel: string)
    requires j.drained <= |j.left| && !bus.client.Away? && (bus.client.Resumed? ==> !bus.client.complete)
    ensures Passes(Begun(j, bus, channel), channel)
  {
    var c := j.gate.conn;
    assert |c.accepted| <= Upto(c) ==> c.accepted[|c.accepted|..Upto(c)] == [];
    assert Shown(Begun(j, bus, channel)) == [];
  }

  /** What is unpolled is unpolled of a client that subscribes, or resumes. */
  lemma BeginningKeepsLeft(j: Joint, bus: Bus.Sys, channel: string)
    requires LeftInv(j) && !bus.client.Away? && bus.published == j.bus.published && bus.life == j.bus.life
    requires if j.bus.client.Away? then bus.client.life == bus.life && bus.client.base == |bus.published|
      else InOrder(j) && bus.client.life == j.bus.client.life && bus.client.base == j.bus.client.base + j.taken
    ensures LeftInv(Begun(j, bus, channel))
  {
    var left := Unpolled(j);
    assert bus.published[..|bus.published|] == bus.published;
    assert forall f :: f in left ==> f in j.left;
    if left != [] && j.leftLife == j.bus.life {
      assert Bus.Increasing(left);
    }
  }

  lemma AddKeeps(j: Joint, channel: string, parse: string -> Option<string>)
    requires Inv(j, channel) && Enabled(j, Add, channel, parse) && Sound(j, Add, channel, parse)
    ensures Inv(Step(j, Add, channel, parse), channel)
  {
    var added := j.(gate := Gateway.Step(j.gate, PumpAdd, parse));
    StepKeepsWire(j.gate, PumpAdd, parse);
    if j.bus.client.Away? {
      Bus.StepKeepsInv(j.bus, Bus.Subscribe(j.gate.pump.since));
      BeginningPasses(added, Bus.Step(j.bus, Bus.Subscribe(j.gate.pump.since)), channel);
      BeginningKeepsLeft(added, Bus.Step(j.bus, Bus.Subscribe(j.gate.pump.since)), channel);
    }
  }

  lemma RangeKeeps(j: Joint, channel: string, parse: string -> Option<string>)
    requires Inv(j, channel) && Enabled(j, Range, channel, parse) && Sound(j, Range, channel, parse)
    ensures Inv(Step(j, Range, channel, parse), channel)
  {
    var bus := Bus.Step(j.bus, Resuming(j));
    Bus.StepKeepsInv(j.bus, Resuming(j));
    Bus.StepKeepsInv(bus, Bus.Lrange);
    BeginningPasses(j, Bus.Step(bus, Bus.Lrange), channel);
    BeginningKeepsLeft(j, Bus.Step(bus, Bus.Lrange), channel);
    assert j.gate.conn.accepted[|j.gate.conn.accepted|..] == [];
  }

  lemma DropKeeps(j: Joint, channel: string, parse: string -> Option<string>)
    requires Inv(j, channel) && Enabled(j, Drop, channel, parse)
    ensures Inv(Step(j, Drop, channel, parse), channel)
  {
    StepKeepsWire(j.gate, PumpDrop, parse);
    if !j.bus.client.Away? {
      Bus.StepKeepsInv(j.bus, Bus.Unsubscribe);
      DropKeepsLeft(j);
    }
  }

  lemma DropKeepsLeft(j: Joint)
    requires Bus.Inv(j.bus) && LeftInv(j) && !j.bus.client.Away? && InOrder(j)
    ensures LeftInv(Left(j))
  {
    var c, published, unpolled := j.bus.client, j.bus.published, Unpolled(j);
    if Left(j).left != [] && Left(j).leftLife == j.bus.life {
      assert c.live == published[c.base..];
      assert c.live[j.taken..] == published[c.base + j.taken..];
      if unpolled != [] {
        assert forall f :: f in unpolled ==> f in j.left;
        LaterAfter(unpolled, published, c.base);
        assert c.live[j.taken..] == published[c.base..];
      } else {
        assert unpolled + c.live[j.taken..] == c.live[j.taken..];
      }
    }
  }

  /** Frames from the first part, then the second part. */
  lemma LaterAfter(left: seq<Bus.Frame>, published: seq<Bus.Frame>, base: nat)
    requires Bus.Increasing(published) && base <= |published| && IsFrom(left, published[..base])
    ensures IsFrom(left + published[base..], published)
  {
    var later := published[base..];
    forall i, k | 0 <= i < |left| && 0 <= k < |later| ensures left[i].seqNo < later[k].seqNo {
      assert left[i] in published[..base];
    }
  }

  // ---------------------------------------------------------------- offering the channel's frames

  /** What one bus frame of the channel adds. */
  lemma OfferAdds(c: Conn, f: Gateway.Frame, channel: string, mark: nat)
    requires Numbered(f, channel) && mark <= |c.accepted|
    requires c.refused.Some? ==> c.refused.value <= |c.accepted|
    ensures var c' := OfferBus(c, f);
      if c'.refused.None? then Part(c', mark, channel) == Part(c, mark, channel) + [f.seqNo]
      else Part(c', mark, channel) == Part(c, mark, channel) && c'.refused.value <= |c'.accepted|
  {
    var c' := OfferBus(c, f);
    if c'.refused.None? {
      assert c'.accepted[mark..|c'.accepted|] == c.accepted[mark..|c.accepted|] + [f];
      NumbersAppend(c.accepted[mark..|c.accepted|], [f], channel);
      OneNumber(f, channel);
    } else if mark <= Upto(c') {
      assert c'.accepted[mark..Upto(c')] == c.accepted[mark..Upto(c')];
    }
  }

  /** What the channel's replay adds: all of it, or a beginning of it up to a refusal. */
  lemma {:induction false} ReplayAdds(c: Conn, channel: string, missed: seq<nat>, mark: nat)
    requires mark <= |c.accepted| && (c.refused.Some? ==> c.refused.value <= |c.accepted|)
    ensures var c', part := OfferReplay(c, channel, missed), Part(c, mark, channel);
      && mark <= |c'.accepted|
      && (if c.refused.Some? then c'.refused.Some? && Part(c', mark, channel) == part
          else if c'.refused.None? then Part(c', mark, channel) == part + missed
          else part <= Part(c', mark, channel) <= part + missed)
    decreases |missed|
  {
    if missed != [] {
      var f := Replayed(channel, missed[0]);
      OfferAdds(c, f, channel, mark);
      if |c.outbound| < SEND_QUEUE {
        ReplayAdds(OfferBus(c, f), channel, missed[1..], mark);
        assert missed == [missed[0]] + missed[1..];
        var part := Part(c, mark, channel);
        assert part + missed == (part + [missed[0]]) + missed[1..];
      }
    }
  }

  lemma NumbersOfConcat(a: seq<Bus.Frame>, b: seq<Bus.Frame>)
    ensures Numbers(a + b) == Numbers(a) + Numbers(b)
  {
  }

  lemma PollShows(j: Joint, channel: string, parse: string -> Option<string>)
    requires !j.bus.client.Away? && InOrder(j) && Enabled(j, Poll, channel, parse)
    ensures InOrder(Step(j, Poll, channel, parse))
    ensures Numbers(Shown(Step(j, Poll, channel, parse))) == Numbers(Shown(j)) + [Next(j).seqNo]
  {
    var j', c := Step(j, Poll, channel, parse), j.bus.client;
    if j.drained < |j.left| {
      assert j.left[..j.drained + 1] == j.left[..j.drained] + [Next(j)];
      assert c.live[..0] == [];
    } else {
      assert c.live[..j.taken + 1] == c.live[..j.taken] + [Next(j)];
    }
    assert Shown(j') == Shown(j) + [Next(j)];
    NumbersOfConcat(Shown(j), [Next(j)]);
  }

  lemma PollOffers(j: Joint, channel: string, parse: string -> Option<string>)
    requires Enabled(j, Poll, channel, parse) && channel in j.gate.conn.subscribed
    ensures var conn := Step(j, Poll, channel, parse).gate.conn;
      conn == OfferBus(j.gate.conn, Live(channel, Next(j).seqNo)) && conn.subscribed == j.gate.conn.subscribed
  {
  }

  lemma PollPasses(j: Joint, channel: string, parse: string -> Option<string>)
    requires Inv(j, channel) && Enabled(j, Poll, channel, parse) && !j.bus.client.Away? && j.kept
    ensures InOrder(Step(j, Poll, channel, parse))
    ensures channel in Step(j, Poll, channel, parse).gate.conn.subscribed
    ensures Passes(Step(j, Poll, channel, parse), channel)
  {
    PollOffers(j, channel, parse);
    OfferAdds(j.gate.conn, Live(channel, Next(j).seqNo), channel, j.mark);
    PollShows(j, channel, parse);
  }

  lemma PollKeeps(j: Joint, channel: string, parse: string -> Option<string>)
    requires Inv(j, channel) && Enabled(j, Poll, channel, parse)
    ensures Inv(Step(j, Poll, channel, parse), channel)
  {
    var e := PumpLive(channel, Next(j).seqNo);
    StepKeepsWire(j.gate, e, parse);
    StepGrows(j.gate, e, parse);
    if !j.bus.client.Away? && j.kept {
      PollPasses(j, channel, parse);
    }
    if j.bus.client.Resumed? && !j.bus.client.complete {
      ToldStays(j, Step(j, Poll, channel, parse), channel);
    }
  }

  /** Before the answer the session has had nothing of the channel. */
  lemma NothingYet(j: Joint, channel: string)
    requires j.mark <= |j.gate.conn.accepted| && NumbersOn(j.gate.conn.accepted[j.mark..], channel) == []
    ensures Part(j.gate.conn, j.mark, channel) == []
  {
    var c := j.gate.conn;
    if j.mark <= Upto(c) {
      assert c.accepted[j.mark..] == c.accepted[j.mark..Upto(c)] + c.accepted[Upto(c)..];
      NumbersAppend(c.accepted[j.mark..Upto(c)], c.accepted[Upto(c)..], channel);
    }
  }

  lemma CompleteAnswerKeeps(j: Joint, channel: string, parse: string -> Option<string>)
    requires Inv(j, channel) && Enabled(j, Answer, channel, parse) && Sound(j, Answer, channel, parse)
    requires Bus.Step(j.bus, Bus.GetCounter).client.complete
    ensures Inv(Step(j, Answer, channel, parse), channel)
  {
    var j' := Step(j, Answer, channel, parse);
    var c' := j'.bus.client;
    Bus.StepKeepsInv(j.bus, Bus.GetCounter);
    StepKeepsWire(j.gate, PumpReplay(AnswerOf(c')), parse);
    StepGrows(j.gate, PumpReplay(AnswerOf(c')), parse);
    OfferReplayKeepsChannels(j.gate.conn, channel, Numbers(c'.missed));
    NothingYet(j, channel);
    ReplayAdds(j.gate.conn, channel, Numbers(c'.missed), j.mark);
    assert Shown(j') == c'.missed;
  }

  /** An answer to refetch, whether the replay came back so or raised. */
  lemma RefetchKeeps(j: Joint, bus: Bus.Sys, channel: string, parse: string -> Option<string>)
    requires WireInv(j.gate) && Bus.Inv(bus) && LeftInv(j.(bus := bus)) && GatewayGaps.Answering(j.gate, channel)
    requires bus.client.Resumed? && !bus.client.complete
    requires j.drained == j.taken == 0 && j.mark <= |j.gate.conn.accepted|
    requires NumbersOn(j.gate.conn.accepted[j.mark..], channel) == []
    requires j.kept ==> channel in j.gate.conn.subscribed
    ensures Inv(Answered(j, bus, parse), channel)
  {
    var j' := Answered(j, bus, parse);
    GateIsQuiet(j.gate, PumpReplay(Refetch), channel, parse);
    NothingYet(j, channel);
    QuietKeepsPart(j.gate.conn, j'.gate.conn, channel, j.mark);
    RefetchTold(j, bus, channel, parse);
    assert Shown(j') == [];
  }

  lemma RefetchTold(j: Joint, bus: Bus.Sys, channel: string, parse: string -> Option<string>)
    requires GatewayGaps.Answering(j.gate, channel) && bus.client.Resumed? && !bus.client.complete
    requires j.mark <= |j.gate.conn.accepted| && NumbersOn(j.gate.conn.accepted[j.mark..], channel) == []
    ensures Told(Answered(j, bus, parse), channel)
  {
    var j', accepted := Answered(j, bus, parse), j.gate.conn.accepted;
    assert j'.gate.conn == Offer(j.gate.conn, Resync(channel));
    assert j'.gate.conn.accepted[j.mark..|accepted|] == accepted[j.mark..];
  }

  lemma AnswerKeeps(j: Joint, channel: string, parse: string -> Option<string>)
    requires Inv(j, channel) && Enabled(j, Answer, channel, parse) && Sound(j, Answer, channel, parse)
    ensures Inv(Step(j, Answer, channel, parse), channel)
  {
    if Bus.Step(j.bus, Bus.GetCounter).client.complete {
      CompleteAnswerKeeps(j, channel, parse);
    } else {
      Bus.StepKeepsInv(j.bus, Bus.GetCounter);
      RefetchKeeps(j, Bus.Step(j.bus, Bus.GetCounter), channel, parse);
    }
  }

  lemma RaiseKeeps(j: Joint, channel: string, parse: string -> Option<string>)
    requires Inv(j, channel) && Enabled(j, Raise, channel, parse) && Sound(j, Raise, channel, parse)
    ensures Inv(Step(j, Raise, channel, parse), channel)
  {
    if j.bus.client.Ranged? {
      Bus.StepKeepsInv(j.bus, Bus.ReplayRaises);
      RefetchKeeps(j, Bus.Step(j.bus, Bus.ReplayRaises), channel, parse);
    } else {
      var begun := Begun(j, Bus.Step(j.bus, Resuming(j)), channel);
      Bus.StepKeepsInv(j.bus, Resuming(j));
      Bus.StepKeepsInv(begun.bus, Bus.ReplayRaises);
      assert j.gate.conn.accepted[|j.gate.conn.accepted|..] == [];
      BeginningKeepsLeft(j, Bus.Step(j.bus, Resuming(j)), channel);
      RefetchKeeps(begun, Bus.Step(begun.bus, Bus.ReplayRaises), channel, parse);
    }
  }

  lemma StepKeepsInv(j: Joint, e: Event, channel: string, parse: string -> Option<string>)
    requires Inv(j, channel) && Enabled(j, e, channel, parse) && Sound(j, e, channel, parse)
    ensures Inv(Step(j, e, channel, parse), channel)
  {
    match e
    case Publishing(b) => PublishingKeeps(j, b, channel, parse);
    case Elsewhere(b) => ElsewhereKeeps(j, b, channel, parse);
    case Add => AddKeeps(j, channel, parse);
    case Range => RangeKeeps(j, channel, parse);
    case Answer => AnswerKeeps(j, channel, parse);
    case Raise => RaiseKeeps(j, channel, parse);
    case Poll => PollKeeps(j, channel, parse);
    case Drop => DropKeeps(j, channel, parse);
  }

  lemma {:induction false} RunKeepsInv(j: Joint, es: seq<Event>, channel: string, parse: string -> Option<string>)
    requires Inv(j, channel) && IsRun(j, es, channel, parse)
    ensures Inv(Final(j, es, channel, parse), channel)
    decreases |es|
  {
    if es != [] {
      StepKeepsInv(j, es[0], channel, parse);
      RunKeepsInv(Step(j, es[0], channel, parse), es[1..], channel, parse);
    }
  }

  lemma OpenInv(implicit: seq<string>, channel: string)
    ensures Inv(Open(implicit), channel)
  {
    Bus.StartInv();
    OpenWire(implicit);
  }

  lemma ReachedInv(implicit: seq<string>, es: seq<Event>, channel: string, parse: string -> Option<string>, j: Joint)
    requires Reaches(implicit, es, channel, parse, j)
    ensures Inv(j, channel)
  {
    OpenInv(implicit, channel);
    RunKeepsInv(Open(implicit), es, channel, parse);
  }

  // ---------------------------------------------------------------- from publisher to wire

  /** The pump passes on what the bus has for it. Over every joint run, while the reader has not
      dropped the channel, what the queue took of it in this session is, until a bus frame is
      refused, exactly the replay, then what earlier subscriptions had left, then what came live,
      as far as the pump has polled; and a beginning of that for ever after. */
  lemma PumpPassesOn(implicit: seq<string>, es: seq<Event>, channel: string, parse: string -> Option<string>, j: Joint)
    requires Reaches(implicit, es, channel, parse, j) && !j.bus.client.Away? && j.kept
    ensures InOrder(j) && Shown(j) <= Stream(j)
    ensures var part, shown := Part(j.gate.conn, j.mark, channel), Numbers(Shown(j));
      part <= shown && (j.gate.conn.refused.None? ==> part == shown)
  {
    ReachedInv(implicit, es, channel, parse, j);
    ShownIsStream(j);
  }

  lemma ShownIsStream(j: Joint)
    requires !j.bus.client.Away? && InOrder(j)
    ensures Shown(j) <= Stream(j)
  {
    var replay, left, live := Replay(j.bus.client), j.left, j.bus.client.live;
    if j.drained < |left| {
      assert live[..0] == [] && left == left[..j.drained] + left[j.drained..];
      assert Stream(j) == Shown(j) + (left[j.drained..] + live);
    } else {
      assert left[..j.drained] == left && live == live[..j.taken] + live[j.taken..];
      assert Stream(j) == Shown(j) + live[j.taken..];
    }
  }

  /** The channel's numbers the client was sent in this session. */
  function Sent(j: Joint, channel: string): seq<nat> {
    var sent := WithoutPings(j.gate.wire);
    if j.mark <= |sent| then NumbersOn(sent[j.mark..], channel) else []
  }

  lemma SentIsTaken(j: Joint, channel: string)
    requires WireInv(j.gate)
    ensures Sent(j, channel) <= Part(j.gate.conn, j.mark, channel)
  {
    var c, sent := j.gate.conn, WithoutPings(j.gate.wire);
    WireIsWithin(j.gate);
    if j.mark <= |sent| {
      var all := c.accepted[j.mark..Upto(c)];
      assert sent == c.accepted[..|sent|] && |sent| <= Upto(c);
      assert all == sent[j.mark..] + c.accepted[|sent|..Upto(c)];
      NumbersAppend(sent[j.mark..], c.accepted[|sent|..Upto(c)], channel);
    }
  }

  /** And nothing is held back: over an open connection whose writer has emptied the queue, the client
      has been sent all that the queue took of the session. */
  lemma AllIsSent(implicit: seq<string>, es: seq<Event>, channel: string, parse: string -> Option<string>, j: Joint)
    requires Reaches(implicit, es, channel, parse, j) && !j.bus.client.Away?
    requires j.gate.writer.Waiting? && j.gate.conn.outbound == [] && j.gate.conn.refused.None?
    ensures j.mark <= |j.gate.conn.accepted|
    ensures Sent(j, channel) == NumbersOn(j.gate.conn.accepted[j.mark..], channel)
    ensures j.kept && InOrder(j) ==> Sent(j, channel) == Numbers(Shown(j))
  {
    ReachedInv(implicit, es, channel, parse, j);
    var c := j.gate.conn;
    assert c.accepted[..|c.accepted|] == c.accepted;
    assert c.accepted[j.mark..Upto(c)] == c.accepted[j.mark..];
  }

  /** What the client was sent of the session is a beginning of its stream. */
  lemma SentIsStream(implicit: seq<string>, es: seq<Event>, channel: string, parse: string -> Option<string>, j: Joint)
    requires Reaches(implicit, es, channel, parse, j) && !j.bus.client.Away? && j.kept
    ensures Sent(j, channel) <= Numbers(Stream(j))
  {
    PumpPassesOn(implicit, es, channel, parse, j);
    ReachedInv(implicit, es, channel, parse, j);
    SentIsTaken(j, channel);
    assert Stream(j) == Shown(j) + Stream(j)[|Shown(j)|..];
    NumbersOfConcat(Shown(j), Stream(j)[|Shown(j)|..]);
  }

  /** No frame left over is of a subscription made before the counter last restarted. */
  predicate LeftIsCurrent(j: Joint) {
    j.left != [] ==> j.leftLife == j.bus.life
  }

  lemma WholeStream(j: Joint, channel: string)
    requires Inv(j, channel) && LeftIsCurrent(j)
    requires j.bus.client.Resumed? && j.bus.client.complete && j.bus.client.life == j.bus.life
    ensures Bus.After(Bus.FirstSeen(Stream(j)), j.bus.client.since) == Bus.After(j.bus.published, j.bus.client.since)
  {
    Bus.ResumedStream(j.bus, j.left);
  }

  /** From publisher to wire. Whatever the publishers, the log, the pump, the writer and the
      reader do, and wherever the connection is cut: in a session that resumed with a complete
      replay, while the reader keeps the channel and the counter has not restarted, the client
      has been sent a beginning of the session's stream, and the first copies of that above the
      point it resumed from are a beginning of what was published above it: no hole. */
  lemma NoHoleOnTheWire(implicit: seq<string>, es: seq<Event>, channel: string, parse: string -> Option<string>,
                        j: Joint)
    requires Reaches(implicit, es, channel, parse, j) && j.kept && LeftIsCurrent(j)
    requires j.bus.client.Resumed? && j.bus.client.complete && j.bus.client.life == j.bus.life
    ensures var k, since := |Sent(j, channel)|, j.bus.client.since;
      && k <= |Stream(j)| && Sent(j, channel) == Numbers(Stream(j)[..k])
      && Bus.After(Bus.FirstSeen(Stream(j)[..k]), since) <= Bus.After(j.bus.published, since)
  {
    var k, since, stream := |Sent(j, channel)|, j.bus.client.since, Stream(j);
    SentIsStream(implicit, es, channel, parse, j);
    ReachedInv(implicit, es, channel, parse, j);
    assert Numbers(stream)[..k] == Numbers(stream[..k]);
    WholeStream(j, channel);
    Bus.FirstSeenPrefix(stream, k);
    Bus.AfterPrefix(Bus.FirstSeen(stream[..k]), Bus.FirstSeen(stream), since);
  }

  /** Where the session's replay was answered "refetch", the client has been sent a beginning
      of what earlier subscriptions had left and what pub/sub delivered; and if the queue had room
      for the resync then, it was sent it before any of that. */
  lemma ResyncComesFirst(implicit: seq<string>, es: seq<Event>, channel: string, parse: string -> Option<string>,
                         j: Joint)
    requires Reaches(implicit, es, channel, parse, j) && j.kept
    requires j.bus.client.Resumed? && !j.bus.client.complete
    ensures Sent(j, channel) <= Numbers(j.left + j.bus.client.live)
    ensures var sent := WithoutPings(j.gate.wire);
      j.told && Sent(j, channel) != [] ==>
        && j.mark <= j.answered < |sent| && sent[j.answered] == Resync(channel)
        && NumbersOn(sent[j.mark..j.answered], channel) == []
  {
    SentIsStream(implicit, es, channel, parse, j);
    ReachedInv(implicit, es, channel, parse, j);
    WireIsWithin(j.gate);
    assert Stream(j) == j.left + j.bus.client.live;
    if j.told && Sent(j, channel) != [] {
      SentReaches(j, channel, WithoutPings(j.gate.wire));
    }
  }

  lemma NothingSent(
      accepted: seq<Gateway.Frame>, sent: seq<Gateway.Frame>, mark: nat, answered: nat, channel: string)
    requires sent <= accepted && mark <= |sent| <= answered <= |accepted|
    requires NumbersOn(accepted[mark..answered], channel) == []
    ensures NumbersOn(sent[mark..], channel) == []
  {
    assert accepted[mark..answered] == sent[mark..] + accepted[|sent|..answered];
    NumbersAppend(sent[mark..], accepted[|sent|..answered], channel);
  }

  lemma SentReaches(j: Joint, channel: string, sent: seq<Gateway.Frame>)
    requires Told(j, channel) && sent == WithoutPings(j.gate.wire) <= j.gate.conn.accepted
    requires Sent(j, channel) != [] && j.told
    ensures j.mark <= j.answered < |sent| && sent[j.answered] == Resync(channel)
    ensures NumbersOn(sent[j.mark..j.answered], channel) == []
  {
    var accepted := j.gate.conn.accepted;
    if |sent| <= j.answered && j.mark <= |sent| {
      NothingSent(accepted, sent, j.mark, j.answered, channel);
    }
    assert |sent| > j.answered;
    assert sent[j.mark..j.answered] == accepted[j.mark..j.answered];
  }

  /** A subscription that has not resumed gets a beginning of what earlier ones had left, then what
      has been published since it began: in order, without repeats, and with nothing missing but
      what was published between. */
  lemma FreshSubscriptionHasNoHole(implicit: seq<string>, es: seq<Event>, channel: string,
                                   parse: string -> Option<string>, j: Joint)
    requires Reaches(implicit, es, channel, parse, j) && j.kept
    requires j.bus.client.Listening? && j.bus.client.life == j.bus.life
    ensures j.bus.client.base <= |j.bus.published|
    ensures Sent(j, channel) <= Numbers(j.left + j.bus.published[j.bus.client.base..])
    ensures LeftIsCurrent(j) ==> IsFrom(j.left + j.bus.published[j.bus.client.base..], j.bus.published)
  {
    SentIsStream(implicit, es, channel, parse, j);
    ReachedInv(implicit, es, channel, parse, j);
    assert Stream(j) == j.left + j.bus.client.live;
    if LeftIsCurrent(j) {
      LaterAfter(j.left, j.bus.published, j.bus.client.base);
    }
  }

  /** It is a beginning of what has been published since the subscription began if and only if
      nothing has been sent or nothing was left unpolled when it began. */
  lemma RejoinExactly(implicit: seq<string>, es: seq<Event>, channel: string, parse: string -> Option<string>,
                      j: Joint)
    requires Reaches(implicit, es, channel, parse, j) && j.kept && LeftIsCurrent(j)
    requires j.bus.client.Listening? && j.bus.client.life == j.bus.life
    ensures j.bus.client.base <= |j.bus.published|
    ensures Sent(j, channel) <= Numbers(j.bus.published[j.bus.client.base..]) <==>
            Sent(j, channel) == [] || j.left == []
  {
    FreshSubscriptionHasNoHole(implicit, es, channel, parse, j);
    var later := j.bus.published[j.bus.client.base..];
    var all := j.left + later;
    if j.left == [] {
      assert all == later;
    } else if Sent(j, channel) != [] {
      assert Sent(j, channel)[0] == Numbers(all)[0] == all[0].seqNo;
      if later != [] {
        assert all[|j.left|] == later[0];
      }
    }
  }

  // ---------------------------------------------------------------- a run that rejoins

  ghost predicate Moves(j: Joint, e: Event, channel: string, parse: string -> Option<string>, j': Joint) {
    Enabled(j, e, channel, parse) && Sound(j, e, channel, parse) && Step(j, e, channel, parse) == j'
  }

  /** A run leads from j to k. */
  ghost predicate Leads(j: Joint, channel: string, parse: string -> Option<string>, k: Joint) {
    exists es :: IsRun(j, es, channel, parse) && Final(j, es, channel, parse) == k
  }

  lemma {:induction false} RunSnoc(j: Joint, es: seq<Event>, e: Event, channel: string, parse: string -> Option<string>,
                                   k: Joint)
    requires IsRun(j, es, channel, parse) && Moves(Final(j, es, channel, parse), e, channel, parse, k)
    ensures IsRun(j, es + [e], channel, parse) && Final(j, es + [e], channel, parse) == k
    decreases |es|
  {
    if es == [] {
      assert es + [e] == [e] && [e][1..] == [];
    } else {
      assert (es + [e])[1..] == es[1..] + [e];
      RunSnoc(Step(j, es[0], channel, parse), es[1..], e, channel, parse, k);
    }
  }

  lemma LeadsOn(j: Joint, k: Joint, e: Event, channel: string, parse: string -> Option<string>, l: Joint)
    requires Leads(j, channel, parse, k) && Moves(k, e, channel, parse, l)
    ensures Leads(j, channel, parse, l)
  {
    var es :| IsRun(j, es, channel, parse) && Final(j, es, channel, parse) == k;
    RunSnoc(j, es, e, channel, parse, l);
  }

  /** The bus after a publish that nothing interrupts. */
  function PublishedOn(s: Bus.Sys, data: string): Bus.Sys
    requires s.flights == map[]
  {
    Bus.Step(Bus.Step(Bus.Step(s, Bus.Incr(0)), Bus.Touch(0)), Bus.Exec(0, data))
  }

  /** What that means for what is used below. */
  ghost predicate Follows(s: Bus.Sys, data: string, l: Bus.Sys) {
    var f := Bus.Frame(Bus.CounterOf(s.keys) + 1, data);
    && l.flights == map[] && Bus.CounterAlive(l.keys) && l.keys.counter == f.seqNo
    && l.client == Bus.Deliver(s.client, f)
    && (Bus.CounterAlive(s.keys) ==> l.life == s.life)
  }

  lemma PublishedFollows(s: Bus.Sys, data: string)
    requires s.flights == map[]
    ensures Follows(s, data, PublishedOn(s, data))
  {
  }

  /** A publish that nothing interrupts. */
  lemma Publishes(j: Joint, k: Joint, data: string, channel: string, parse: string -> Option<string>)
    returns (l: Joint)
    requires Leads(j, channel, parse, k) && k.bus.flights == map[]
    ensures Leads(j, channel, parse, l) && l == k.(bus := l.bus) && Follows(k.bus, data, l.bus)
  {
    var b1 := Bus.Step(k.bus, Bus.Incr(0));
    var b2 := Bus.Step(b1, Bus.Touch(0));
    LeadsOn(j, k, Publishing(Bus.Incr(0)), channel, parse, k.(bus := b1));
    LeadsOn(j, k.(bus := b1), Publishing(Bus.Touch(0)), channel, parse, k.(bus := b2));
    l := k.(bus := PublishedOn(k.bus, data));
    LeadsOn(j, k.(bus := b2), Publishing(Bus.Exec(0, data)), channel, parse, l);
    PublishedFollows(k.bus, data);
  }

  /** The gateway with this in its queue, between two polls. */
  function Idle(frames: seq<Gateway.Frame>, commands: seq<Command>, feed: set<string>): Gate {
    Gate(Conn({"c"}, frames, commands, None, frames, [], None), feed, Polling, Waiting, Reading, [])
  }

  /** The pump takes up a subscribe to the channel and acknowledges it. */
  lemma Joins(j: Joint, k: Joint, frames: seq<Gateway.Frame>, parse: string -> Option<string>) returns (l: Joint)
    requires Leads(j, "c", parse, k) && k.gate == Idle(frames, [Subscribe(["c"], 0)], {}) && |frames| < SEND_QUEUE
    requires k.bus.client.Away?
    ensures Leads(j, "c", parse, l)
    ensures l.gate == Idle(frames + [Subscribed(["c"])], [], {"c"})
    ensures l.bus == k.bus.(client := Bus.Listening(0, k.bus.life, |k.bus.published|, []))
    ensures l == k.(bus := l.bus, gate := l.gate, left := Unpolled(k), drained := 0, taken := 0,
                    mark := |frames|, kept := true)
  {
    var idle := Idle(frames, [], {});
    var k1 := k.(gate := idle.(pump := Adding(["c"], ["c"], 0)));
    var k2 := Begun(k.(gate := idle.(feed := {"c"}, pump := Acking(["c"]))),
                    k.bus.(client := Bus.Listening(0, k.bus.life, |k.bus.published|, [])), "c");
    l := k2.(gate := Idle(frames + [Subscribed(["c"])], [], {"c"}));
    LeadsOn(j, k, Elsewhere(PumpTake), "c", parse, k1);
    LeadsOn(j, k1, Add, "c", parse, k2);
    LeadsOn(j, k2, Elsewhere(PumpAck), "c", parse, l);
  }

  lemma ReaderLeaves(frames: seq<Gateway.Frame>, parse: string -> Option<string>)
    requires parse("c") == Some("c")
    ensures Gateway.Enabled(Idle(frames, [], {"c"}), ReaderUnsubscribe(["c"]), parse)
    ensures Gateway.Step(Idle(frames, [], {"c"}), ReaderUnsubscribe(["c"]), parse) == Gone(frames)
  {
    assert Canonical(parse, "c") == "c";
    assert Dropped(parse, ["c"], {"c"}) == ["c"];
    assert {"c"} - AsSet(["c"]) == {};
  }

  /** The reader has left the channel. */
  function Gone(frames: seq<Gateway.Frame>): Gate {
    var idle := Idle(frames, [Unsubscribe(["c"])], {"c"});
    idle.(conn := idle.conn.(subscribed := {}))
  }

  lemma ReaderAsks(frames: seq<Gateway.Frame>, parse: string -> Option<string>)
    requires parse("c") == Some("c")
    ensures Gateway.Enabled(Gone(frames), ReaderSubscribe(["c"], [], 0), parse)
    ensures Gateway.Step(Gone(frames), ReaderSubscribe(["c"], [], 0), parse)
            == Gone(frames).(reader := Authorizing([], ["c"], 0))
  {
    assert Canonical(parse, "c") == "c";
    assert Held(parse, ["c"], {}) == {} == AsSet([]);
    assert Wanted(parse, ["c"], {}) == ["c"];
  }

  lemma ReaderJoins(frames: seq<Gateway.Frame>, parse: string -> Option<string>)
    ensures Gateway.Step(Gone(frames).(reader := Authorizing([], ["c"], 0)), ReaderVerdicts([Some("c")]), parse)
            == Idle(frames, [Unsubscribe(["c"]), Subscribe(["c"], 0)], {"c"})
  {
    assert Allowed([Some("c")]) == ["c"] && [] + ["c"] == ["c"];
    assert Refusals(Gone(frames).conn, [Some("c")]) == Gone(frames).conn;
    assert {} + AsSet(["c"]) == {"c"};
  }

  lemma ReaderMoves(j: Joint, k: Joint, e: Gateway.Event, parse: string -> Option<string>, g: Gate) returns (l: Joint)
    requires Leads(j, "c", parse, k) && Gateway.Enabled(k.gate, e, parse) && Gateway.Step(k.gate, e, parse) == g
    requires e.ReaderUnsubscribe? || e.ReaderSubscribe? || e.ReaderVerdicts?
    ensures Leads(j, "c", parse, l) && l == k.(gate := g, kept := k.kept && "c" in g.conn.subscribed)
  {
    l := k.(gate := g, kept := k.kept && "c" in g.conn.subscribed);
    LeadsOn(j, k, Elsewhere(e), "c", parse, l);
  }

  /** The reader leaves the channel and joins it again before the pump looks. */
  lemma Rejoins(j: Joint, k: Joint, frames: seq<Gateway.Frame>, parse: string -> Option<string>) returns (l: Joint)
    requires Leads(j, "c", parse, k) && k.gate == Idle(frames, [], {"c"}) && parse("c") == Some("c")
    ensures Leads(j, "c", parse, l)
    ensures l == k.(gate := Idle(frames, [Unsubscribe(["c"]), Subscribe(["c"], 0)], {"c"}), kept := false)
  {
    ReaderLeaves(frames, parse);
    ReaderAsks(frames, parse);
    ReaderJoins(frames, parse);
    var gone := ReaderMoves(j, k, ReaderUnsubscribe(["c"]), parse, Gone(frames));
    var asking := ReaderMoves(j, gone, ReaderSubscribe(["c"], [], 0), parse,
                              Gone(frames).(reader := Authorizing([], ["c"], 0)));
    l := ReaderMoves(j, asking, ReaderVerdicts([Some("c")]), parse,
                     Idle(frames, [Unsubscribe(["c"]), Subscribe(["c"], 0)], {"c"}));
  }

  /** The pump takes up the unsubscribe. */
  lemma Leaves(j: Joint, k: Joint, frames: seq<Gateway.Frame>, parse: string -> Option<string>) returns (l: Joint)
    requires Leads(j, "c", parse, k) && |frames| < SEND_QUEUE
    requires k.gate == Idle(frames, [Unsubscribe(["c"]), Subscribe(["c"], 0)], {"c"})
    requires !k.bus.client.Away? && k.taken <= |k.bus.client.live| && !k.kept
    ensures Leads(j, "c", parse, l)
    ensures l == Left(k).(gate := Idle(frames + [Unsubscribed(["c"])], [Subscribe(["c"], 0)], {}))
  {
    var back := Idle(frames, [Subscribe(["c"], 0)], {"c"});
    var k1 := k.(gate := back.(pump := Dropping(["c"], ["c"])));
    var k2 := Left(k).(gate := back.(feed := {}, pump := Unacking(["c"])));
    l := k2.(gate := Idle(frames + [Unsubscribed(["c"])], [Subscribe(["c"], 0)], {}));
    LeadsOn(j, k, Elsewhere(PumpTake), "c", parse, k1);
    LeadsOn(j, k1, Drop, "c", parse, k2);
    LeadsOn(j, k2, Elsewhere(PumpUnack), "c", parse, l);
  }

  lemma Polls(j: Joint, k: Joint, frames: seq<Gateway.Frame>, parse: string -> Option<string>) returns (l: Joint)
    requires Leads(j, "c", parse, k) && Enabled(k, Poll, "c", parse) && |frames| < SEND_QUEUE
    requires k.gate.conn.accepted == k.gate.conn.outbound == frames && k.gate.conn.subscribed == {"c"}
    ensures Leads(j, "c", parse, l) && l == Step(k, Poll, "c", parse)
    ensures l.gate.conn == OfferBus(k.gate.conn, Live("c", Next(k).seqNo)) && l.gate.pump.Polling?
    ensures l.gate.conn.accepted == l.gate.conn.outbound == frames + [Live("c", Next(k).seqNo)]
  {
    l := Step(k, Poll, "c", parse);
    LeadsOn(j, k, Poll, "c", parse, l);
  }

  const HELD: seq<Gateway.Frame> := [Hello] + [Subscribed(["c"])]
  const LEFT: seq<Gateway.Frame> := HELD + [Unsubscribed(["c"])]
  const AGAIN: seq<Gateway.Frame> := LEFT + [Subscribed(["c"])]

  lemma OneIsLeft(parse: string -> Option<string>) returns (k: Joint)
    requires parse("c") == Some("c")
    ensures Leads(Open(["c"]), "c", parse, k) && k.gate == Idle(LEFT, [Subscribe(["c"], 0)], {})
    ensures k.bus.client.Away? && k.bus.flights == map[] && Bus.CounterAlive(k.bus.keys) && k.bus.keys.counter == 2
    ensures k.left == [Bus.Frame(2, "b")] && k.drained == 0 && k.leftLife == k.bus.life
  {
    var open := Open(["c"]);
    assert AsSet(["c"]) == {"c"};
    assert IsRun(open, [], "c", parse) && Final(open, [], "c", parse) == open;
    var a := Publishes(open, open, "a", "c", parse);
    var joined := Joins(open, a, [Hello], parse);
    var b := Publishes(open, joined, "b", "c", parse);
    k := LeavesOne(b, parse);
  }

  lemma LeavesOne(b: Joint, parse: string -> Option<string>) returns (k: Joint)
    requires Leads(Open(["c"]), "c", parse, b) && b.gate == Idle(HELD, [], {"c"}) && parse("c") == Some("c")
    requires b.left == [] && b.drained == b.taken == 0
    requires b.bus.client.Listening? && b.bus.client.live == [Bus.Frame(2, "b")]
    ensures Leads(Open(["c"]), "c", parse, k) && k.gate == Idle(LEFT, [Subscribe(["c"], 0)], {})
    ensures k.bus == b.bus.(client := Bus.Away)
    ensures k.left == b.bus.client.live && k.drained == 0 && k.leftLife == b.bus.client.life
  {
    var asked := Rejoins(Open(["c"]), b, HELD, parse);
    k := Leaves(Open(["c"]), asked, HELD, parse);
    assert Unpolled(asked) == [] && asked.bus.client.live[0..] == b.bus.client.live;
    assert [] + b.bus.client.live == b.bus.client.live;
  }

  lemma OneComesAfter(parse: string -> Option<string>) returns (k: Joint)
    requires parse("c") == Some("c")
    ensures Leads(Open(["c"]), "c", parse, k) && k.gate == Idle(AGAIN, [], {"c"})
    ensures k.bus.client.Listening? && k.bus.client.life == k.bus.life && k.leftLife == k.bus.life
    ensures k.left == [Bus.Frame(2, "b")] && k.bus.client.live == [Bus.Frame(4, "d")]
    ensures k.drained == k.taken == 0 && k.mark == |LEFT| && k.kept
  {
    var one := OneIsLeft(parse);
    var c := Publishes(Open(["c"]), one, "c", "c", parse);
    var joined := Joins(Open(["c"]), c, LEFT, parse);
    k := Publishes(Open(["c"]), joined, "d", "c", parse);
  }

  /** Frame 2 is delivered and not yet polled when the client leaves and joins again; frame 3 is
      published between the pump's two commands to Redis, frame 4 after them. The new session is
      given 2 and 4. */
  lemma OldFramesAfterARejoin(parse: string -> Option<string>) returns (es: seq<Event>, j: Joint)
    requires parse("c") == Some("c")
    ensures Reaches(["c"], es, "c", parse, j) && j.kept && LeftIsCurrent(j)
    ensures j.bus.client.Listening? && j.bus.client.life == j.bus.life
    ensures j.left == [Bus.Frame(2, "b")] && j.bus.client.live == [Bus.Frame(4, "d")]
    ensures Part(j.gate.conn, j.mark, "c") == [2, 4]
  {
    var k := OneComesAfter(parse);
    var two := Polls(Open(["c"]), k, AGAIN, parse);
    j := Polls(Open(["c"]), two, AGAIN + [Live("c", 2)], parse);
    es :| IsRun(Open(["c"]), es, "c", parse) && Final(Open(["c"]), es, "c", parse) == j;
    TwoAndFour(j.gate.conn);
  }

  lemma TwoAndFour(c: Conn)
    requires c.accepted == AGAIN + [Live("c", 2)] + [Live("c", 4)] && c.refused.None?
    ensures Part(c, |LEFT|, "c") == [2, 4]
  {
    var tail := [Subscribed(["c"])] + ([Live("c", 2)] + [Live("c", 4)]);
    assert c.accepted == LEFT + tail;
    assert c.accepted[|LEFT|..|c.accepted|] == tail;
    OneNumber(Subscribed(["c"]), "c");
    OneNumber(Live("c", 2), "c");
    OneNumber(Live("c", 4), "c");
    NumbersAppend([Subscribed(["c"])], [Live("c", 2)] + [Live("c", 4)], "c");
    NumbersAppend([Live("c", 2)], [Live("c", 4)], "c");
  }
}
