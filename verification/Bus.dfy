/** The realtime bus: one channel's sequence counter and replay log in Redis, the
    publishers that write them, and one client that resumes against them.

    Every Redis command is one atomic step; anything may happen between two steps. */
module Bus {
  import opened Wrappers

  const REPLAY_FRAMES: nat := 100
  const REPLAY_TTL: nat := 300
  const SEQ_TTL: nat := 86_400

  datatype Frame = Frame(seqNo: nat, data: string)

  // ---------------------------------------------------------------- the two keys

  /** The channel's keys. The list is newest first, as LPUSH leaves it. A counter
      that has never been given a TTL does not expire. */
  datatype Keys = Keys(now: nat, counter: nat, counterDies: Option<nat>, list: seq<Frame>, listDies: nat)

  predicate CounterAlive(k: Keys) {
    k.counter > 0 && (k.counterDies.Some? ==> k.now < k.counterDies.value)
  }

  /** GET, with the absent key read as zero. */
  function CounterOf(k: Keys): nat {
    if CounterAlive(k) then k.counter else 0
  }

  /** LRANGE 0 -1. */
  function ListOf(k: Keys): seq<Frame> {
    if k.now < k.listDies then k.list else []
  }

  function Trim(list: seq<Frame>): seq<Frame> {
    if |list| <= REPLAY_FRAMES then list else list[..REPLAY_FRAMES]
  }

  function IncrKeys(k: Keys): Keys {
    if CounterAlive(k) then k.(counter := k.counter + 1) else k.(counter := 1, counterDies := None)
  }

  function TouchKeys(k: Keys): Keys {
    if CounterAlive(k) then k.(counterDies := Some(k.now + SEQ_TTL)) else k
  }

  function PushKeys(k: Keys, f: Frame): Keys {
    k.(list := Trim([f] + ListOf(k)), listDies := k.now + REPLAY_TTL)
  }

  /** The keys as the publishing process drives them. `Publish` is the whole of
      `publish` when nothing interleaves. */
  class Channel {
    var now: nat
    var counter: nat
    var counterDies: Option<nat>
    var list: seq<Frame>
    var listDies: nat

    ghost function View(): Keys
      reads this
    {
      Keys(now, counter, counterDies, list, listDies)
    }

    method Incr() returns (n: nat)
      modifies this
      ensures View() == IncrKeys(old(View()))
      ensures n == CounterOf(View()) == old(CounterOf(View())) + 1
    {
      if counter > 0 && (counterDies.None? || now < counterDies.value) {
        counter := counter + 1;
      } else {
        counter, counterDies := 1, None;
      }
      n := counter;
    }

    method Expire()
      modifies this
      ensures View() == TouchKeys(old(View()))
    {
      if counter > 0 && (counterDies.None? || now < counterDies.value) {
        counterDies := Some(now + SEQ_TTL);
      }
    }

    method Exec(f: Frame)
      modifies this
      ensures View() == PushKeys(old(View()), f)
    {
      list := Trim([f] + if now < listDies then list else []);
      listDies := now + REPLAY_TTL;
    }

    /** One uninterrupted publish: the returned number is the next one, the frame that
        carries it heads the log, and the newest hundred are what a reader will find. */
    method Publish(data: string) returns (n: nat)
      modifies this
      ensures n == old(CounterOf(View())) + 1
      ensures CounterOf(View()) == n
      ensures counterDies == Some(now + 86_400) && now == old(now)
      ensures var all := [Frame(n, data)] + old(ListOf(View()));
        ListOf(View()) == if |all| <= 100 then all else all[..100]
      ensures listDies == now + 300
    {
      n := Incr();
      Expire();
      Exec(Frame(n, data));
    }
  }

  // ---------------------------------------------------------------- replay

  function Reverse(list: seq<Frame>): (r: seq<Frame>)
    ensures |r| == |list|
    ensures forall i :: 0 <= i < |r| ==> r[i] == list[|list| - 1 - i]
  {
    if list == [] then [] else Reverse(list[1..]) + [list[0]]
  }

  /** The frames numbered above `since`, in order. */
  function After(frames: seq<Frame>, since: nat): seq<Frame> {
    if frames == [] then []
    else if frames[0].seqNo > since then [frames[0]] + After(frames[1..], since)
    else After(frames[1..], since)
  }

  /** `replay`, given what LRANGE answered and what GET would answer. */
  function Replay(raw: seq<Frame>, current: nat, since: nat): (seq<Frame>, bool) {
    var frames := Reverse(raw);
    if frames == [] then ([], current <= since)
    else (After(frames, since), frames[0].seqNo <= since + 1)
  }

  // ---------------------------------------------------------------- the machine

  /** A publisher between its INCR and its pipeline. */
  datatype Flight = Flight(seqNo: nat, touched: Option<nat>)

  /** The resuming client. `base` is how many frames had been published when SUBSCRIBE ran,
      or before those pub/sub still held when a subscribed client resumed again, and `cut` how
      many when LRANGE ran; `live` is what pub/sub has delivered since. */
  datatype Client =
    | Away
    | Listening(since: nat, life: nat, base: nat, live: seq<Frame>)
    | Ranged(since: nat, life: nat, base: nat, raw: seq<Frame>, cut: nat, live: seq<Frame>)
    | Resumed(since: nat, life: nat, base: nat, missed: seq<Frame>, complete: bool, cut: nat, live: seq<Frame>)

  /** `published` is every frame fanned out and `lost` every number whose publisher died,
      since the counter last started from one; `life` counts those starts, and `streak` the
      frames since the log was last empty. */
  datatype Sys = Sys(keys: Keys, flights: map<nat, Flight>, published: seq<Frame>, lost: set<nat>,
                     life: nat, streak: nat, client: Client)

  datatype Event =
    | Tick(d: nat)
    | Incr(p: nat)
    | Touch(p: nat)
    | Exec(p: nat, data: string)
    | Crash(p: nat)
    | Subscribe(since: nat)
    | Resume(since: nat, taken: nat)
    | Unsubscribe
    | Lrange
    | GetCounter
    | ReplayRaises

  const Start: Sys := Sys(Keys(0, 0, None, [], 0), map[], [], {}, 0, 0, Away)

  predicate Enabled(s: Sys, e: Event) {
    match e
    case Tick(_) => true
    case Incr(p) => p !in s.flights
    case Touch(p) => p in s.flights && s.flights[p].touched.None?
    case Exec(p, _) => p in s.flights && s.flights[p].touched.Some?
    case Crash(p) => p in s.flights
    case Subscribe(_) => s.client.Away?
    case Resume(_, taken) => !s.client.Away? && taken <= |s.client.live|
    case Unsubscribe => !s.client.Away?
    case Lrange => s.client.Listening?
    case GetCounter => s.client.Ranged?
    case ReplayRaises => s.client.Listening? || s.client.Ranged?
  }

  function Step(s: Sys, e: Event): Sys
    requires Enabled(s, e)
  {
    match e
    case Tick(d) => s.(keys := s.keys.(now := s.keys.now + d))
    case Incr(p) =>
      var keys := IncrKeys(s.keys);
      var s' := s.(keys := keys, flights := s.flights[p := Flight(keys.counter, None)]);
      if CounterAlive(s.keys) then s' else s'.(published := [], lost := {}, life := s.life + 1)
    case Touch(p) =>
      s.(keys := TouchKeys(s.keys), flights := s.flights[p := s.flights[p].(touched := Some(s.keys.now))])
    case Exec(p, data) =>
      var f := Frame(s.flights[p].seqNo, data);
      s.(keys := PushKeys(s.keys, f), flights := s.flights - {p}, published := s.published + [f],
         streak := (if ListOf(s.keys) == [] then 0 else s.streak) + 1, client := Deliver(s.client, f))
    case Crash(p) => s.(flights := s.flights - {p}, lost := s.lost + {s.flights[p].seqNo})
    case Subscribe(since) => s.(client := Listening(since, s.life, |s.published|, []))
    case Resume(since, taken) =>
      s.(client := Listening(since, s.client.life, s.client.base + taken, s.client.live[taken..]))
    case Unsubscribe => s.(client := Away)
    case Lrange =>
      var c := s.client;
      s.(client := Ranged(c.since, c.life, c.base, ListOf(s.keys), |s.published|, c.live))
    case GetCounter =>
      var c := s.client;
      var (missed, complete) := Replay(c.raw, CounterOf(s.keys), c.since);
      s.(client := Resumed(c.since, c.life, c.base, missed, complete,
                           if c.raw == [] then |s.published| else c.cut, c.live))
    case ReplayRaises =>
      var c := s.client;
      s.(client := Resumed(c.since, c.life, c.base, [], false, c.base, c.live))
  }

  /** PUBLISH reaches the client if and only if it has subscribed. */
  function Deliver(c: Client, f: Frame): Client {
    if c.Away? then c else c.(live := c.live + [f])
  }

  predicate IsRun(s: Sys, es: seq<Event>)
    decreases |es|
  {
    es == [] || (Enabled(s, es[0]) && IsRun(Step(s, es[0]), es[1..]))
  }

  function Final(s: Sys, es: seq<Event>): Sys
    requires IsRun(s, es)
    decreases |es|
  {
    if es == [] then s else Final(Step(s, es[0]), es[1..])
  }

  // ---------------------------------------------------------------- what the environment owes

  /** Publishes on the channel do not overlap; a pipeline runs before the counter it
      numbered from is closer to expiry than a log's lifetime; and the counter a client
      resumes against is still there when asked. */
  ghost predicate Sound(s: Sys, e: Event)
    requires Enabled(s, e)
  {
    match e
    case Incr(p) => s.flights == map[]
    case Touch(p) => CounterAlive(s.keys)
    case Exec(p, _) => s.keys.now + REPLAY_TTL <= s.flights[p].touched.value + SEQ_TTL
    case GetCounter => s.client.life == s.life ==> CounterAlive(s.keys)
    case _ => true
  }

  ghost predicate SoundRun(s: Sys, es: seq<Event>)
    decreases |es|
  {
    es == [] || (Enabled(s, es[0]) && Sound(s, es[0]) && SoundRun(Step(s, es[0]), es[1..]))
  }

  ghost predicate Reaches(es: seq<Event>, s: Sys) {
    SoundRun(Start, es) && IsRun(Start, es) && Final(Start, es) == s
  }

  // ---------------------------------------------------------------- the invariant

  ghost predicate Increasing(frames: seq<Frame>) {
    forall i, j :: 0 <= i < j < |frames| ==> frames[i].seqNo < frames[j].seqNo
  }

  ghost predicate Suffix(tail: seq<Frame>, whole: seq<Frame>) {
    |tail| <= |whole| && tail == whole[|whole| - |tail|..]
  }

  ghost predicate PublishersInv(s: Sys) {
    && (forall p, q :: p in s.flights && q in s.flights ==> p == q)
    && Increasing(s.published)
    && (forall i :: 0 <= i < |s.published| ==> 1 <= s.published[i].seqNo <= s.keys.counter)
    && (forall p :: p in s.flights ==> FlightInv(s, s.flights[p]))
  }

  ghost predicate FlightInv(s: Sys, f: Flight) {
    && f.seqNo == s.keys.counter >= 1
    && (forall i :: 0 <= i < |s.published| ==> s.published[i].seqNo < f.seqNo)
    && (f.touched.Some? ==> f.touched.value <= s.keys.now
                            && s.keys.counterDies == Some(f.touched.value + SEQ_TTL))
  }

  /** The log is the tail of what was published, and the counter outlives it. */
  ghost predicate LogInv(s: Sys) {
    && s.keys.listDies <= s.keys.now + REPLAY_TTL
    && (ListOf(s.keys) != [] ==>
          && |s.keys.list| == (if s.streak < REPLAY_FRAMES then s.streak else REPLAY_FRAMES)
          && s.keys.counter > 0
          && (s.keys.counterDies.Some? ==> s.keys.listDies <= s.keys.counterDies.value))
    && Suffix(Reverse(ListOf(s.keys)), s.published)
  }

  ghost predicate ClientInv(s: Sys) {
    s.client.Away? || s.client.life != s.life || CurrentClientInv(s, s.client)
  }

  ghost predicate CurrentClientInv(s: Sys, c: Client)
    requires !c.Away?
  {
    && c.base <= |s.published|
    && c.live == s.published[c.base..]
    && (c.Ranged? ==>
          c.base <= c.cut <= |s.published| && Suffix(Reverse(c.raw), s.published[..c.cut]))
    && (c.Resumed? && c.complete ==>
          c.base <= c.cut <= |s.published| && c.missed == After(s.published[..c.cut], c.since))
  }

  ghost predicate Inv(s: Sys) {
    && PublishersInv(s)
    && LogInv(s)
    && ClientInv(s)
    && (!s.client.Away? ==> s.client.life <= s.life)
  }

  lemma IncrKeepsPublishers(s: Sys, p: nat)
    requires PublishersInv(s) && LogInv(s) && Enabled(s, Incr(p)) && Sound(s, Incr(p))
    ensures PublishersInv(Step(s, Incr(p)))
  {
  }

  lemma ExecKeepsPublishers(s: Sys, p: nat, data: string)
    requires PublishersInv(s) && Enabled(s, Exec(p, data))
    ensures PublishersInv(Step(s, Exec(p, data)))
  {
    assert FlightInv(s, s.flights[p]);
  }

  lemma PublishersStep(s: Sys, e: Event)
    requires Inv(s) && Enabled(s, e) && Sound(s, e)
    ensures PublishersInv(Step(s, e))
  {
    if e.Incr? {
      IncrKeepsPublishers(s, e.p);
    } else if e.Exec? {
      ExecKeepsPublishers(s, e.p, e.data);
    }
  }

  lemma AnswerKeepsClient(s: Sys)
    requires Inv(s) && Enabled(s, GetCounter) && Sound(s, GetCounter) && s.client.life == s.life
    ensures CurrentClientInv(Step(s, GetCounter), Step(s, GetCounter).client)
  {
    var c := s.client;
    assert s.published[..|s.published|] == s.published;
    var cut := if c.raw == [] then |s.published| else c.cut;
    ReplayIsExact(s.published[..cut], c.raw, CounterOf(s.keys), c.since);
  }

  lemma ClientStep(s: Sys, e: Event)
    requires Inv(s) && Enabled(s, e) && Sound(s, e)
    ensures ClientInv(Step(s, e))
  {
    var s' := Step(s, e);
    var c, c' := s.client, s'.client;
    if !c'.Away? && c'.life == s'.life {
      match e
      case Tick(_) =>
      case Touch(_) =>
      case Crash(_) =>
      case Incr(_) => assert s'.life == s.life;
      case Exec(p, data) =>
        assert s'.published[..|s.published|] == s.published;
        if c.Ranged? || (c.Resumed? && c.complete) {
          assert s'.published[..c.cut] == s.published[..c.cut];
        }
      case Subscribe(_) => assert s.published[..|s.published|] == s.published;
      case Resume(since, taken) => assert s.published[c.base..][taken..] == s.published[c.base + taken..];
      case Unsubscribe =>
      case Lrange => assert s.published[..|s.published|] == s.published;
      case GetCounter => AnswerKeepsClient(s);
      case ReplayRaises =>
    }
  }

  lemma StepKeepsInv(s: Sys, e: Event)
    requires Inv(s) && Enabled(s, e) && Sound(s, e)
    ensures Inv(Step(s, e))
  {
    PublishersStep(s, e);
    ClientStep(s, e);
  }

  lemma {:induction false} RunKeepsInv(s: Sys, es: seq<Event>)
    requires Inv(s) && SoundRun(s, es)
    ensures IsRun(s, es) && Inv(Final(s, es))
    decreases |es|
  {
    if es != [] {
      StepKeepsInv(s, es[0]);
      RunKeepsInv(Step(s, es[0]), es[1..]);
    }
  }

  // ---------------------------------------------------------------- what replay answers

  lemma {:induction false} AfterConcat(a: seq<Frame>, b: seq<Frame>, since: nat)
    ensures After(a + b, since) == After(a, since) + After(b, since)
  {
    if a == [] {
      assert a + b == b;
    } else {
      assert (a + b)[1..] == a[1..] + b;
      AfterConcat(a[1..], b, since);
    }
  }

  lemma {:induction false} AfterNone(frames: seq<Frame>, since: nat)
    requires forall i :: 0 <= i < |frames| ==> frames[i].seqNo <= since
    ensures After(frames, since) == []
  {
    if frames != [] {
      AfterNone(frames[1..], since);
    }
  }

  lemma {:induction false} AfterAll(frames: seq<Frame>, since: nat)
    requires forall i :: 0 <= i < |frames| ==> frames[i].seqNo > since
    ensures After(frames, since) == frames
  {
    if frames != [] {
      AfterAll(frames[1..], since);
    }
  }

  lemma {:induction false} AfterMembers(frames: seq<Frame>, since: nat)
    ensures forall f :: f in After(frames, since) <==> f in frames && f.seqNo > since
    ensures Increasing(frames) ==> Increasing(After(frames, since))
  {
    if frames != [] {
      AfterMembers(frames[1..], since);
      assert frames == [frames[0]] + frames[1..];
      if Increasing(frames) && frames[0].seqNo > since {
        var rest := After(frames[1..], since);
        forall j | 0 <= j < |rest|
          ensures frames[0].seqNo < rest[j].seqNo
        {
          assert rest[j] in frames[1..];
        }
      }
    }
  }

  /** A replay that calls itself complete missed nothing. */
  lemma ReplayIsExact(published: seq<Frame>, raw: seq<Frame>, current: nat, since: nat)
    requires Increasing(published) && Suffix(Reverse(raw), published)
    requires raw == [] ==> forall i :: 0 <= i < |published| ==> published[i].seqNo <= current
    ensures Replay(raw, current, since).1 ==> Replay(raw, current, since).0 == After(published, since)
  {
    var frames := Reverse(raw);
    var head := published[..|published| - |frames|];
    if Replay(raw, current, since).1 {
      assert published == head + frames;
      assert frames != [] ==> frames[0] == published[|head|];
      AfterConcat(head, frames, since);
      AfterNone(head, since);
    }
  }

  // ---------------------------------------------------------------- the resumed stream

  /** What the pump offers a resuming client, in order. */
  datatype Offer = Data(frame: Frame) | Resync

  function AsData(frames: seq<Frame>): (r: seq<Offer>)
    ensures |r| == |frames| && forall i :: 0 <= i < |r| ==> r[i] == Data(frames[i])
  {
    if frames == [] then [] else [Data(frames[0])] + AsData(frames[1..])
  }

  function Offered(c: Client): seq<Offer>
    requires c.Resumed?
  {
    (if c.complete then AsData(c.missed) else [Resync]) + AsData(c.live)
  }

  function DataOf(offers: seq<Offer>): seq<Frame> {
    if offers == [] then []
    else (if offers[0].Data? then [offers[0].frame] else []) + DataOf(offers[1..])
  }

  /** A client keeps the first copy of each frame it is handed. */
  function FirstSeen(stream: seq<Frame>): seq<Frame> {
    if stream == [] then []
    else
      var front, last := stream[..|stream| - 1], stream[|stream| - 1];
      if last in front then FirstSeen(front) else FirstSeen(front) + [last]
  }

  lemma {:induction false} FirstSeenPrefix(stream: seq<Frame>, k: nat)
    requires k <= |stream|
    ensures FirstSeen(stream[..k]) <= FirstSeen(stream)
  {
    if k < |stream| {
      FirstSeenPrefix(stream[..|stream| - 1], k);
      assert stream[..|stream| - 1][..k] == stream[..k];
    } else {
      assert stream[..k] == stream;
    }
  }

  lemma {:induction false} FirstSeenDistinct(frames: seq<Frame>)
    requires Increasing(frames)
    ensures FirstSeen(frames) == frames
  {
    if frames != [] {
      FirstSeenDistinct(frames[..|frames| - 1]);
    }
  }

  /** Repeats are dropped, however many follow. */
  lemma {:induction false} FirstSeenRepeats(shown: seq<Frame>, again: seq<Frame>)
    requires forall f :: f in again ==> f in shown
    ensures FirstSeen(shown + again) == FirstSeen(shown)
  {
    if again == [] {
      assert shown + again == shown;
    } else {
      var front, last := again[..|again| - 1], again[|again| - 1];
      FirstSeenRepeats(shown, front);
      assert shown + again == (shown + front) + [last];
    }
  }

  /** New frames are kept, in order. */
  lemma {:induction false} FirstSeenNew(shown: seq<Frame>, novel: seq<Frame>)
    requires forall f :: f in novel ==> f !in shown
    requires Increasing(novel)
    ensures FirstSeen(shown + novel) == FirstSeen(shown) + novel
  {
    if novel == [] {
      assert shown + novel == shown;
    } else {
      var front, last := novel[..|novel| - 1], novel[|novel| - 1];
      FirstSeenNew(shown, front);
      assert shown + novel == (shown + front) + [last];
      assert FirstSeen(shown) + novel == (FirstSeen(shown) + front) + [last];
    }
  }

  /** Keeping first copies and keeping what is above a point can be done in either order. */
  lemma {:induction false} AfterFirstSeen(stream: seq<Frame>, since: nat)
    ensures After(FirstSeen(stream), since) == FirstSeen(After(stream, since))
  {
    if stream != [] {
      var front, last := stream[..|stream| - 1], stream[|stream| - 1];
      var tail := After([last], since);
      AfterOne(last, since);
      AfterFirstSeen(front, since);
      assert stream == front + [last];
      AfterConcat(front, [last], since);
      AfterConcat(FirstSeen(front), [last], since);
      AfterMembers(front, since);
      OneMoreSeen(After(front, since), tail);
    }
  }

  lemma AfterOne(f: Frame, since: nat)
    ensures After([f], since) == if f.seqNo > since then [f] else []
  {
    assert [f][1..] == [];
    assert After([], since) == [];
  }

  lemma OneMoreSeen(front: seq<Frame>, tail: seq<Frame>)
    requires |tail| <= 1
    ensures FirstSeen(front + tail) == FirstSeen(front) + if tail != [] && tail[0] !in front then tail else []
  {
    if tail == [] {
      assert front + tail == front;
    } else {
      assert tail == [tail[0]] && (front + tail)[..|front|] == front;
    }
  }

  lemma AfterPrefix(a: seq<Frame>, b: seq<Frame>, since: nat)
    requires a <= b
    ensures After(a, since) <= After(b, since)
  {
    assert b == a + b[|a|..];
    AfterConcat(a, b[|a|..], since);
  }

  /** `before`, `both` and `later` are what was published up to SUBSCRIBE, between it
      and LRANGE, and since, and `left` frames of the first that pub/sub delivers late.
      Replay shows the first two and pub/sub the last two: the frames above `since` appear
      once each, in order. */
  lemma OverlapIsHarmless(before: seq<Frame>, both: seq<Frame>, later: seq<Frame>, left: seq<Frame>, since: nat)
    requires Increasing(before + both + later)
    requires forall f :: f in left ==> f in before
    ensures FirstSeen(After(before + both, since) + After(left + both + later, since))
            == After(before + both + later, since)
  {
    var replayed, again, novel := After(before + both, since), After(left + both, since), After(later, since);
    assert Increasing(before + both) by {
      assert before + both == (before + both + later)[..|before + both|];
    }
    AfterMembers(before + both, since);
    AfterMembers(left + both, since);
    AfterMembers(later, since);
    AfterConcat(left + both, later, since);
    AfterConcat(before + both, later, since);
    assert replayed + (again + novel) == (replayed + again) + novel;
    LaterIsNew(before + both, later);
    FirstSeenNew(replayed + again, novel);
    FirstSeenRepeats(replayed, again);
    FirstSeenDistinct(replayed);
  }

  lemma LaterIsNew(earlier: seq<Frame>, later: seq<Frame>)
    requires Increasing(earlier + later)
    ensures Increasing(later)
    ensures forall f :: f in later ==> f !in earlier
  {
    var all := earlier + later;
    assert later == all[|earlier|..];
    forall i, j | 0 <= i < |earlier| && 0 <= j < |later|
      ensures earlier[i] != later[j]
    {
      assert all[i].seqNo < all[|earlier| + j].seqNo;
    }
  }

  lemma {:induction false} DataOfConcat(a: seq<Offer>, b: seq<Offer>)
    ensures DataOf(a + b) == DataOf(a) + DataOf(b)
  {
    if a == [] {
      assert a + b == b;
    } else {
      var first := if a[0].Data? then [a[0].frame] else [];
      assert (a + b)[1..] == a[1..] + b;
      DataOfConcat(a[1..], b);
      assert DataOf(a + b) == first + (DataOf(a[1..]) + DataOf(b));
    }
  }

  lemma {:induction false} DataOfAsData(frames: seq<Frame>)
    ensures DataOf(AsData(frames)) == frames
  {
    if frames != [] {
      DataOfAsData(frames[1..]);
    }
  }

  lemma StartInv()
    ensures Inv(Start)
  {
    assert Reverse([]) == [];
  }

  lemma ReachedInv(es: seq<Event>, s: Sys)
    requires Reaches(es, s)
    ensures Inv(s)
  {
    StartInv();
    RunKeepsInv(Start, es);
  }

  lemma OfferedData(c: Client)
    requires c.Resumed?
    ensures DataOf(Offered(c)) == (if c.complete then c.missed else []) + c.live
  {
    var first := if c.complete then AsData(c.missed) else [Resync];
    DataOfConcat(first, AsData(c.live));
    DataOfAsData(c.missed);
    DataOfAsData(c.live);
  }

  /** What the frames that reach a resumed client show, with some before the live ones that were
      still to come from an earlier subscription. */
  lemma ResumedStream(s: Sys, left: seq<Frame>)
    requires Inv(s) && s.client.Resumed? && s.client.complete && s.client.life == s.life
    requires forall f :: f in left ==> f in s.published[..s.client.base]
    ensures After(FirstSeen(s.client.missed + left + s.client.live), s.client.since)
            == After(s.published, s.client.since)
    ensures Increasing(After(s.published, s.client.since))
  {
    var c := s.client;
    var before, both, later := s.published[..c.base], s.published[c.base..c.cut], s.published[c.cut..];
    assert before + both == s.published[..c.cut];
    assert before + both + later == s.published;
    assert left + c.live == left + both + later;
    OverlapIsHarmless(before, both, later, left, c.since);
    AfterMembers(c.missed, c.since);
    assert c.missed + left + c.live == c.missed + (left + c.live);
    AfterFirstSeen(c.missed + left + c.live, c.since);
    AfterConcat(c.missed, left + c.live, c.since);
    AfterMembers(s.published[..c.cut], c.since);
    AfterAll(c.missed, c.since);
    AfterMembers(s.published, c.since);
  }

  lemma ResyncIsIncomplete(c: Client)
    requires c.Resumed?
    ensures Resync in Offered(c) <==> !c.complete
  {
    if !c.complete {
      assert Offered(c)[0] == Resync;
    }
  }

  /** No number above every one of these frames. */
  predicate Reached(frames: seq<Frame>, since: nat) {
    since == 0 || exists i :: 0 <= i < |frames| && frames[i].seqNo >= since
  }

  lemma LaterIsAbove(published: seq<Frame>, base: nat, since: nat)
    requires Increasing(published) && base <= |published| && Reached(published[..base], since)
    requires forall i :: 0 <= i < |published| ==> published[i].seqNo >= 1
    ensures forall f :: f in published[base..] ==> f.seqNo > since
  {
    forall j | 0 <= j < |published[base..]| ensures published[base..][j].seqNo > since {
      assert published[base..][j] == published[base + j];
    }
  }

  lemma AllAbove(stream: seq<Frame>, since: nat)
    requires forall f :: f in stream ==> f.seqNo > since
    ensures After(FirstSeen(stream), since) == FirstSeen(stream)
  {
    AfterAll(stream, since);
    AfterFirstSeen(stream, since);
  }

  /** From a point that had been reached nothing at or below it is offered. */
  lemma NothingBelow(s: Sys)
    requires Inv(s) && s.client.Resumed? && s.client.complete && s.client.life == s.life
    requires Reached(s.published[..s.client.base], s.client.since)
    ensures var stream := s.client.missed + s.client.live; After(FirstSeen(stream), s.client.since) == FirstSeen(stream)
  {
    var c := s.client;
    AfterMembers(s.published[..c.cut], c.since);
    LaterIsAbove(s.published, c.base, c.since);
    AllAbove(c.missed + c.live, c.since);
  }

  lemma CompleteStream(s: Sys)
    requires Inv(s) && s.client.Resumed? && s.client.complete && s.client.life == s.life
    ensures var c := s.client; var stream, after := FirstSeen(c.missed + c.live), After(s.published, c.since);
      && After(stream, c.since) == after && Increasing(after) && c.base <= |s.published|
      && (Reached(s.published[..c.base], c.since) ==> stream == after)
  {
    var c := s.client;
    ResumedStream(s, []);
    assert c.missed + [] + c.live == c.missed + c.live;
    if Reached(s.published[..c.base], c.since) {
      NothingBelow(s);
    }
  }

  /** Resume without holes. Over every sound run — crashes between INCR and the
      pipeline, trims, log expiry and counter restarts included — a client that has
      resumed within the counter's current life, from any point, is either told to refetch, or
      the frames offered to it show exactly the frames published above that point, each once
      and in increasing order; and nothing else, if the point had been reached when it
      subscribed. */
  lemma ResumeWithoutHoles(es: seq<Event>, s: Sys)
    requires Reaches(es, s)
    requires s.client.Resumed? && s.client.life == s.life
    ensures Resync !in Offered(s.client) ==>
        && After(FirstSeen(DataOf(Offered(s.client))), s.client.since) == After(s.published, s.client.since)
        && Increasing(After(s.published, s.client.since))
        && s.client.base <= |s.published|
        && (Reached(s.published[..s.client.base], s.client.since) ==>
              FirstSeen(DataOf(Offered(s.client))) == After(s.published, s.client.since))
  {
    ReachedInv(es, s);
    ResyncIsIncomplete(s.client);
    if s.client.complete {
      CompleteStream(s);
      OfferedData(s.client);
    }
  }

  /** However short that stream is cut, what got through has no hole before its end. */
  lemma CutStreamHasNoHole(es: seq<Event>, s: Sys, k: nat)
    requires Reaches(es, s)
    requires s.client.Resumed? && s.client.life == s.life && Resync !in Offered(s.client)
    requires k <= |DataOf(Offered(s.client))|
    ensures After(FirstSeen(DataOf(Offered(s.client))[..k]), s.client.since) <= After(s.published, s.client.since)
  {
    var stream := DataOf(Offered(s.client));
    ResumeWithoutHoles(es, s);
    FirstSeenPrefix(stream, k);
    AfterPrefix(FirstSeen(stream[..k]), FirstSeen(stream), s.client.since);
  }

  /** Number `n` is at or after the oldest frame of the log. */
  predicate Covered(list: seq<Frame>, n: nat) {
    list != [] && Reverse(list)[0].seqNo <= n
  }

  /** A replay is refused exactly when some number above `since` has been handed out
      and the log does not reach back to it. */
  lemma RefusedExactlyOnAGap(es: seq<Event>, s: Sys, since: nat)
    requires Reaches(es, s)
    requires CounterAlive(s.keys)
    ensures Replay(ListOf(s.keys), CounterOf(s.keys), since).1
            <==> forall n :: since < n <= s.keys.counter ==> Covered(ListOf(s.keys), n)
  {
    ReachedInv(es, s);
    var list := ListOf(s.keys);
    assert list != [] ==> Reverse(list)[0] == s.published[|s.published| - |list|];
    assert Covered(list, since + 1) || !Covered(list, since + 1);
  }

  /** The counter cannot restart inside the replay window: while the log holds a
      frame, the counter is there and numbers at or above everything in the log. */
  lemma LogNeverOutlivesCounter(es: seq<Event>, s: Sys, f: Frame)
    requires Reaches(es, s)
    requires f in ListOf(s.keys)
    ensures CounterAlive(s.keys) && f in s.published && f.seqNo <= CounterOf(s.keys)
  {
    ReachedInv(es, s);
    var list := ListOf(s.keys);
    var i :| 0 <= i < |list| && list[i] == f;
    assert Reverse(list)[|list| - 1 - i] == f;
    assert f == s.published[|s.published| - 1 - i];
  }

  /** The log holds the newest frames, and no fewer than the cap allows: every one
      since it was last empty, or the last hundred. */
  lemma LogHoldsTheNewest(es: seq<Event>, s: Sys)
    requires Reaches(es, s)
    requires ListOf(s.keys) != []
    ensures Suffix(Reverse(ListOf(s.keys)), s.published)
    ensures |ListOf(s.keys)| == if s.streak < REPLAY_FRAMES then s.streak else REPLAY_FRAMES
  {
    ReachedInv(es, s);
  }
}
