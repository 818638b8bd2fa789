/** Where the bus falls short of what it documents: exactly when, over runs of publishers that
    may overlap, and two runs that show it. */
module BusLimits {
  import opened Wrappers
  import opened Bus

  // ---------------------------------------------------------------- where each number is

  predicate Published(s: Sys, n: nat) {
    exists i :: 0 <= i < |s.published| && s.published[i].seqNo == n
  }

  predicate InFlight(s: Sys, n: nat) {
    exists p :: p in s.flights && s.flights[p].seqNo == n
  }

  ghost predicate Covers(s: Sys) {
    forall n: nat :: 1 <= n <= s.keys.counter <==> Published(s, n) || InFlight(s, n) || n in s.lost
  }

  ghost predicate Disjoint(s: Sys) {
    forall n :: !(Published(s, n) && InFlight(s, n)) && !(n in s.lost && (Published(s, n) || InFlight(s, n)))
  }

  ghost predicate DistinctFlights(s: Sys) {
    forall p, q :: p in s.flights && q in s.flights && s.flights[p].seqNo == s.flights[q].seqNo ==> p == q
  }

  ghost predicate DistinctFrames(s: Sys) {
    forall i, j :: 0 <= i < j < |s.published| ==> s.published[i].seqNo != s.published[j].seqNo
  }

  /** Every number handed out is with a publisher, fanned out, or lost with its publisher. */
  ghost predicate Accounted(s: Sys) {
    Covers(s) && Disjoint(s) && DistinctFlights(s) && DistinctFrames(s)
  }

  ghost predicate Logs(s: Sys) {
    && Suffix(Reverse(ListOf(s.keys)), s.published)
    && (ListOf(s.keys) != [] ==>
          |s.keys.list| == if s.streak < REPLAY_FRAMES then s.streak else REPLAY_FRAMES)
  }

  /** The counter starts from one here, with no publisher under way and nothing in the log. */
  ghost predicate Restarts(r: Sys) {
    !CounterAlive(r.keys) && r.flights == map[] && ListOf(r.keys) == []
  }

  /** A run, any at all, within the life of the counter that p's INCR started. */
  ghost predicate InLife(r: Sys, p: nat, es: seq<Event>, s: Sys) {
    && Restarts(r) && IsRun(Step(r, Incr(p)), es) && Final(Step(r, Incr(p)), es) == s
    && s.life == r.life + 1
  }

  /** A publisher takes up a number that nobody had. */
  lemma TakesUp(s: Sys, p: nat, f: Flight, s': Sys)
    requires DistinctFlights(s) && !InFlight(s, f.seqNo) && p !in s.flights && s'.flights == s.flights[p := f]
    ensures DistinctFlights(s')
    ensures forall n :: InFlight(s', n) <==> InFlight(s, n) || n == f.seqNo
  {
    forall q | q in s.flights ensures s.flights[q].seqNo != f.seqNo {
      assert InFlight(s, s.flights[q].seqNo);
    }
    forall n ensures InFlight(s', n) <==> InFlight(s, n) || n == f.seqNo {
      assert s'.flights[p].seqNo == f.seqNo;
      if InFlight(s, n) {
        var q :| q in s.flights && s.flights[q].seqNo == n;
        assert s'.flights[q] == s.flights[q];
      }
    }
  }

  lemma SamePublished(s: Sys, s': Sys)
    requires s'.published == s.published
    ensures forall n :: Published(s', n) <==> Published(s, n)
  {
  }

  lemma IncrAccounts(s: Sys, p: nat)
    requires Accounted(s) && s.keys.counter + 1 == IncrKeys(s.keys).counter && Enabled(s, Incr(p))
    requires Step(s, Incr(p)).published == s.published && Step(s, Incr(p)).lost == s.lost
    ensures Accounted(Step(s, Incr(p)))
  {
    var s', handed := Step(s, Incr(p)), s.keys.counter + 1;
    assert !(1 <= handed <= s.keys.counter);
    TakesUp(s, p, Flight(handed, None), s');
    SamePublished(s, s');
  }

  lemma EndsAccount(s: Sys, p: nat, s': Sys)
    requires Accounted(s) && p in s.flights
    requires s'.flights == s.flights - {p} && s'.keys.counter == s.keys.counter
    ensures forall n :: InFlight(s', n) <==> InFlight(s, n) && n != s.flights[p].seqNo
  {
    forall n ensures InFlight(s', n) <==> InFlight(s, n) && n != s.flights[p].seqNo {
      if InFlight(s', n) {
        var q :| q in s'.flights && s'.flights[q].seqNo == n;
        assert q != p && s.flights[q] == s'.flights[q];
      }
      if InFlight(s, n) && n != s.flights[p].seqNo {
        var q :| q in s.flights && s.flights[q].seqNo == n;
        assert q in s'.flights && s'.flights[q] == s.flights[q];
      }
    }
  }

  lemma ExecAccounts(s: Sys, p: nat, data: string)
    requires Accounted(s) && Enabled(s, Exec(p, data))
    ensures Accounted(Step(s, Exec(p, data)))
  {
    var s', m := Step(s, Exec(p, data)), s.flights[p].seqNo;
    EndsAccount(s, p, s');
    assert InFlight(s, m);
    forall n ensures Published(s', n) <==> Published(s, n) || n == m {
      if Published(s, n) {
        var i :| 0 <= i < |s.published| && s.published[i].seqNo == n;
        assert s'.published[i] == s.published[i];
      }
      assert s'.published[|s.published|].seqNo == m;
    }
    forall i | 0 <= i < |s.published| ensures s.published[i].seqNo != m {
      assert Published(s, s.published[i].seqNo);
    }
  }

  lemma CrashAccounts(s: Sys, p: nat)
    requires Accounted(s) && Enabled(s, Crash(p))
    ensures Accounted(Step(s, Crash(p)))
  {
    var s' := Step(s, Crash(p));
    EndsAccount(s, p, s');
    assert InFlight(s, s.flights[p].seqNo);
    SamePublished(s, s');
  }

  lemma TouchAccounts(s: Sys, p: nat)
    requires Accounted(s) && Enabled(s, Touch(p))
    ensures Accounted(Step(s, Touch(p)))
  {
    var s' := Step(s, Touch(p));
    forall n ensures InFlight(s', n) <==> InFlight(s, n) {
      if InFlight(s, n) {
        var q :| q in s.flights && s.flights[q].seqNo == n;
        assert s'.flights[q].seqNo == n;
      }
      if InFlight(s', n) {
        var q :| q in s'.flights && s'.flights[q].seqNo == n;
        assert s.flights[q].seqNo == n;
      }
    }
    SamePublished(s, s');
  }

  lemma OthersAccount(s: Sys, s': Sys)
    requires Accounted(s) && s'.flights == s.flights && s'.published == s.published && s'.lost == s.lost
    requires s'.keys.counter == s.keys.counter
    ensures Accounted(s')
  {
    SamePublished(s, s');
    forall n ensures InFlight(s', n) <==> InFlight(s, n) {
    }
  }

  lemma PushKeepsLogs(s: Sys, p: nat, data: string)
    requires Logs(s) && Enabled(s, Exec(p, data))
    ensures Logs(Step(s, Exec(p, data)))
  {
    LogHeads(s, p, data);
    var s' := Step(s, Exec(p, data));
    TailBackwards(ListOf(s'.keys), s'.published);
  }

  lemma TailBackwards(list: seq<Frame>, published: seq<Frame>)
    requires |list| <= |published| && forall j :: 0 <= j < |list| ==> list[j] == published[|published| - 1 - j]
    ensures Suffix(Reverse(list), published)
  {
  }

  lemma StepAccounts(s: Sys, e: Event)
    requires Accounted(s) && Enabled(s, e) && Step(s, e).life == s.life
    ensures Accounted(Step(s, e))
  {
    match e
    case Incr(p) => IncrAccounts(s, p);
    case Touch(p) => TouchAccounts(s, p);
    case Exec(p, data) => ExecAccounts(s, p, data);
    case Crash(p) => CrashAccounts(s, p);
    case _ => OthersAccount(s, Step(s, e));
  }

  lemma StepLogs(s: Sys, e: Event)
    requires Logs(s) && Enabled(s, e) && Step(s, e).life == s.life
    ensures Logs(Step(s, e))
  {
    assert Reverse([]) == [];
    if e.Exec? {
      PushKeepsLogs(s, e.p, e.data);
    }
  }

  lemma {:induction false} LivesGrow(s: Sys, es: seq<Event>)
    requires IsRun(s, es)
    ensures s.life <= Final(s, es).life
    decreases |es|
  {
    if es != [] {
      LivesGrow(Step(s, es[0]), es[1..]);
    }
  }

  lemma {:induction false} RunAccounts(s: Sys, es: seq<Event>)
    requires Accounted(s) && Logs(s) && IsRun(s, es) && Final(s, es).life == s.life
    ensures Accounted(Final(s, es)) && Logs(Final(s, es))
    decreases |es|
  {
    if es != [] {
      LivesGrow(Step(s, es[0]), es[1..]);
      StepAccounts(s, es[0]);
      StepLogs(s, es[0]);
      RunAccounts(Step(s, es[0]), es[1..]);
    }
  }

  lemma RestartAccounts(r: Sys, p: nat)
    requires Restarts(r)
    ensures Accounted(Step(r, Incr(p))) && Logs(Step(r, Incr(p)))
  {
    var s := Step(r, Incr(p));
    assert Reverse([]) == [];
    assert s.flights[p].seqNo == 1;
    forall n ensures InFlight(s, n) <==> n == 1 {
    }
    forall n ensures !Published(s, n) && n !in s.lost {
    }
  }

  /** In a life that began so, every number is accounted for and the log is the newest frames. */
  lemma LifeAccounts(r: Sys, p: nat, es: seq<Event>, s: Sys)
    requires InLife(r, p, es, s)
    ensures Accounted(s) && Logs(s)
  {
    RestartAccounts(r, p);
    RunAccounts(Step(r, Incr(p)), es);
  }

  // ---------------------------------------------------------------- "N-1 is in the buffer"

  predicate Logged(list: seq<Frame>, n: nat) {
    exists i :: 0 <= i < |list| && list[i].seqNo == n
  }

  /** How many of the newest published frames a log keeps beside one more. */
  function Kept(s: Sys): nat {
    if ListOf(s.keys) == [] then 0
    else if s.streak < REPLAY_FRAMES then s.streak else REPLAY_FRAMES - 1
  }

  /** If it was fanned out at all, the log has not emptied since and fewer than a hundred
      frames, this one included, have come after it. */
  predicate Recent(s: Sys, n: nat) {
    forall i :: 0 <= i < |s.published| && s.published[i].seqNo == n ==> |s.published| - i <= Kept(s)
  }

  /** Publishes overlapping or not: a subscriber that is sent number N finds N-1 in the log if and
      only if no other publisher still holds N-1, none died with it, and it is recent. */
  lemma PredecessorExactly(r: Sys, q: nat, es: seq<Event>, s: Sys, p: nat, data: string)
    requires InLife(r, q, es, s) && Enabled(s, Exec(p, data)) && s.flights[p].seqNo >= 2
    ensures var n := s.flights[p].seqNo - 1;
      Logged(ListOf(Step(s, Exec(p, data)).keys), n) <==> !InFlight(s, n) && n !in s.lost && Recent(s, n)
  {
    LifeAccounts(r, q, es, s);
    PredecessorIn(s, p, data);
  }

  lemma PredecessorIn(s: Sys, p: nat, data: string)
    requires Accounted(s) && Logs(s) && Enabled(s, Exec(p, data)) && s.flights[p].seqNo >= 2
    ensures var n := s.flights[p].seqNo - 1;
      Logged(ListOf(Step(s, Exec(p, data)).keys), n) <==> !InFlight(s, n) && n !in s.lost && Recent(s, n)
  {
    var n, list := s.flights[p].seqNo - 1, ListOf(s.keys);
    var after := ListOf(Step(s, Exec(p, data)).keys);
    assert InFlight(s, n + 1);
    assert Published(s, n) || InFlight(s, n) || n in s.lost;
    LogHeads(s, p, data);
    if Logged(after, n) {
      var j :| 0 <= j < |after| && after[j].seqNo == n;
      assert after[j] == s.published[|s.published| - j];
      assert Published(s, n);
    }
    if Published(s, n) && Recent(s, n) {
      var i :| 0 <= i < |s.published| && s.published[i].seqNo == n;
      assert after[|s.published| - i] == s.published[i];
    }
  }

  lemma SoundStepAccounts(s: Sys, e: Event)
    requires Inv(s) && Accounted(s) && Enabled(s, e) && Sound(s, e)
    ensures Accounted(Step(s, e))
  {
    if Step(s, e).life == s.life {
      StepAccounts(s, e);
    } else {
      RestartAccounts(s, e.p);
    }
  }

  lemma {:induction false} SoundRunAccounts(s: Sys, es: seq<Event>)
    requires Inv(s) && Accounted(s) && SoundRun(s, es)
    ensures IsRun(s, es) && Inv(Final(s, es)) && Accounted(Final(s, es))
    decreases |es|
  {
    if es != [] {
      SoundStepAccounts(s, es[0]);
      StepKeepsInv(s, es[0]);
      SoundRunAccounts(Step(s, es[0]), es[1..]);
    }
  }

  lemma SoundAccounts(es: seq<Event>, s: Sys)
    requires Reaches(es, s)
    ensures Inv(s) && Accounted(s)
  {
    forall n ensures !Published(Start, n) && !InFlight(Start, n) && n !in Start.lost {
    }
    StartInv();
    SoundRunAccounts(Start, es);
  }

  /** Without overlap: in every sound run, in every life of the counter, a subscriber that is sent
      number N finds N-1 in the log if and only if its publisher did not die and the log has not
      emptied since. */
  lemma PredecessorIsLogged(es: seq<Event>, s: Sys, p: nat, data: string)
    requires Reaches(es, s) && Enabled(s, Exec(p, data)) && s.flights[p].seqNo >= 2
    ensures var n := s.flights[p].seqNo - 1;
      Logged(ListOf(Step(s, Exec(p, data)).keys), n) <==> n !in s.lost && ListOf(s.keys) != []
  {
    SoundAccounts(es, s);
    PredecessorIn(s, p, data);
    LastIsRecent(s, p);
  }

  lemma LastIsRecent(s: Sys, p: nat)
    requires Inv(s) && Accounted(s) && p in s.flights && s.flights[p].seqNo >= 2
    ensures var n := s.flights[p].seqNo - 1;
      && !InFlight(s, n)
      && (n !in s.lost ==> (Recent(s, n) <==> ListOf(s.keys) != []))
  {
    var n, last := s.flights[p].seqNo - 1, |s.published| - 1;
    assert FlightInv(s, s.flights[p]);
    assert Published(s, n) || n in s.lost;
    if Published(s, n) {
      assert s.published[last].seqNo < n + 1;
      assert forall k :: 0 <= k < last ==> s.published[k].seqNo < s.published[last].seqNo;
    }
  }

  /** What the log holds once a frame is fanned out: it, then the newest before it. */
  lemma LogHeads(s: Sys, p: nat, data: string)
    requires Logs(s) && Enabled(s, Exec(p, data))
    ensures var after := ListOf(Step(s, Exec(p, data)).keys);
      && Kept(s) <= |s.published| && |after| == 1 + Kept(s)
      && after[0].seqNo == s.flights[p].seqNo
      && forall j :: 1 <= j < |after| ==> after[j] == s.published[|s.published| - j]
  {
    var list := ListOf(s.keys);
    forall j | 0 <= j < |list| ensures list[j] == s.published[|s.published| - 1 - j] {
      assert Reverse(list)[|list| - 1 - j] == list[j];
    }
  }

  // ---------------------------------------------------------------- "complete"

  /** An answer is right exactly when nothing of `gone`, what came before the log's frames, lies
      above the point. */
  lemma ReplayRightExactly(gone: seq<Frame>, raw: seq<Frame>, current: nat, since: nat)
    ensures Replay(raw, current, since).0 == After(gone + Reverse(raw), since) <==>
            forall i :: 0 <= i < |gone| ==> gone[i].seqNo <= since
  {
    ReplayFrames(raw, current, since);
    TailRight(gone, Reverse(raw), since);
  }

  lemma ReplayFrames(raw: seq<Frame>, current: nat, since: nat)
    ensures Replay(raw, current, since).0 == After(Reverse(raw), since)
  {
  }

  lemma TailRight(head: seq<Frame>, frames: seq<Frame>, since: nat)
    ensures After(frames, since) == After(head + frames, since) <==>
              forall i :: 0 <= i < |head| ==> head[i].seqNo <= since
  {
    AfterConcat(head, frames, since);
    NothingAfter(head, since);
    Longer(After(head, since), After(frames, since));
  }

  lemma NothingAfter(frames: seq<Frame>, since: nat)
    ensures After(frames, since) == [] <==> forall i :: 0 <= i < |frames| ==> frames[i].seqNo <= since
  {
    AfterMembers(frames, since);
    if forall i :: 0 <= i < |frames| ==> frames[i].seqNo <= since {
      AfterNone(frames, since);
    } else {
      var i :| 0 <= i < |frames| && frames[i].seqNo > since;
      assert frames[i] in After(frames, since);
    }
  }

  lemma Longer(a: seq<Frame>, b: seq<Frame>)
    ensures a + b == b <==> a == []
  {
    assert |a + b| == |a| + |b|;
    assert [] + b == b;
  }

  /** Some frame that has left the log is numbered above n. */
  predicate LeftAbove(s: Sys, n: nat) {
    exists i :: 0 <= i < |s.published| - |ListOf(s.keys)| && s.published[i].seqNo > n
  }

  /** The number of the log's oldest frame. */
  function Oldest(list: seq<Frame>): nat
    requires list != []
  {
    list[|list| - 1].seqNo
  }

  /** The answer over this log calls itself complete and lacks a frame published above the point. */
  predicate CompleteAndWrong(s: Sys, since: nat) {
    var (missed, complete) := Replay(ListOf(s.keys), CounterOf(s.keys), since);
    complete && missed != After(s.published, since)
  }

  /** Over a log that holds something the answer is complete and wrong if and only if the oldest
      number in the log is at most one above the point and a frame that has left the log is
      numbered above it. */
  lemma WrongOverALogExactly(r: Sys, q: nat, es: seq<Event>, s: Sys, since: nat)
    requires InLife(r, q, es, s) && ListOf(s.keys) != []
    ensures CompleteAndWrong(s, since) <==> Oldest(ListOf(s.keys)) <= since + 1 && LeftAbove(s, since)
  {
    LifeAccounts(r, q, es, s);
    var list := ListOf(s.keys);
    var gone := s.published[..|s.published| - |list|];
    assert s.published == gone + Reverse(list);
    ReplayRightExactly(gone, list, CounterOf(s.keys), since);
    assert Reverse(list)[0].seqNo == Oldest(list);
  }

  /** Some point gets such an answer if and only if a frame that has left the log is numbered above
      the oldest one still there. */
  lemma SomePointIsWrongExactly(r: Sys, q: nat, es: seq<Event>, s: Sys)
    requires InLife(r, q, es, s) && ListOf(s.keys) != []
    ensures (exists since :: CompleteAndWrong(s, since)) <==> LeftAbove(s, Oldest(ListOf(s.keys)))
  {
    var oldest := Oldest(ListOf(s.keys));
    forall since | CompleteAndWrong(s, since) ensures LeftAbove(s, oldest) {
      WrongOverALogExactly(r, q, es, s, since);
      LifeAccounts(r, q, es, s);
      LeftIsNotOldest(s, since);
    }
    WrongOverALogExactly(r, q, es, s, oldest);
  }

  lemma LeftIsNotOldest(s: Sys, since: nat)
    requires Accounted(s) && Logs(s) && ListOf(s.keys) != []
    requires Oldest(ListOf(s.keys)) <= since + 1 && LeftAbove(s, since)
    ensures LeftAbove(s, Oldest(ListOf(s.keys)))
  {
    var list := ListOf(s.keys);
    var i :| 0 <= i < |s.published| - |list| && s.published[i].seqNo > since;
    assert Reverse(list)[0] == s.published[|s.published| - |list|];
    assert Reverse(list)[0].seqNo == Oldest(list);
  }

  /** With nothing in the log the replay calls itself complete if and only if the counter has
      lapsed or is not above the point, and it is wrong to do so if and only if the counter has
      lapsed and something above the point was published. */
  lemma EmptyLogExactly(r: Sys, q: nat, es: seq<Event>, s: Sys, since: nat)
    requires InLife(r, q, es, s) && ListOf(s.keys) == []
    ensures Replay([], CounterOf(s.keys), since).1 <==> !CounterAlive(s.keys) || s.keys.counter <= since
    ensures CompleteAndWrong(s, since) <==>
            !CounterAlive(s.keys) && exists i :: 0 <= i < |s.published| && s.published[i].seqNo > since
  {
    LifeAccounts(r, q, es, s);
    ReplayRightExactly(s.published, [], CounterOf(s.keys), since);
    assert s.published + Reverse([]) == s.published;
    forall i | 0 <= i < |s.published| ensures s.published[i].seqNo <= s.keys.counter {
      assert Published(s, s.published[i].seqNo);
    }
  }

  // ---------------------------------------------------------------- two runs

  predicate Moves(s: Sys, e: Event, s': Sys) {
    Enabled(s, e) && Step(s, e) == s'
  }

  lemma {:induction false} TraceIsRun(states: seq<Sys>, es: seq<Event>)
    requires |states| == |es| + 1
    requires forall i :: 0 <= i < |es| ==> Moves(states[i], es[i], states[i + 1])
    ensures IsRun(states[0], es) && Final(states[0], es) == states[|es|]
    decreases |es|
  {
    if es != [] {
      assert Moves(states[0], es[0], states[1]);
      TraceIsRun(states[1..], es[1..]);
    }
  }

  lemma ReplayOfOne(f: Frame, current: nat, since: nat)
    requires f.seqNo == since + 1
    ensures Replay([f], current, since) == ([f], true)
  {
    assert Reverse([f]) == [f];
    assert [f][1..] == [];
    assert After([f], since) == [f];
  }

  const OVERLAP: seq<Event> :=
    [Incr(0), Touch(0), Exec(0, "a"), Incr(1), Touch(1), Incr(2), Touch(2), Exec(2, "c"),
     Tick(REPLAY_TTL), Exec(1, "b"), Subscribe(1), Lrange, GetCounter]

  const OVERLAPPED: Sys :=
    Sys(Keys(0, 3, Some(SEQ_TTL), [Frame(3, "c"), Frame(1, "a")], REPLAY_TTL),
        map[1 := Flight(2, Some(0))], [Frame(1, "a"), Frame(3, "c")], {}, 1, 2, Away)

  lemma OverlapStarts() returns (states: seq<Sys>)
    ensures |states| == 9 && states[0] == Start && states[8] == OVERLAPPED
    ensures forall i :: 0 <= i < 8 ==> Moves(states[i], OVERLAP[i], states[i + 1])
  {
    var one, two := Flight(2, Some(0)), Flight(3, Some(0));
    var k0 := Keys(0, 1, Some(SEQ_TTL), [], 0);
    var k1 := k0.(list := [Frame(1, "a")], listDies := REPLAY_TTL);
    var s3 := Sys(k1, map[], [Frame(1, "a")], {}, 1, 1, Away);
    var s5 := s3.(keys := k1.(counter := 2), flights := map[1 := one]);
    var s7 := s3.(keys := k1.(counter := 3), flights := map[1 := one, 2 := two]);
    states := [
      Start,
      Sys(k0.(counterDies := None), map[0 := Flight(1, None)], [], {}, 1, 0, Away),
      Sys(k0, map[0 := Flight(1, Some(0))], [], {}, 1, 0, Away),
      s3,
      s5.(flights := map[1 := one.(touched := None)]),
      s5,
      s7.(flights := map[1 := one, 2 := two.(touched := None)]),
      s7,
      OVERLAPPED];
    assert s7.flights - {2} == OVERLAPPED.flights;
  }

  lemma OverlapEnds() returns (states: seq<Sys>)
    ensures |states| == 6 && states[0] == OVERLAPPED
    ensures forall i :: 0 <= i < 5 ==> Moves(states[i], OVERLAP[8 + i], states[i + 1])
    ensures states[5].published == [Frame(1, "a"), Frame(3, "c"), Frame(2, "b")]
    ensures states[5].client == Resumed(1, 1, 3, [Frame(2, "b")], true, 3, [])
  {
    var b := Frame(2, "b");
    var s0 := OVERLAPPED.(keys := OVERLAPPED.keys.(now := REPLAY_TTL));
    var keys := s0.keys.(list := [b], listDies := 2 * REPLAY_TTL);
    var s1 := Sys(keys, map[], [Frame(1, "a"), Frame(3, "c"), b], {}, 1, 1, Away);
    ReplayOfOne(b, 3, 1);
    states := [
      OVERLAPPED,
      s0,
      s1,
      s1.(client := Listening(1, 1, 3, [])),
      s1.(client := Ranged(1, 1, 3, [b], 3, [])),
      s1.(client := Resumed(1, 1, 3, [b], true, 3, []))];
    assert s0.flights - {1} == map[];
  }

  /** Two publishes in flight on one channel: the later number is fanned out first, the
      log empties, and the replay from 1 calls itself complete without frame 3. */
  lemma OverlapLosesAFrame()
    ensures IsRun(Start, OVERLAP)
    ensures var s := Final(Start, OVERLAP);
      && s.client.Resumed? && s.client.complete
      && After(s.published, s.client.since) == [Frame(3, "c"), Frame(2, "b")]
      && DataOf(Offered(s.client)) == [Frame(2, "b")]
  {
    var first := OverlapStarts();
    var second := OverlapEnds();
    var states := first + second[1..];
    forall i | 0 <= i < |OVERLAP|
      ensures Moves(states[i], OVERLAP[i], states[i + 1])
    {
      assert i >= 8 ==> Moves(second[i - 8], OVERLAP[8 + (i - 8)], second[i - 7]);
    }
    TraceIsRun(states, OVERLAP);
    var published := states[|OVERLAP|].published;
    assert published == [Frame(1, "a")] + published[1..];
    AfterConcat([Frame(1, "a")], published[1..], 1);
    AfterNone([Frame(1, "a")], 1);
    AfterAll(published[1..], 1);
    OfferedData(states[|OVERLAP|].client);
  }

  const LAPSE: seq<Event> :=
    [Incr(0), Touch(0), Exec(0, "a"), Incr(0), Touch(0), Exec(0, "b"), Tick(SEQ_TTL),
     Subscribe(1), Lrange, GetCounter]

  /** When the counter lapses before the client asks, an aged-out frame is missed
      behind a replay that calls itself complete and offers nothing. */
  lemma LapsedCounterHidesAFrame()
    ensures IsRun(Start, LAPSE)
    ensures var s := Final(Start, LAPSE);
      && s.client.Resumed? && s.client.complete
      && After(s.published, s.client.since) == [Frame(2, "b")]
      && Offered(s.client) == []
  {
    var a, b := Frame(1, "a"), Frame(2, "b");
    var first := LapseStarts();
    var second := LapseEnds();
    var states := first + second[1..];
    forall i | 0 <= i < |LAPSE|
      ensures Moves(states[i], LAPSE[i], states[i + 1])
    {
      assert i >= 5 ==> Moves(second[i - 5], LAPSE[5 + (i - 5)], second[i - 4]);
    }
    TraceIsRun(states, LAPSE);
    assert [a, b] == [a] + [b];
    AfterConcat([a], [b], 1);
    AfterNone([a], 1);
    AfterAll([b], 1);
  }

  /** Frame 1 is out and frame 2 about to be. */
  const BEFORE_LAPSE: Sys :=
    Sys(Keys(0, 2, Some(SEQ_TTL), [Frame(1, "a")], REPLAY_TTL), map[0 := Flight(2, Some(0))],
        [Frame(1, "a")], {}, 1, 1, Away)

  lemma LapseStarts() returns (states: seq<Sys>)
    ensures |states| == 6 && states[0] == Start && states[5] == BEFORE_LAPSE
    ensures forall i :: 0 <= i < 5 ==> Moves(states[i], LAPSE[i], states[i + 1])
  {
    var k0 := Keys(0, 1, Some(SEQ_TTL), [], 0);
    var s3 := BEFORE_LAPSE.(keys := k0.(list := [Frame(1, "a")], listDies := REPLAY_TTL), flights := map[]);
    states := [
      Start,
      Sys(k0.(counterDies := None), map[0 := Flight(1, None)], [], {}, 1, 0, Away),
      Sys(k0, map[0 := Flight(1, Some(0))], [], {}, 1, 0, Away),
      s3,
      BEFORE_LAPSE.(flights := map[0 := Flight(2, None)]),
      BEFORE_LAPSE];
  }

  lemma LapseEnds() returns (states: seq<Sys>)
    ensures |states| == 6 && states[0] == BEFORE_LAPSE
    ensures forall i :: 0 <= i < 5 ==> Moves(states[i], LAPSE[5 + i], states[i + 1])
    ensures states[5].published == [Frame(1, "a"), Frame(2, "b")]
    ensures states[5].client == Resumed(1, 1, 2, [], true, 2, [])
  {
    var both := [Frame(2, "b"), Frame(1, "a")];
    var s6 := Sys(BEFORE_LAPSE.keys.(list := both), map[], [Frame(1, "a"), Frame(2, "b")], {}, 1, 2, Away);
    var s7 := s6.(keys := s6.keys.(now := SEQ_TTL));
    assert BEFORE_LAPSE.flights - {0} == map[];
    states := [
      BEFORE_LAPSE,
      s6,
      s7,
      s7.(client := Listening(1, 1, 2, [])),
      s7.(client := Ranged(1, 1, 2, [], 2, [])),
      s7.(client := Resumed(1, 1, 2, [], true, 2, []))];
  }
}
