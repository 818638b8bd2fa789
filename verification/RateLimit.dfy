/** The request limiter: fixed windows counted in Redis, open while Redis does not answer. */
module RateLimit {
  import opened Wrappers
  import opened Texts

  const RETRY_AFTER_FAILURE: real := 30.0

  datatype Budget = Budget(limit: nat, seconds: nat)

  predicate IsBudget(b: Budget) {
    b.limit >= 1 && b.seconds >= 1
  }

  datatype Verdict = Verdict(allowed: bool, remaining: int, retryAfter: int)

  /** A Redis counter and when it expires. */
  datatype Counter = Counter(count: nat, expires: real)

  /** What Redis does with a transaction sent to it: answers in time, or not, in which case it may
      have applied the transaction all the same. */
  datatype Reply = Answers | Silence(applied: bool)

  /** How a call of `check` ends: Redis was not dialled, or it was. */
  datatype Outcome = Skipped | Dialled(reply: Reply)

  /** One call of `check`: the clock it read, and when Redis ran its transaction. */
  datatype Call = Call(key: string, now: real, at: real, outcome: Outcome)

  // ---------------------------------------------------------------- windows

  function WindowOf(now: real, seconds: nat): int
    requires seconds >= 1
  {
    (now / seconds as real).Floor
  }

  function Product(x: real, y: real): real {
    x * y
  }

  /** When a window starts. */
  function Start(window: int, seconds: nat): real {
    Product(window as real, seconds as real)
  }

  function Name(key: string, window: int): string {
    "rl:" + (key + ([':'] + IntText(window)))
  }

  /** `int(x) or 1`. */
  function OrOne(x: real): int {
    var n := if x >= 0.0 then x.Floor else -((-x).Floor);
    if n == 0 then 1 else n
  }

  function ResetsIn(now: real, seconds: nat): int
    requires seconds >= 1
  {
    OrOne(Start(WindowOf(now, seconds) + 1, seconds) - now)
  }

  // ---------------------------------------------------------------- one call

  /** Redis removes what has expired. */
  function Expired(counters: map<string, Counter>, now: real): map<string, Counter> {
    map name | name in counters && now < counters[name].expires :: counters[name]
  }

  /** INCR and EXPIRE in one transaction. */
  function Incremented(counters: map<string, Counter>, name: string, expires: real): map<string, Counter> {
    counters[name := Counter(if name in counters then counters[name].count + 1 else 1, expires)]
  }

  /** The latch still holds. */
  predicate Holds(brokenSince: Option<real>, now: real) {
    brokenSince.Some? && now - brokenSince.value < RETRY_AFTER_FAILURE
  }

  predicate Answered(c: Call) {
    c.outcome == Dialled(Answers)
  }

  /** Redis counted the call. */
  predicate Applied(c: Call) {
    c.outcome.Dialled? && (c.outcome.reply.Answers? || c.outcome.reply.applied)
  }

  function NameOf(c: Call, b: Budget): string
    requires b.seconds >= 1
  {
    Name(c.key, WindowOf(c.now, b.seconds))
  }

  /** The process's latch after one of its calls. */
  function LatchAfter(brokenSince: Option<real>, c: Call): Option<real> {
    match c.outcome
    case Skipped => brokenSince
    case Dialled(reply) => if reply.Answers? then None else Some(c.now)
  }

  /** The counters, which all processes share, after a call from any of them. */
  function CountersAfter(counters: map<string, Counter>, c: Call, b: Budget): map<string, Counter>
    requires b.seconds >= 1
  {
    if Applied(c) then Incremented(Expired(counters, c.at), NameOf(c, b), c.at + b.seconds as real + 1.0)
    else counters
  }

  function Used(counters: map<string, Counter>, c: Call, b: Budget): nat
    requires b.seconds >= 1
  {
    var name, live := NameOf(c, b), Expired(counters, c.at);
    if name in live then live[name].count + 1 else 1
  }

  function VerdictOf(counters: map<string, Counter>, c: Call, b: Budget): Verdict
    requires b.seconds >= 1
  {
    if !Answered(c) then Verdict(true, b.limit, 0)
    else
      var used := Used(counters, c, b);
      if used > b.limit then Verdict(false, 0, ResetsIn(c.now, b.seconds))
      else Verdict(true, b.limit - used, ResetsIn(c.now, b.seconds))
  }

  class Redis {
    var counters: map<string, Counter>

    constructor ()
      ensures counters == map[]
    {
      counters := map[];
    }

    /** The transaction: INCR, then EXPIRE. */
    method Count(name: string, seconds: nat, at: real) returns (used: nat)
      modifies this
      ensures counters == Incremented(Expired(old(counters), at), name, at + seconds as real)
      ensures used == counters[name].count
    {
      counters := Expired(counters, at);
      used := if name in counters then counters[name].count + 1 else 1;
      counters := counters[name := Counter(used, at + seconds as real)];
    }
  }

  /** One process of the service. */
  class Limiter {
    var brokenSince: Option<real>
    const redis: Redis

    constructor (redis: Redis)
      ensures brokenSince == None && this.redis == redis
    {
      brokenSince := None;
      this.redis := redis;
    }

    /** `check`; `reply` says what Redis would do if asked, `at` when. */
    method Check(key: string, b: Budget, now: real, at: real, reply: Reply) returns (v: Verdict, ghost c: Call)
      requires IsBudget(b)
      modifies this, redis
      ensures c == Call(key, now, at, if Holds(old(brokenSince), now) then Skipped else Dialled(reply))
      ensures brokenSince == LatchAfter(old(brokenSince), c)
      ensures redis.counters == CountersAfter(old(redis.counters), c, b)
      ensures v == VerdictOf(old(redis.counters), c, b)
    {
      if brokenSince.Some? && now - brokenSince.value < RETRY_AFTER_FAILURE {
        return Verdict(true, b.limit, 0), Call(key, now, at, Skipped);
      }
      c := Call(key, now, at, Dialled(reply));
      var window := WindowOf(now, b.seconds);
      var resetsIn := OrOne(Start(window + 1, b.seconds) - now);
      var used := 0;
      if reply.Answers? || reply.applied {
        used := redis.Count(Name(key, window), b.seconds + 1, at);
      }
      if reply.Silence? {
        brokenSince := Some(now);
        return Verdict(true, b.limit, 0), c;
      }
      brokenSince := None;
      if used > b.limit {
        return Verdict(false, 0, resetsIn), c;
      }
      return Verdict(true, b.limit - used, resetsIn), c;
    }
  }

  // ---------------------------------------------------------------- arithmetic of windows

  lemma Scale(x: real, y: real, k: real)
    requires k > 0.0 && x < y
    ensures Product(x, k) < Product(y, k)
  {
    assert (y - x) * k > 0.0;
    assert (y - x) * k == y * k - x * k;
  }

  lemma OneMoreTimes(x: real, k: real)
    ensures Product(x + 1.0, k) == Product(x, k) + k
  {
  }

  lemma StartsApart(window: int, seconds: nat)
    ensures Start(window + 1, seconds) == Start(window, seconds) + seconds as real
  {
    assert (window + 1) as real == window as real + 1.0;
    OneMoreTimes(window as real, seconds as real);
  }

  lemma StartsInOrder(v: int, w: int, seconds: nat)
    requires seconds >= 1
    ensures v < w <==> Start(v, seconds) < Start(w, seconds)
  {
    if v < w {
      Scale(v as real, w as real, seconds as real);
    } else if w < v {
      Scale(w as real, v as real, seconds as real);
    }
  }

  lemma FloorBounds(q: real, f: real, k: real)
    requires k > 0.0 && f <= q < f + 1.0
    ensures Product(f, k) <= Product(q, k) < Product(f + 1.0, k)
  {
    Scale(q, f + 1.0, k);
    if f < q {
      Scale(f, q, k);
    }
  }

  /** A call falls inside its window. */
  lemma InItsWindow(now: real, seconds: nat)
    requires seconds >= 1
    ensures var w := WindowOf(now, seconds); Start(w, seconds) <= now < Start(w + 1, seconds)
  {
    var q := now / seconds as real;
    var w := q.Floor;
    FloorBounds(q, w as real, seconds as real);
    assert (w + 1) as real == w as real + 1.0;
  }

  /** What a client is told to wait is between one second and the window, and within a second
      of when the window really ends. */
  lemma RetryIsClose(now: real, seconds: nat)
    requires seconds >= 1
    ensures 1 <= ResetsIn(now, seconds) <= seconds
    ensures var left := Start(WindowOf(now, seconds) + 1, seconds) - now;
      0.0 < left <= seconds as real && -1.0 < ResetsIn(now, seconds) as real - left < 1.0
  {
    InItsWindow(now, seconds);
    StartsApart(WindowOf(now, seconds), seconds);
  }

  /** Different keys and windows have different counters. */
  lemma NamesDiffer(key: string, window: int, other: string, w: int)
    requires Name(key, window) == Name(other, w)
    ensures key == other && window == w
  {
    var a, b := IntText(window), IntText(w);
    IntTextIsPlain(window, ':');
    IntTextIsPlain(w, ':');
    assert key + ([':'] + a) == Name(key, window)[3..] && other + ([':'] + b) == Name(other, w)[3..];
    LastSeparator(key, a, other, b, ':');
    IntInvertsText(window);
    IntInvertsText(w);
  }

  // ---------------------------------------------------------------- runs of any number of processes

  /** Redis runs the calls in this order, each after its clock was read, and those it answers
      within the second that a counter outlives its window by. Nothing is said of the latches:
      any call may have been skipped, or lost. */
  ghost predicate InOrder(calls: seq<Call>) {
    && (forall i, j :: 0 <= i < j < |calls| ==> calls[i].at <= calls[j].at)
    && (forall i :: 0 <= i < |calls| ==> calls[i].now <= calls[i].at)
    && (forall i :: 0 <= i < |calls| && Answered(calls[i]) ==> calls[i].at < calls[i].now + 1.0)
  }

  /** The counters after these calls, each key having its budget. */
  ghost function After(calls: seq<Call>, budgets: string -> Budget): map<string, Counter>
    requires forall k :: IsBudget(budgets(k))
  {
    if calls == [] then map[]
    else
      var c := calls[|calls| - 1];
      CountersAfter(After(calls[..|calls| - 1], budgets), c, budgets(c.key))
  }

  ghost function LastVerdict(calls: seq<Call>, budgets: string -> Budget): Verdict
    requires calls != [] && forall k :: IsBudget(budgets(k))
  {
    var c := calls[|calls| - 1];
    VerdictOf(After(calls[..|calls| - 1], budgets), c, budgets(c.key))
  }

  ghost predicate IsIn(c: Call, key: string, window: int, budgets: string -> Budget)
    requires IsBudget(budgets(key))
  {
    c.key == key && WindowOf(c.now, budgets(key).seconds) == window
  }

  /** How many calls with this key Redis counted in this window. */
  ghost function Taken(calls: seq<Call>, key: string, window: int, budgets: string -> Budget): nat
    requires forall k :: IsBudget(budgets(k))
  {
    if calls == [] then 0
    else
      var c := calls[|calls| - 1];
      Taken(calls[..|calls| - 1], key, window, budgets)
      + (if IsIn(c, key, window, budgets) && Applied(c) then 1 else 0)
  }

  /** How many of them went unanswered. */
  ghost function Lost(calls: seq<Call>, key: string, window: int, budgets: string -> Budget): nat
    requires forall k :: IsBudget(budgets(k))
  {
    if calls == [] then 0
    else
      var c := calls[|calls| - 1];
      Lost(calls[..|calls| - 1], key, window, budgets)
      + (if IsIn(c, key, window, budgets) && Applied(c) && !Answered(c) then 1 else 0)
  }

  /** How many of the answered ones were allowed. */
  ghost function Allowed(calls: seq<Call>, key: string, window: int, budgets: string -> Budget): nat
    requires forall k :: IsBudget(budgets(k))
  {
    if calls == [] then 0
    else
      var c := calls[|calls| - 1];
      Allowed(calls[..|calls| - 1], key, window, budgets)
      + (if IsIn(c, key, window, budgets) && Answered(c) && LastVerdict(calls, budgets).allowed then 1 else 0)
  }

  /** A counter stands at the number of calls it has counted, until a second after its window. */
  ghost predicate Faithful(counters: map<string, Counter>, taken: nat, name: string, last: real, end: real) {
    && (taken == 0 ==> name !in counters)
    && (taken > 0 && last < end + 1.0 ==>
          name in counters && counters[name].count == taken && counters[name].expires >= end + 1.0)
  }

  lemma OtherCounter(
      counters: map<string, Counter>, c: Call, b: Budget, taken: nat, name: string, last: real, end: real)
    requires b.seconds >= 1 && last <= c.at && Faithful(counters, taken, name, last, end)
    requires !Applied(c) || name != NameOf(c, b)
    ensures Faithful(CountersAfter(counters, c, b), taken, name, c.at, end)
  {
  }

  lemma OwnCounter(counters: map<string, Counter>, c: Call, b: Budget, taken: nat, last: real)
    requires b.seconds >= 1 && last <= c.at && c.now <= c.at && Applied(c)
    requires Faithful(counters, taken, NameOf(c, b), last, Start(WindowOf(c.now, b.seconds) + 1, b.seconds))
    ensures Answered(c) && c.at < c.now + 1.0 ==> Used(counters, c, b) == taken + 1
    ensures Faithful(CountersAfter(counters, c, b), taken + 1, NameOf(c, b), c.at,
                     Start(WindowOf(c.now, b.seconds) + 1, b.seconds))
  {
    InItsWindow(c.now, b.seconds);
    StartsApart(WindowOf(c.now, b.seconds), b.seconds);
  }

  /** In every run counters count; none expires inside its window. */
  lemma {:induction false} CountersCount(calls: seq<Call>, budgets: string -> Budget, key: string, window: int)
    requires (forall k :: IsBudget(budgets(k))) && InOrder(calls)
    ensures calls != [] ==>
              Faithful(After(calls, budgets), Taken(calls, key, window, budgets), Name(key, window),
                       calls[|calls| - 1].at, Start(window + 1, budgets(key).seconds))
  {
    if calls != [] {
      var before, c := calls[..|calls| - 1], calls[|calls| - 1];
      var s, end := After(before, budgets), Start(window + 1, budgets(key).seconds);
      CountersCount(before, budgets, key, window);
      var last := if before == [] then c.at else before[|before| - 1].at;
      assert Faithful(s, Taken(before, key, window, budgets), Name(key, window), last, end);
      if Applied(c) && Name(key, window) == NameOf(c, budgets(c.key)) {
        NamesDiffer(key, window, c.key, WindowOf(c.now, budgets(c.key).seconds));
        OwnCounter(s, c, budgets(c.key), Taken(before, key, window, budgets), last);
      } else {
        OtherCounter(s, c, budgets(c.key), Taken(before, key, window, budgets), Name(key, window), last, end);
      }
    }
  }

  /** Nor does a counter outlive its window's length, and a second, after the last call. */
  lemma {:induction false} CountersLapse(calls: seq<Call>, budgets: string -> Budget, key: string, window: int)
    requires (forall k :: IsBudget(budgets(k))) && InOrder(calls)
    ensures Name(key, window) in After(calls, budgets) ==>
              && calls != []
              && After(calls, budgets)[Name(key, window)].expires
                 <= calls[|calls| - 1].at + budgets(key).seconds as real + 1.0
  {
    if calls != [] {
      var before, c := calls[..|calls| - 1], calls[|calls| - 1];
      CountersLapse(before, budgets, key, window);
      if Applied(c) && Name(key, window) == NameOf(c, budgets(c.key)) {
        NamesDiffer(key, window, c.key, WindowOf(c.now, budgets(c.key).seconds));
      }
    }
  }

  /** A call is refused exactly when Redis answered it and had counted the limit before it in its
      window; an answered call is told what remains. */
  lemma VerdictIsExact(calls: seq<Call>, budgets: string -> Budget)
    requires (forall k :: IsBudget(budgets(k))) && InOrder(calls) && calls != []
    ensures IsBudget(budgets(calls[|calls| - 1].key))
    ensures var c := calls[|calls| - 1]; var b := budgets(c.key);
      var taken := Taken(calls[..|calls| - 1], c.key, WindowOf(c.now, b.seconds), budgets);
      LastVerdict(calls, budgets) ==
        if !Answered(c) then Verdict(true, b.limit, 0)
        else if taken < b.limit then Verdict(true, b.limit - taken - 1, ResetsIn(c.now, b.seconds))
        else Verdict(false, 0, ResetsIn(c.now, b.seconds))
  {
    var before, c := calls[..|calls| - 1], calls[|calls| - 1];
    var b := budgets(c.key);
    var window := WindowOf(c.now, b.seconds);
    CountersCount(before, budgets, c.key, window);
    if Answered(c) {
      var last := if before == [] then c.at else before[|before| - 1].at;
      OwnCounter(After(before, budgets), c, b, Taken(before, c.key, window, budgets), last);
    }
  }

  /** In each window at most the limit is allowed, and never fewer than the limit or the demand
      but for calls whose answer was lost: without such calls it is exactly the smaller. */
  lemma {:induction false} AtMostTheLimit(calls: seq<Call>, budgets: string -> Budget, key: string, window: int)
    requires (forall k :: IsBudget(budgets(k))) && InOrder(calls)
    ensures var taken, limit := Taken(calls, key, window, budgets), budgets(key).limit;
      var least := if taken < limit then taken else limit;
      var lost := Lost(calls, key, window, budgets);
      least - lost <= Allowed(calls, key, window, budgets) <= least
  {
    if calls != [] {
      AtMostTheLimit(calls[..|calls| - 1], budgets, key, window);
      VerdictIsExact(calls, budgets);
    }
  }

  /** How many answered calls with this key, from any process, were allowed in an interval. */
  ghost function AllowedBetween(calls: seq<Call>, key: string, from: real, to: real, budgets: string -> Budget): nat
    requires forall k :: IsBudget(budgets(k))
  {
    if calls == [] then 0
    else
      var c := calls[|calls| - 1];
      AllowedBetween(calls[..|calls| - 1], key, from, to, budgets)
      + (if c.key == key && from <= c.now < to && Answered(c) && LastVerdict(calls, budgets).allowed then 1 else 0)
  }

  /** An interval as long as a window meets two windows at most. */
  lemma TwoWindows(from: real, now: real, seconds: nat)
    requires seconds >= 1 && from <= now < from + seconds as real
    ensures WindowOf(now, seconds) == WindowOf(from, seconds) || WindowOf(now, seconds) == WindowOf(from, seconds) + 1
  {
    var v, w := WindowOf(from, seconds), WindowOf(now, seconds);
    InItsWindow(from, seconds);
    InItsWindow(now, seconds);
    StartsApart(v + 1, seconds);
    StartsInOrder(v, w + 1, seconds);
    StartsInOrder(w, v + 2, seconds);
  }

  lemma {:induction false} BetweenIsInTwo(calls: seq<Call>, key: string, from: real, budgets: string -> Budget)
    requires forall k :: IsBudget(budgets(k))
    ensures IsBudget(budgets(key))
    ensures var seconds := budgets(key).seconds; var w := WindowOf(from, seconds);
      AllowedBetween(calls, key, from, from + seconds as real, budgets)
      <= Allowed(calls, key, w, budgets) + Allowed(calls, key, w + 1, budgets)
  {
    if calls != [] {
      var c, seconds := calls[|calls| - 1], budgets(key).seconds;
      BetweenIsInTwo(calls[..|calls| - 1], key, from, budgets);
      if c.key == key && from <= c.now < from + seconds as real {
        TwoWindows(from, c.now, seconds);
      }
    }
  }

  /** In any half-open interval as long as a window at most twice the limit is allowed. */
  lemma AtMostTwiceTheLimit(calls: seq<Call>, budgets: string -> Budget, key: string, from: real)
    requires (forall k :: IsBudget(budgets(k))) && InOrder(calls)
    ensures AllowedBetween(calls, key, from, from + budgets(key).seconds as real, budgets) <= 2 * budgets(key).limit
  {
    var w := WindowOf(from, budgets(key).seconds);
    BetweenIsInTwo(calls, key, from, budgets);
    AtMostTheLimit(calls, budgets, key, w);
    AtMostTheLimit(calls, budgets, key, w + 1);
  }

  // ---------------------------------------------------------------- outages

  /** The latch of a process after these calls of its own. */
  ghost function Latch(calls: seq<Call>): Option<real> {
    if calls == [] then None else LatchAfter(Latch(calls[..|calls| - 1]), calls[|calls| - 1])
  }

  /** The calls of one process: skipped when its latch holds, and no others. */
  ghost predicate OfOneProcess(calls: seq<Call>) {
    && (forall i, j :: 0 <= i < j < |calls| ==> calls[i].now <= calls[j].now)
    && (forall i :: 0 <= i < |calls| ==> (calls[i].outcome.Skipped? <==> Holds(Latch(calls[..i]), calls[i].now)))
  }

  predicate Failed(c: Call) {
    c.outcome.Dialled? && c.outcome.reply.Silence?
  }

  lemma {:induction false} LatchIsTheLastFailure(calls: seq<Call>, i: nat, j: nat)
    requires OfOneProcess(calls) && i < j <= |calls| && Failed(calls[i])
    requires forall k :: i < k < j ==> calls[k].now < calls[i].now + RETRY_AFTER_FAILURE
    ensures Latch(calls[..j]) == Some(calls[i].now)
    decreases j
  {
    assert calls[..j][..j - 1] == calls[..j - 1] && calls[..j][j - 1] == calls[j - 1];
    if j > i + 1 {
      LatchIsTheLastFailure(calls, i, j - 1);
    }
  }

  /** After a dial that failed, the next dial of the process comes at least thirty seconds later. */
  lemma DialsAreApart(calls: seq<Call>, i: nat, j: nat)
    requires OfOneProcess(calls) && i < j < |calls| && Failed(calls[i]) && calls[j].outcome.Dialled?
    ensures calls[j].now >= calls[i].now + RETRY_AFTER_FAILURE
  {
    if calls[j].now < calls[i].now + RETRY_AFTER_FAILURE {
      LatchIsTheLastFailure(calls, i, j);
    }
  }

  /** The latch stands at the last dial, if that failed. */
  lemma {:induction false} LatchIsAFailure(calls: seq<Call>)
    ensures Latch(calls).Some? ==>
              exists i :: 0 <= i < |calls| && Failed(calls[i]) && calls[i].now == Latch(calls).value
    decreases |calls|
  {
    if calls != [] {
      var front, last := calls[..|calls| - 1], calls[|calls| - 1];
      LatchIsAFailure(front);
      if Failed(last) {
        assert calls[|calls| - 1].now == Latch(calls).value;
      } else if Latch(calls).Some? {
        var i :| 0 <= i < |front| && Failed(front[i]) && front[i].now == Latch(front).value;
        assert calls[i] == front[i];
      }
    }
  }

  /** Redis is not dialled only because a dial failed less than thirty seconds before: once that long
      has passed without one, it is dialled again. */
  lemma SkippedForAReason(calls: seq<Call>, j: nat)
    requires OfOneProcess(calls) && j < |calls| && calls[j].outcome.Skipped?
    ensures exists i :: 0 <= i < j && Failed(calls[i]) && calls[j].now < calls[i].now + RETRY_AFTER_FAILURE
  {
    LatchIsAFailure(calls[..j]);
    var i :| 0 <= i < j && Failed(calls[..j][i]) && calls[..j][i].now == Latch(calls[..j]).value;
    assert calls[..j][i] == calls[i];
  }

  /** Both halves: a call is dialled exactly when no dial failed in the half minute before it. */
  lemma DialledExactly(calls: seq<Call>, j: nat)
    requires OfOneProcess(calls) && j < |calls|
    ensures calls[j].outcome.Dialled? <==>
            forall i :: 0 <= i < j && Failed(calls[i]) ==> calls[j].now >= calls[i].now + 30.0
  {
    if calls[j].outcome.Skipped? {
      SkippedForAReason(calls, j);
    } else {
      forall i | 0 <= i < j && Failed(calls[i]) ensures calls[j].now >= calls[i].now + 30.0 {
        DialsAreApart(calls, i, j);
      }
    }
  }
}
