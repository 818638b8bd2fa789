/** Counting arrivals in windows that each start with an arrival. */
module Windows {
  datatype Meter = Meter(started: real, count: nat)

  /** One arrival: it opens a new window once the old one has run out. */
  function Arrive(m: Meter, now: real, window: real): Meter {
    if now - m.started >= window then Meter(now, 1) else m.(count := m.count + 1)
  }

  /** The meter after these arrivals. */
  function Metered(m: Meter, times: seq<real>, window: real): Meter {
    if times == [] then m
    else Arrive(Metered(m, times[..|times| - 1], window), times[|times| - 1], window)
  }

  ghost predicate NonDecreasing(times: seq<real>) {
    forall i, j :: 0 <= i < j < |times| ==> times[i] <= times[j]
  }

  /** How many of the arrivals from `from` up to but not including `to` are within the
      limit. */
  function Accepted(m: Meter, times: seq<real>, window: real, limit: nat, from: real, to: real): nat {
    if times == [] then 0
    else
      var last := times[|times| - 1];
      Accepted(m, times[..|times| - 1], window, limit, from, to)
      + (if from <= last < to && Metered(m, times, window).count <= limit then 1 else 0)
  }

  function Min(a: nat, b: nat): nat {
    if a < b then a else b
  }

  /** How many have been accepted in an interval, by where the current window started. */
  ghost predicate Bounded(accepted: nat, m: Meter, last: real, limit: nat, from: real, to: real) {
    && (last < from ==> accepted == 0)
    && (m.started < from ==> accepted <= Min(m.count, limit))
    && (from <= m.started < to ==> accepted <= limit + Min(m.count, limit))
    && accepted <= 2 * limit
    && m.started <= last
  }

  lemma {:induction false} ArrivalsAreBounded(m: Meter, times: seq<real>, window: real, limit: nat, from: real)
    requires window > 0.0 && NonDecreasing(times) && m.count == 0
    requires times != [] ==> m.started <= times[0]
    ensures var last := if times == [] then m.started else times[|times| - 1];
      Bounded(Accepted(m, times, window, limit, from, from + window), Metered(m, times, window), last,
              limit, from, from + window)
  {
    if times != [] {
      var before := times[..|times| - 1];
      ArrivalsAreBounded(m, before, window, limit, from);
      var last := if before == [] then m.started else before[|before| - 1];
    }
  }

  /** At most twice the limit is accepted in any half-open interval as long as a window. */
  lemma AtMostTwice(m: Meter, times: seq<real>, window: real, limit: nat, from: real)
    requires window > 0.0 && NonDecreasing(times) && m.count == 0
    requires times != [] ==> m.started <= times[0]
    ensures Accepted(m, times, window, limit, from, from + window) <= 2 * limit
  {
    ArrivalsAreBounded(m, times, window, limit, from);
  }

  /** And twice the limit can be: nothing smaller holds. */
  lemma TwiceIsReached()
    ensures var m, times := Meter(0.0, 0), [9.0, 11.0];
      NonDecreasing(times) && Accepted(m, times, 10.0, 1, 9.0, 19.0) == 2
  {
    var m, times := Meter(0.0, 0), [9.0, 11.0];
    assert times[..1] == [9.0] && [9.0][..0] == [];
    assert Metered(m, [9.0], 10.0) == Meter(0.0, 1);
    assert Metered(m, times, 10.0) == Meter(11.0, 1);
  }

  /** How many of the arrivals came after `from`, and not after `to`. */
  function Recent(times: seq<real>, from: real, to: real): nat {
    if times == [] then 0
    else
      var last := times[|times| - 1];
      Recent(times[..|times| - 1], from, to) + (if from < last <= to then 1 else 0)
  }

  lemma {:induction false} RecentGrows(times: seq<real>, from: real, to: real, later: real)
    requires to <= later && forall i :: 0 <= i < |times| ==> times[i] <= to
    ensures Recent(times, from, to) == Recent(times, from, later)
  {
    if times != [] {
      RecentGrows(times[..|times| - 1], from, to, later);
    }
  }

  /** A window's count is of arrivals since it started, and it started less than a window ago when
      the last of them came. */
  lemma {:induction false} CountIsRecent(m: Meter, times: seq<real>, window: real, from: real)
    requires window > 0.0 && NonDecreasing(times) && m.count == 0 && times != [] && m.started <= times[0]
    requires from < Metered(m, times, window).started
    ensures Metered(m, times, window).count <= Recent(times, from, times[|times| - 1])
  {
    var before, last := times[..|times| - 1], times[|times| - 1];
    var b := Metered(m, before, window);
    if before != [] && last - b.started < window {
      CountIsRecent(m, before, window, from);
      RecentGrows(before, from, before[|before| - 1], last);
    }
    StartedBy(m, times, window);
  }

  lemma {:induction false} StartedBy(m: Meter, times: seq<real>, window: real)
    requires window > 0.0 && NonDecreasing(times) && times != [] && m.started <= times[0]
    ensures var last, started := times[|times| - 1], Metered(m, times, window).started;
      started <= last < started + window
  {
    var before := times[..|times| - 1];
    if before != [] {
      StartedBy(m, before, window);
    }
  }

  /** An arrival is turned away only if, with it, more than the limit have come in less than a
      window: whoever keeps to the limit over every window is never turned away. */
  lemma RefusedOnlyAboveTheLimit(m: Meter, times: seq<real>, window: real, limit: nat)
    requires window > 0.0 && NonDecreasing(times) && m.count == 0 && times != [] && m.started <= times[0]
    requires Metered(m, times, window).count > limit
    ensures var last := times[|times| - 1]; Recent(times, last - window, last) > limit
  {
    StartedBy(m, times, window);
    CountIsRecent(m, times, window, times[|times| - 1] - window);
  }
}
