/** The transactional outbox: rows, any number of relay transactions that lock, send and
    mark them, and the dispatch of one event to its actors. */
module Outbox {
  import opened Wrappers

  const MAX_ATTEMPTS: nat := 8
  const BACKOFF_CAP: nat := 600

  // ---------------------------------------------------------------- what one dispatch sends

  /** The routing table entry of an event type: no entry, an entry with no actor (the
      realtime-only events), or an actor. */
  datatype Route = Unrouted | Unhandled | Actor(name: string)

  /** A dispatch ends by returning, or by raising what the relay tells apart. */
  datatype Outcome = Sent | Transient | Poison

  /** The actors an event must reach: its route, then the fan-out. */
  function Targets(route: Route, fanOut: seq<string>): seq<string> {
    (if route.Actor? then [route.name] else []) + fanOut
  }

  /** Sends to each actor in turn until one raises; `broker` says how each send ends. */
  function SendAll(targets: seq<string>, broker: seq<Outcome>): (seq<string>, Outcome)
    requires |broker| == |targets|
    decreases |targets|
  {
    if targets == [] then ([], Sent)
    else if !broker[0].Sent? then ([], broker[0])
    else
      var (rest, outcome) := SendAll(targets[1..], broker[1..]);
      ([targets[0]] + rest, outcome)
  }

  /** How many sends that makes. */
  function Sends(route: Route, fanOut: seq<string>): nat {
    |fanOut| + if route.Actor? then 1 else 0
  }

  /** `dispatch_all`: an unrouted event raises before anything is sent; a broadcast never
      raises for the bus, but a frame its channel does not carry is a bug that does. */
  function DispatchAll(route: Route, fanOut: seq<string>, broker: seq<Outcome>, carried: bool)
    : (seq<string>, Outcome)
    requires |broker| == Sends(route, fanOut)
  {
    if route.Unrouted? then ([], Poison)
    else
      var (sent, outcome) := SendAll(Targets(route, fanOut), broker);
      (sent, if outcome.Sent? && !carried then Poison else outcome)
  }

  /** A dispatch that returns has reached every actor, in order; one that raises has
      reached a beginning of them. */
  lemma {:induction false} SendAllReaches(targets: seq<string>, broker: seq<Outcome>)
    requires |broker| == |targets|
    ensures var (sent, outcome) := SendAll(targets, broker);
      && sent <= targets
      && (outcome.Sent? <==> sent == targets)
      && (outcome.Sent? <==> forall i :: 0 <= i < |broker| ==> broker[i].Sent?)
      && (!outcome.Sent? ==> broker[|sent|] == outcome)
    decreases |targets|
  {
    if targets != [] && broker[0].Sent? {
      SendAllReaches(targets[1..], broker[1..]);
      assert targets == [targets[0]] + targets[1..];
      assert broker == [broker[0]] + broker[1..];
    }
  }

  /** A dispatch is complete only for a routed event, every one of whose actors took the
      send; what it raises otherwise is the first thing that went wrong. */
  lemma DispatchIsAllOrRaises(route: Route, fanOut: seq<string>, broker: seq<Outcome>, carried: bool)
    requires |broker| == |fanOut| + if route.Actor? then 1 else 0
    ensures var (sent, outcome) := DispatchAll(route, fanOut, broker, carried);
      && sent <= Targets(route, fanOut)
      && (outcome.Sent? <==> !route.Unrouted? && carried && forall i :: 0 <= i < |broker| ==> broker[i].Sent?)
      && (outcome.Sent? ==> sent == Targets(route, fanOut))
      && (outcome.Transient? ==> |sent| < |broker| && broker[|sent|] == Transient)
  {
    SendAllReaches(Targets(route, fanOut), broker);
  }

  /** What a complete dispatch has sent to: the route's actor first, if there is one, then the whole
      fan-out in its order, and nobody else; and an incomplete one a beginning of that, unless
      there is no route, when it has sent nothing. */
  lemma DispatchReaches(route: Route, fanOut: seq<string>, broker: seq<Outcome>, carried: bool)
    requires |broker| == |fanOut| + if route.Actor? then 1 else 0
    ensures var (sent, outcome) := DispatchAll(route, fanOut, broker, carried);
      && (outcome.Sent? ==>
            && (forall a :: a in sent <==> (route.Actor? && a == route.name) || a in fanOut)
            && |sent| == |fanOut| + (if route.Actor? then 1 else 0)
            && (route.Actor? ==> sent[0] == route.name && sent[1..] == fanOut)
            && (route.Unhandled? ==> sent == fanOut))
      && (route.Actor? && sent != [] ==> sent[0] == route.name && sent[1..] <= fanOut)
      && (route.Unhandled? ==> sent <= fanOut)
      && (route.Unrouted? ==> sent == [] && outcome.Poison?)
  {
    DispatchIsAllOrRaises(route, fanOut, broker, carried);
    if route.Actor? {
      assert Targets(route, fanOut)[1..] == fanOut;
    }
  }

  // ---------------------------------------------------------------- rows

  /** `routed` and `targets` are what the routing table and the fan-out make of the event. */
  datatype Row = Row(routed: bool, targets: seq<string>, attempts: nat, availableAt: int, dispatchedAt: Option<int>)

  function Pow2(n: nat): (p: nat)
    ensures p > 0
  {
    if n == 0 then 1 else 2 * Pow2(n - 1)
  }

  function Max(a: int, b: int): int {
    if a < b then b else a
  }

  function Delay(attempts: nat): nat {
    var ladder := Pow2(Max(1, attempts + 1));
    if BACKOFF_CAP < ladder then BACKOFF_CAP else ladder
  }

  function Rescheduled(row: Row, transient: bool, moment: int): Row {
    row.(attempts := row.attempts + if transient then 0 else 1,
         availableAt := moment + Delay(row.attempts))
  }

  function Marked(row: Row, moment: int): Row {
    row.(dispatchedAt := Some(moment))
  }

  function Updated(row: Row, outcome: Outcome, moment: int): Row {
    if outcome.Sent? then Marked(row, moment) else Rescheduled(row, outcome.Transient?, moment)
  }

  predicate Eligible(row: Row, moment: int) {
    row.dispatchedAt.None? && row.availableAt <= moment && row.attempts < MAX_ATTEMPTS
  }

  function EligibleIds(rows: map<nat, Row>, moment: int): set<nat> {
    set id | id in rows && Eligible(rows[id], moment)
  }

  /** ORDER BY available_at, id. */
  predicate Before(rows: map<nat, Row>, a: nat, b: nat) {
    && a in rows && b in rows
    && (rows[a].availableAt < rows[b].availableAt
        || (rows[a].availableAt == rows[b].availableAt && a < b))
  }

  function AsSet(ids: seq<nat>): set<nat> {
    set id | id in ids
  }

  lemma AsSetSnoc(ids: seq<nat>, id: nat)
    ensures AsSet(ids + [id]) == AsSet(ids) + {id}
  {
  }

  predicate Distinct(ids: seq<nat>) {
    forall i, j :: 0 <= i < j < |ids| ==> ids[i] != ids[j]
  }

  /** `ids` are the first of `free` in that order. */
  ghost predicate Leading(rows: map<nat, Row>, free: set<nat>, ids: seq<nat>) {
    && AsSet(ids) <= free
    && (forall i, j :: 0 <= i < j < |ids| ==> Before(rows, ids[i], ids[j]))
    && (forall i, id :: 0 <= i < |ids| && id in free && id !in ids ==> Before(rows, ids[i], id))
  }

  /** `ids` is what SELECT ... ORDER BY ... LIMIT ... SKIP LOCKED returns. */
  ghost predicate IsSelection(rows: map<nat, Row>, locked: set<nat>, moment: int, batch: nat, ids: seq<nat>) {
    var free := EligibleIds(rows, moment) - locked;
    Leading(rows, free, ids) && |ids| == if batch < |free| then batch else |free|
  }

  lemma LeadingSnoc(rows: map<nat, Row>, free: set<nat>, ids: seq<nat>, id: nat)
    requires Leading(rows, free, ids) && id in free - AsSet(ids)
    requires forall other :: other in free - AsSet(ids) && other != id ==> Before(rows, id, other)
    ensures Leading(rows, free, ids + [id])
  {
    var more := ids + [id];
    AsSetSnoc(ids, id);
    forall i, other | 0 <= i < |more| && other in free && other !in more
      ensures Before(rows, more[i], other)
    {
      assert other !in ids && other in free - AsSet(ids);
    }
    forall i, j | 0 <= i < j < |more|
      ensures Before(rows, more[i], more[j])
    {
      assert id !in ids;
    }
  }

  lemma SelectionIsDistinct(rows: map<nat, Row>, locked: set<nat>, moment: int, batch: nat, ids: seq<nat>)
    requires IsSelection(rows, locked, moment, batch, ids)
    ensures Distinct(ids)
    ensures forall i :: 0 <= i < |ids| ==> ids[i] in rows && Eligible(rows[ids[i]], moment) && ids[i] !in locked
  {
    forall i | 0 <= i < |ids|
      ensures ids[i] in rows && Eligible(rows[ids[i]], moment) && ids[i] !in locked
    {
      assert ids[i] in AsSet(ids);
    }
  }

  /** The selected rows are undispatched, due, short of eight attempts and free, each earlier than
      the next by due time and then by id; every such row that was left out comes after all of
      them, and none is left out while the batch has room. */
  lemma SelectedAreTheOldest(rows: map<nat, Row>, locked: set<nat>, moment: int, batch: nat, ids: seq<nat>)
    requires IsSelection(rows, locked, moment, batch, ids)
    ensures |ids| <= batch
    ensures forall i :: 0 <= i < |ids| ==> ids[i] in rows && IsDue(rows[ids[i]], moment) && ids[i] !in locked
    ensures forall i, j :: 0 <= i < j < |ids| ==> IsOlder(rows, ids[i], ids[j])
    ensures forall i, id :: 0 <= i < |ids| && id in rows && IsDue(rows[id], moment) && id !in locked && id !in ids ==>
              IsOlder(rows, ids[i], id)
    ensures |ids| < batch ==> forall id :: id in rows && IsDue(rows[id], moment) && id !in locked ==> id in ids
  {
    SelectionIsDistinct(rows, locked, moment, batch, ids);
    if |ids| < batch {
      var free := EligibleIds(rows, moment) - locked;
      DistinctCardinality(ids);
      SameSize(AsSet(ids), free);
      assert forall id :: id in rows && IsDue(rows[id], moment) && id !in locked ==> id in free;
      assert forall id :: id in AsSet(ids) ==> id in ids;
    }
  }

  predicate IsDue(row: Row, moment: int) {
    row.dispatchedAt == None && row.attempts < 8 && row.availableAt <= moment
  }

  predicate IsOlder(rows: map<nat, Row>, a: nat, b: nat) {
    && a in rows && b in rows
    && if rows[a].availableAt != rows[b].availableAt then rows[a].availableAt < rows[b].availableAt else a < b
  }

  lemma SameSize(a: set<nat>, b: set<nat>)
    requires a <= b && |a| == |b|
    ensures a == b
  {
    assert b == a + (b - a);
  }

  lemma {:induction false} DistinctCardinality(ids: seq<nat>)
    requires Distinct(ids)
    ensures |AsSet(ids)| == |ids|
  {
    if ids != [] {
      DistinctCardinality(ids[1..]);
      assert AsSet(ids) == {ids[0]} + AsSet(ids[1..]);
    }
  }

  /** The rows after a batch at `moment`, each updated by how its dispatch ended. */
  function Drained(rows: map<nat, Row>, ids: set<nat>, outcome: nat -> Outcome, moment: int): map<nat, Row> {
    map id | id in rows :: if id in ids then Updated(rows[id], outcome(id), moment) else rows[id]
  }

  function SentCount(ids: seq<nat>, outcome: nat -> Outcome): nat {
    if ids == [] then 0
    else SentCount(ids[..|ids| - 1], outcome) + if outcome(ids[|ids| - 1]).Sent? then 1 else 0
  }

  lemma DrainOneMore(rows: map<nat, Row>, ids: seq<nat>, i: nat, outcome: nat -> Outcome, moment: int)
    requires Distinct(ids) && i < |ids| && ids[i] in rows
    ensures ids[i] in Drained(rows, AsSet(ids[..i]), outcome, moment)
    ensures Drained(rows, AsSet(ids[..i]), outcome, moment)[ids[i]] == rows[ids[i]]
    ensures Drained(rows, AsSet(ids[..i + 1]), outcome, moment)
         == Drained(rows, AsSet(ids[..i]), outcome, moment)[ids[i] := Updated(rows[ids[i]], outcome(ids[i]), moment)]
    ensures SentCount(ids[..i + 1], outcome)
         == SentCount(ids[..i], outcome) + if outcome(ids[i]).Sent? then 1 else 0
  {
    assert ids[..i + 1] == ids[..i] + [ids[i]];
    assert ids[..i + 1][..i] == ids[..i];
    AsSetSnoc(ids[..i], ids[i]);
    assert ids[i] !in AsSet(ids[..i]);
  }

  /** The table, and one relay's transaction against it when nothing else runs. */
  class Table {
    var rows: map<nat, Row>

    method Least(free: set<nat>) returns (least: nat)
      requires free != {} && free <= rows.Keys
      ensures least in free
      ensures forall id :: id in free && id != least ==> Before(rows, least, id)
    {
      least :| least in free;
      var todo := free - {least};
      while todo != {}
        invariant least in free && todo <= free && least !in todo
        invariant forall id :: id in free - todo && id != least ==> Before(rows, least, id)
        decreases |todo|
      {
        var id :| id in todo;
        todo := todo - {id};
        if rows[id].availableAt < rows[least].availableAt
           || (rows[id].availableAt == rows[least].availableAt && id < least) {
          forall other | other in free - todo && other != id
            ensures Before(rows, id, other)
          {
            assert other != least ==> Before(rows, least, other);
          }
          least := id;
        }
      }
    }

    method SelectForUpdate(locked: set<nat>, moment: int, batch: nat) returns (ids: seq<nat>)
      ensures IsSelection(rows, locked, moment, batch, ids)
    {
      var free := EligibleIds(rows, moment) - locked;
      var left := free;
      ids := [];
      while |ids| < batch && left != {}
        invariant left == free - AsSet(ids)
        invariant |ids| + |left| == |free| && |ids| <= batch
        invariant Leading(rows, free, ids)
        decreases |left|
      {
        var id := Least(left);
        LeadingSnoc(rows, free, ids, id);
        AsSetSnoc(ids, id);
        left := left - {id};
        ids := ids + [id];
      }
    }

    /** One drain. Every selected row is updated once, by how its dispatch ended, and
        nothing else is touched; `min(batch, eligible)` rows stop being eligible at this
        moment and none becomes so, so repeating it comes to an end. */
    method Drain(outcome: nat -> Outcome, moment: int, batch: nat) returns (dispatched: nat, ghost ids: seq<nat>)
      modifies this
      ensures IsSelection(old(rows), {}, moment, batch, ids)
      ensures rows == Drained(old(rows), AsSet(ids), outcome, moment)
      ensures dispatched == SentCount(ids, outcome)
      ensures EligibleIds(rows, moment) == EligibleIds(old(rows), moment) - AsSet(ids)
      ensures var n := |EligibleIds(old(rows), moment)|;
              |EligibleIds(rows, moment)| == if batch < n then n - batch else 0
    {
      var selected := SelectForUpdate({}, moment, batch);
      ids := selected;
      SelectionIsDistinct(rows, {}, moment, batch, ids);
      dispatched := 0;
      var i := 0;
      assert AsSet(selected[..0]) == {} && rows == Drained(rows, {}, outcome, moment);
      while i < |selected|
        invariant 0 <= i <= |selected|
        invariant rows == Drained(old(rows), AsSet(selected[..i]), outcome, moment)
        invariant dispatched == SentCount(selected[..i], outcome)
      {
        var id := selected[i];
        DrainOneMore(old(rows), selected, i, outcome, moment);
        if outcome(id).Sent? {
          rows := rows[id := Marked(rows[id], moment)];
          dispatched := dispatched + 1;
        } else {
          rows := rows[id := Rescheduled(rows[id], outcome(id).Transient?, moment)];
        }
        i := i + 1;
      }
      assert selected[..i] == selected;
      DrainShrinksEligible(old(rows), ids, outcome, moment, batch);
    }

    /** `purge_dispatched`: only rows dispatched before the horizon go. */
    method PurgeDispatched(horizon: int) returns (count: nat)
      modifies this
      ensures rows == Kept(old(rows), horizon)
      ensures count == |old(rows)| - |rows|
      ensures forall id :: id in rows <==>
                id in old(rows) && (old(rows)[id].dispatchedAt.None? || old(rows)[id].dispatchedAt.value >= horizon)
      ensures forall id :: id in rows ==> rows[id] == old(rows)[id]
    {
      var kept := map id | id in rows && !Purgeable(rows[id], horizon) :: rows[id];
      assert kept.Keys <= rows.Keys;
      SubsetSize(kept.Keys, rows.Keys);
      count := |rows| - |kept|;
      rows := kept;
    }
  }

  lemma SubsetSize(a: set<nat>, b: set<nat>)
    requires a <= b
    ensures |a| <= |b|
  {
    assert b == a + (b - a);
  }

  predicate Purgeable(row: Row, horizon: int) {
    row.dispatchedAt.Some? && row.dispatchedAt.value < horizon
  }

  function Kept(rows: map<nat, Row>, horizon: int): map<nat, Row> {
    map id | id in rows && !Purgeable(rows[id], horizon) :: rows[id]
  }

  lemma DelayIsPositive(attempts: nat)
    ensures Delay(attempts) > 0
  {
  }

  lemma DrainShrinksEligible(rows: map<nat, Row>, ids: seq<nat>, outcome: nat -> Outcome, moment: int, batch: nat)
    requires IsSelection(rows, {}, moment, batch, ids)
    ensures var after := Drained(rows, AsSet(ids), outcome, moment);
      && EligibleIds(after, moment) == EligibleIds(rows, moment) - AsSet(ids)
      && |EligibleIds(after, moment)| == |EligibleIds(rows, moment)| - |ids|
  {
    var after := Drained(rows, AsSet(ids), outcome, moment);
    forall id | id in AsSet(ids)
      ensures !Eligible(after[id], moment)
    {
      DelayIsPositive(rows[id].attempts);
    }
    assert EligibleIds(after, moment) == EligibleIds(rows, moment) - AsSet(ids);
    SelectionIsDistinct(rows, {}, moment, batch, ids);
    DistinctCardinality(ids);
    assert EligibleIds(rows, moment) == EligibleIds(after, moment) + AsSet(ids);
  }

  ghost predicate Drains(rows: map<nat, Row>, ids: seq<nat>, outcome: nat -> Outcome, moment: int, batch: nat,
                         after: map<nat, Row>) {
    IsSelection(rows, {}, moment, batch, ids) && after == Drained(rows, AsSet(ids), outcome, moment)
  }

  lemma OneDrain(rows: map<nat, Row>, ids: seq<nat>, outcome: nat -> Outcome, moment: int, batch: nat, after: map<nat,
                 Row>)
    requires Drains(rows, ids, outcome, moment, batch, after)
    ensures var n := |EligibleIds(rows, moment)|; |EligibleIds(after, moment)| == if batch < n then n - batch else 0
  {
    DrainShrinksEligible(rows, ids, outcome, moment, batch);
    assert EligibleIds(rows, moment) - {} == EligibleIds(rows, moment);
  }

  /** Drains at one moment come to an end: the first k of them leave what k times the batch
      does not cover. */
  lemma {:induction false} DrainsEnd(tables: seq<map<nat, Row>>, picks: seq<seq<nat>>, outcomes: seq<nat -> Outcome>,
                                     moment: int, batch: nat, k: nat)
    requires |tables| == |picks| + 1 && |outcomes| == |picks| && k <= |picks|
    requires forall i :: 0 <= i < |picks| ==> Drains(tables[i], picks[i], outcomes[i], moment, batch, tables[i + 1])
    ensures var n, covered := |EligibleIds(tables[0], moment)|, k * batch;
      |EligibleIds(tables[k], moment)| == if covered < n then n - covered else 0
    decreases k
  {
    if k > 0 {
      DrainsEnd(tables, picks, outcomes, moment, batch, k - 1);
      OneDrain(tables[k - 1], picks[k - 1], outcomes[k - 1], moment, batch, tables[k]);
      assert k * batch == (k - 1) * batch + batch;
    }
  }
}
